/** The privileged channel (Shizuku) seen from the service: an availability and
    permission probe and a command runner, each of which may throw. The
    reflective lookup of `Shizuku.newProcess` and the process plumbing are
    folded into the oracle `run`. */
module Shizuku {
  import opened Text

  datatype Option<T> = None | Some(value: T)

  /** Result of a Shizuku API call that either returns a value or throws. */
  datatype Probe<T> = Returned(value: T) | Threw

  /** What one invocation of a command through Shizuku gives back once both of
      its output streams have been read to the end: the raw text of stdout and
      stderr, or an exception with its (possibly null) message. */
  datatype Invocation = Completed(stdout: string, stderr: string) | Raised(message: Option<string>)

  /** The channel's state as one toggle sees it: `Shizuku.pingBinder()`,
      `Shizuku.checkSelfPermission()` and the command runner. */
  datatype Provider = Provider(ping: Probe<bool>, permission: Probe<int>, run: seq<string> -> Invocation)

  /** Android's `PackageManager.PERMISSION_GRANTED`. */
  const PERMISSION_GRANTED: int := 0

  /** `isShizukuAvailableAndGranted`: the binder answers the ping and the
      permission is granted; the permission is asked only after a successful
      ping, and any exception reads as "not available". */
  function IsAvailableAndGranted(p: Provider): (granted: bool)
    ensures granted <==> p.ping == Returned(true) && p.permission == Returned(PERMISSION_GRANTED)
    ensures p.ping.Threw? || p.permission.Threw? ==> !granted
  {
    match p.ping
    case Threw => false
    case Returned(alive) =>
      alive &&
      match p.permission
      case Threw => false
      case Returned(status) => status == PERMISSION_GRANTED
  }

  /** Kotlin's string template for a nullable message. */
  function MessageText(message: Option<string>): string {
    match message
    case None => "null"
    case Some(m) => m
  }

  /** Result shaping of `runShellCommandWithShizuku`: a completed invocation
      gives its two streams trimmed, an exception gives an empty stdout and
      an "Exception: ..." stderr. In both cases the stderr is blank exactly
      when it is empty; after an exception it is never blank; after a
      completed run it is empty exactly when the raw stderr was blank. */
  function RunShellCommand(outcome: Invocation): (result: (string, string))
    ensures IsBlank(result.1) <==> result.1 == ""
    ensures outcome.Completed? ==>
      HasNoOuterWhitespace(result.0) && HasNoOuterWhitespace(result.1) &&
      (result.0 == "" <==> IsBlank(outcome.stdout)) &&
      (result.1 == "" <==> IsBlank(outcome.stderr))
    ensures outcome.Raised? ==>
      result.0 == "" && result.1 == "Exception: " + MessageText(outcome.message) && !IsBlank(result.1)
  {
    match outcome
    case Completed(out, err) => (Trim(out), Trim(err))
    case Raised(message) =>
      var err := "Exception: " + MessageText(message);
      assert !IsWhitespace(err[0]);
      ("", err)
  }

  /** The shaped stdout of a completed invocation is exactly the raw stdout
      with its outer whitespace removed. */
  lemma CompletedOutputIsCore(lead: string, core: string, trail: string, stderr: string)
    requires IsBlank(lead) && IsBlank(trail) && HasNoOuterWhitespace(core)
    ensures RunShellCommand(Completed(lead + core + trail, stderr)).0 == core
  {
    TrimRemovesExactlyOuterWhitespace(lead, core, trail);
  }

  /** The shaped stderr of a completed invocation is exactly the raw stderr
      with its outer whitespace removed. */
  lemma CompletedResultIsCore(lead: string, core: string, trail: string, stdout: string)
    requires IsBlank(lead) && IsBlank(trail) && HasNoOuterWhitespace(core)
    ensures RunShellCommand(Completed(stdout, lead + core + trail)).1 == core
  {
    TrimRemovesExactlyOuterWhitespace(lead, core, trail);
  }
}
