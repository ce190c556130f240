/** One Bluetooth restart (`toggleBluetoothWithShizuku`): probe the channel,
    issue `svc bluetooth disable`, and only if that left nothing on stderr wait
    five seconds and issue `svc bluetooth enable`. Its side effects are
    recorded as a sequence of events. */
module Toggle {
  import opened Text
  import opened Shizuku

  /** The two shell commands the service knows. */
  datatype Command = Disable | Enable

  /** The argument vector handed to the channel for each command. */
  function Argv(c: Command): seq<string> {
    match c
    case Disable => ["svc", "bluetooth", "disable"]
    case Enable => ["svc", "bluetooth", "enable"]
  }

  /** An externally visible step: a command sent through the channel, or a
      suspension of the given number of milliseconds. */
  datatype Event = Exec(command: Command) | Wait(ms: int)

  /** `WAIT_AFTER_DISABLE_MS`, 5 seconds. */
  const WAIT_AFTER_DISABLE_MS: int := 5 * 1000

  /** The shaped result of the disable command on this channel. */
  function DisableResult(p: Provider): (string, string) {
    RunShellCommand(p.run(Argv(Disable)))
  }

  /** The events of one toggle, as a specification. */
  function CycleEvents(p: Provider): seq<Event> {
    if !IsAvailableAndGranted(p) then []
    else if IsBlank(DisableResult(p).1) then [Exec(Disable), Wait(WAIT_AFTER_DISABLE_MS), Exec(Enable)]
    else [Exec(Disable)]
  }

  /** `toggleBluetoothWithShizuku`, step by step. The enable command's result
      is only logged by the service, so it is not kept. */
  method ToggleBluetooth(p: Provider) returns (events: seq<Event>)
    ensures events == CycleEvents(p)
  {
    events := [];
    if !IsAvailableAndGranted(p) {
      return;
    }
    events := [Exec(Disable)];
    var disableResult := RunShellCommand(p.run(Argv(Disable)));
    if IsBlank(disableResult.1) {
      events := events + [Wait(WAIT_AFTER_DISABLE_MS)];
      events := events + [Exec(Enable)];
    }
  }

  /** Without an available and granted channel nothing is issued and nothing
      is waited for, including when the probe itself throws. */
  lemma UnavailableChannelDoesNothing(p: Provider)
    requires p.ping != Returned(true) || p.permission != Returned(PERMISSION_GRANTED)
    ensures CycleEvents(p) == []
  {
  }

  /** A toggle issues at most two commands, the first is always the disable
      command, the only other one is the enable command, and the enable
      command, if issued, comes last. */
  lemma CommandsAreDisableThenEnable(p: Provider)
    ensures |CycleEvents(p)| <= 3
    ensures multiset(CycleEvents(p))[Exec(Disable)] <= 1 && multiset(CycleEvents(p))[Exec(Enable)] <= 1
    ensures CycleEvents(p) != [] ==> CycleEvents(p)[0] == Exec(Disable)
    ensures forall i :: 0 <= i < |CycleEvents(p)| && CycleEvents(p)[i] == Exec(Enable) ==> i == |CycleEvents(p)| - 1
    ensures IsAvailableAndGranted(p) <==> Exec(Disable) in CycleEvents(p)
  {
  }

  /** The enable command is issued exactly when the channel is usable and the
      disable command's (trimmed) stderr is empty. */
  lemma EnableIffDisableStderrEmpty(p: Provider)
    ensures Exec(Enable) in CycleEvents(p) <==> IsAvailableAndGranted(p) && DisableResult(p).1 == ""
  {
  }

  /** On the success path one wait of `WAIT_AFTER_DISABLE_MS` sits strictly
      between the two commands; on every other path there is no wait. */
  lemma WaitSitsBetweenCommands(p: Provider)
    ensures Exec(Enable) in CycleEvents(p) ==>
      CycleEvents(p) == [Exec(Disable), Wait(WAIT_AFTER_DISABLE_MS), Exec(Enable)]
    ensures Exec(Enable) !in CycleEvents(p) ==>
      forall i :: 0 <= i < |CycleEvents(p)| ==> !CycleEvents(p)[i].Wait?
  {
  }

  /** A disable invocation that throws yields a non-blank stderr, so the
      enable step is always skipped. */
  lemma ThrowingDisableSkipsEnable(p: Provider)
    requires p.run(Argv(Disable)).Raised?
    ensures Exec(Enable) !in CycleEvents(p)
    ensures IsAvailableAndGranted(p) ==> CycleEvents(p) == [Exec(Disable)]
  {
  }

  /** Since streams are trimmed first, a disable whose raw stderr is blank
      (empty or whitespace only) counts as success, and one whose raw stderr
      holds any other character counts as failure. */
  lemma RawStderrDecidesEnable(p: Provider)
    requires IsAvailableAndGranted(p) && p.run(Argv(Disable)).Completed?
    ensures Exec(Enable) in CycleEvents(p) <==> IsBlank(p.run(Argv(Disable)).stderr)
  {
  }
}
