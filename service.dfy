/** The foreground service's scheduler: a single toggling job that, while it
    is active, waits `TOGGLE_INTERVAL_MS` and then runs one toggle, forever;
    `startToggling` launches it unless it is already active and `onDestroy`
    cancels it together with the service's coroutine scope. */
module Service {
  import opened Shizuku
  import opened Toggle

  /** `TOGGLE_INTERVAL_MS`, 20 minutes. */
  const TOGGLE_INTERVAL_MS: int := 20 * 60 * 1000

  /** One iteration of the toggling loop: the interval delay, then a whole
      toggle on the channel as it is at that moment. */
  function Iteration(p: Provider): seq<Event> {
    [Wait(TOGGLE_INTERVAL_MS)] + CycleEvents(p)
  }

  /** The events of consecutive iterations whose toggles produced `cycles`:
      each toggle preceded by its interval wait. */
  function Ticks(cycles: seq<seq<Event>>): seq<Event>
    decreases |cycles|
  {
    if cycles == [] then [] else Ticks(cycles[..|cycles| - 1]) + ([Wait(TOGGLE_INTERVAL_MS)] + cycles[|cycles| - 1])
  }

  /** The toggle of each tick, in order, one channel state per tick. */
  function CyclesOf(world: seq<Provider>): (cycles: seq<seq<Event>>)
    ensures |cycles| == |world|
    decreases |world|
  {
    if world == [] then [] else CyclesOf(world[..|world| - 1]) + [CycleEvents(world[|world| - 1])]
  }

  /** The events of the loop over consecutive ticks. */
  function LoopEvents(world: seq<Provider>): seq<Event> {
    Ticks(CyclesOf(world))
  }

  /** The last tick's iteration closes the loop's events. */
  lemma LoopEventsSnoc(world: seq<Provider>)
    requires world != []
    ensures LoopEvents(world) == LoopEvents(world[..|world| - 1]) + Iteration(world[|world| - 1])
  {
    var c := CyclesOf(world);
    assert c[..|c| - 1] == CyclesOf(world[..|world| - 1]);
  }

  /** Extending the elapsed ticks by one appends that tick's iteration. */
  lemma LoopEventsStep(before: seq<Event>, world: seq<Provider>, i: nat, cycle: seq<Event>)
    requires i < |world| && cycle == CycleEvents(world[i])
    ensures before + LoopEvents(world[..i]) + ([Wait(TOGGLE_INTERVAL_MS)] + cycle) ==
            before + LoopEvents(world[..i + 1])
  {
    assert world[..i + 1][..i] == world[..i];
    LoopEventsSnoc(world[..i + 1]);
  }

  lemma {:induction false} TicksAppend(a: seq<seq<Event>>, b: seq<seq<Event>>)
    ensures Ticks(a + b) == Ticks(a) + Ticks(b)
    decreases |b|
  {
    if b == [] {
      assert a + b == a;
    } else {
      var b' := b[..|b| - 1];
      assert (a + b)[..|a + b| - 1] == a + b';
      assert (a + b)[|a + b| - 1] == b[|b| - 1];
      TicksAppend(a, b');
    }
  }

  lemma {:induction false} CyclesOfAppend(a: seq<Provider>, b: seq<Provider>)
    ensures CyclesOf(a + b) == CyclesOf(a) + CyclesOf(b)
    decreases |b|
  {
    if b == [] {
      assert a + b == a;
    } else {
      var b' := b[..|b| - 1];
      assert (a + b)[..|a + b| - 1] == a + b';
      assert (a + b)[|a + b| - 1] == b[|b| - 1];
      CyclesOfAppend(a, b');
    }
  }

  /** Running the loop over two stretches of time is running it over their
      concatenation: iterations are never interleaved or pipelined. */
  lemma LoopEventsAppend(a: seq<Provider>, b: seq<Provider>)
    ensures LoopEvents(a + b) == LoopEvents(a) + LoopEvents(b)
  {
    CyclesOfAppend(a, b);
    TicksAppend(CyclesOf(a), CyclesOf(b));
  }

  /** The events of tick `i` stand intact between those of the ticks before
      and after it: a toggle completes before the next interval wait begins. */
  lemma IterationIsContiguous(world: seq<Provider>, i: nat)
    requires i < |world|
    ensures LoopEvents(world) == LoopEvents(world[..i]) + Iteration(world[i]) + LoopEvents(world[i + 1..])
  {
    var upTo := world[..i + 1];
    assert world == upTo + world[i + 1..];
    LoopEventsAppend(upTo, world[i + 1..]);
    assert upTo[..i] == world[..i] && upTo[i] == world[i];
    LoopEventsSnoc(upTo);
  }

  /** The loop begins with the interval wait: no toggle happens at start. */
  lemma {:induction false} LoopStartsWithInterval(world: seq<Provider>)
    requires world != []
    ensures LoopEvents(world)[0] == Wait(TOGGLE_INTERVAL_MS)
    decreases |world|
  {
    LoopEventsSnoc(world);
    if |world| > 1 {
      LoopStartsWithInterval(world[..|world| - 1]);
    } else {
      assert world[..0] == [];
    }
  }

  /** Every iteration starts with exactly one interval wait, and nothing else
      in the loop is an interval wait: as many toggles begin as ticks elapse. */
  lemma {:induction false} LoopCountsTicks(world: seq<Provider>)
    ensures multiset(LoopEvents(world))[Wait(TOGGLE_INTERVAL_MS)] == |world|
    ensures multiset(LoopEvents(world))[Exec(Disable)] <= |world|
    ensures multiset(LoopEvents(world))[Exec(Enable)] <= multiset(LoopEvents(world))[Exec(Disable)]
    decreases |world|
  {
    if world != [] {
      var p := world[|world| - 1];
      LoopEventsSnoc(world);
      LoopCountsTicks(world[..|world| - 1]);
      CommandsAreDisableThenEnable(p);
      WaitSitsBetweenCommands(p);
      assert multiset(CycleEvents(p))[Wait(TOGGLE_INTERVAL_MS)] == 0;
    }
  }

  /** Across the whole loop, every enable command comes right after the
      post-disable wait, which comes right after a disable command. */
  lemma {:induction false} LoopEnableFollowsDisable(world: seq<Provider>, k: nat)
    requires k < |LoopEvents(world)| && LoopEvents(world)[k] == Exec(Enable)
    ensures 2 <= k
    ensures LoopEvents(world)[k - 1] == Wait(WAIT_AFTER_DISABLE_MS)
    ensures LoopEvents(world)[k - 2] == Exec(Disable)
    decreases |world|
  {
    assert world != [];
    var front := world[..|world| - 1];
    var p := world[|world| - 1];
    var t := LoopEvents(front);
    LoopEventsSnoc(world);
    if k < |t| {
      assert t[k] == LoopEvents(world)[k];
      LoopEnableFollowsDisable(front, k);
      assert LoopEvents(world)[k - 1] == t[k - 1];
      assert LoopEvents(world)[k - 2] == t[k - 2];
    } else {
      var j := k - |t|;
      var c := CycleEvents(p);
      assert Iteration(p)[j] == Exec(Enable);
      assert 1 <= j && c[j - 1] == Exec(Enable);
      WaitSitsBetweenCommands(p);
      assert c == [Exec(Disable), Wait(WAIT_AFTER_DISABLE_MS), Exec(Enable)];
      assert j == 3;
      assert LoopEvents(world)[k - 1] == c[1];
      assert LoopEvents(world)[k - 2] == c[0];
    }
  }

  /** State of one coroutine launched in the service's scope. The loop never
      ends by itself, so a job is either running or cancelled. */
  datatype JobState = Running | Cancelled

  /** The service's job bookkeeping is consistent: `togglingJob` refers to a
      launched job, only that job can be running, and once the scope is
      cancelled no job runs. */
  predicate JobsConsistent(jobs: seq<JobState>, togglingJob: Option<nat>, scopeCancelled: bool) {
    (togglingJob.Some? ==> togglingJob.value < |jobs|) &&
    (forall i :: 0 <= i < |jobs| && jobs[i] == Running ==> togglingJob == Some(i)) &&
    (scopeCancelled ==> forall i :: 0 <= i < |jobs| ==> jobs[i] == Cancelled)
  }

  /** Single flight: in a consistent state at most one job is running. */
  lemma AtMostOneRunning(jobs: seq<JobState>, togglingJob: Option<nat>, scopeCancelled: bool, i: nat, j: nat)
    requires JobsConsistent(jobs, togglingJob, scopeCancelled)
    requires i < |jobs| && j < |jobs| && jobs[i] == Running && jobs[j] == Running
    ensures i == j
  {
  }

  /** `togglingJob?.isActive == true`. */
  predicate IsToggling(jobs: seq<JobState>, togglingJob: Option<nat>) {
    togglingJob.Some? && togglingJob.value < |jobs| && jobs[togglingJob.value] == Running
  }

  class BluetoothToggleService {
    /** Every job launched in `serviceScope`, in launch order. */
    var jobs: seq<JobState>
    /** `togglingJob`: the index of the last job `startToggling` launched. */
    var togglingJob: Option<nat>
    /** Whether `serviceJob`, the parent of all launched jobs, is cancelled. */
    var scopeCancelled: bool
    /** Every command issued and every delay taken by the service so far. */
    var effects: seq<Event>

    ghost predicate Valid()
      reads this`jobs, this`togglingJob, this`scopeCancelled
    {
      JobsConsistent(jobs, togglingJob, scopeCancelled)
    }

    predicate Toggling()
      reads this`jobs, this`togglingJob
    {
      IsToggling(jobs, togglingJob)
    }

    /** A new service instance followed by `onCreate`, which starts toggling. */
    constructor ()
      ensures Valid()
      ensures jobs == [Running] && togglingJob == Some(0) && !scopeCancelled && effects == []
      ensures Toggling()
    {
      jobs := [];
      togglingJob := None;
      scopeCancelled := false;
      effects := [];
      new;
      StartToggling();
    }

    /** `startToggling`: nothing changes while the toggling job is active;
        otherwise a fresh job is launched in the scope and becomes the
        toggling job. A job launched into a cancelled scope is cancelled from
        the start. */
    method StartToggling()
      requires Valid()
      modifies this
      ensures Valid()
      ensures old(Toggling()) ==> jobs == old(jobs) && togglingJob == old(togglingJob)
      ensures !old(Toggling()) ==>
        jobs == old(jobs) + [if scopeCancelled then Cancelled else Running] &&
        togglingJob == Some(|old(jobs)|)
      ensures Toggling() <==> !scopeCancelled
      ensures scopeCancelled == old(scopeCancelled) && effects == old(effects)
    {
      if Toggling() {
        return;
      }
      jobs := jobs + [if scopeCancelled then Cancelled else Running];
      togglingJob := Some(|jobs| - 1);
    }

    /** `onDestroy`: cancels the toggling job and the service's whole scope,
        so every launched job is cancelled. */
    method OnDestroy()
      requires Valid()
      modifies this
      ensures Valid()
      ensures scopeCancelled && !Toggling()
      ensures |jobs| == |old(jobs)| && forall i :: 0 <= i < |jobs| ==> jobs[i] == Cancelled
      ensures togglingJob == old(togglingJob) && effects == old(effects)
    {
      jobs := seq(|jobs|, i => Cancelled);
      scopeCancelled := true;
    }

    /** One pass of the loop body: `delay(TOGGLE_INTERVAL_MS)`, then one
        toggle run to completion. */
    method RunIteration(p: Provider) returns (cycle: seq<Event>)
      modifies this`effects
      ensures cycle == CycleEvents(p)
      ensures effects == old(effects) + ([Wait(TOGGLE_INTERVAL_MS)] + cycle)
    {
      effects := effects + [Wait(TOGGLE_INTERVAL_MS)];
      cycle := ToggleBluetooth(p);
      effects := effects + cycle;
    }

    /** The toggling job's body while the timer elapses once per entry of
        `world` (the channel state at that tick): `while (isActive)` checks
        the job at each loop head, then one iteration runs. Nothing inside an
        iteration cancels the job, so an active job runs every tick. */
    method RunTicks(world: seq<Provider>)
      requires Valid()
      modifies this`effects
      ensures Valid()
      ensures old(Toggling()) ==> effects == old(effects) + LoopEvents(world)
      ensures !old(Toggling()) ==> effects == old(effects)
    {
      var i := 0;
      while i < |world| && Toggling()
        invariant 0 <= i <= |world|
        invariant effects == old(effects) + LoopEvents(world[..i])
        invariant !Toggling() ==> i == 0
      {
        var cycle := RunIteration(world[i]);
        LoopEventsStep(old(effects), world, i, cycle);
        i := i + 1;
      }
      assert Toggling() ==> world[..i] == world;
    }
  }

  /** A service that ran for some ticks and was then destroyed adds nothing
      more, however many ticks are then due, and a new instance starts from a
      clean state with a fresh loop. */
  method DestroyStopsTicks(before: seq<Provider>, after: seq<Provider>) returns (stopped: seq<Event>, restarted: seq<Event>)
    ensures stopped == LoopEvents(before)
    ensures restarted == LoopEvents(after)
  {
    var service := new BluetoothToggleService();
    service.RunTicks(before);
    service.OnDestroy();
    service.StartToggling();
    service.RunTicks(after);
    stopped := service.effects;
    var next := new BluetoothToggleService();
    next.RunTicks(after);
    restarted := next.effects;
  }

  /** Calling `startToggling` twice in a row leaves exactly one running job. */
  method StartTwiceRunsOneLoop() returns (running: nat)
    ensures running == 1
  {
    var service := new BluetoothToggleService();
    service.StartToggling();
    service.StartToggling();
    running := multiset(service.jobs)[Running];
  }
}
