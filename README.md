# Bluetooth restart service — a Dafny model

The Android app "Bluetooth restart" keeps a foreground service,
`BluetoothToggleService`, running. Every 20 minutes the service restarts the
phone's Bluetooth through the privileged Shizuku channel. It first checks
that Shizuku answers and that permission is granted. It then runs
`svc bluetooth disable`. If that command left nothing on stderr, it waits
5 seconds and runs `svc bluetooth enable`. A command's result is its two
output streams with outer whitespace trimmed. A command that throws gives
an empty stdout and the stderr `Exception: <message>`.

The project models that core in four modules:

- `Text` (`text.dfy`) follows Kotlin's `Char.isWhitespace` (`IsWhitespace`),
  `isBlank` as used at line 73 (`IsBlank`) and `trim` as used at line 103
  (`Trim`).
- `Shizuku` (`shizuku.dfy`) covers the channel as the service sees it. A
  `Provider` holds the ping result, the permission result and the command
  runner, and each of them may throw. The module also holds the
  availability test and the result shaping of `runShellCommandWithShizuku`.
  `MessageText` is the `${exception.message}` template at line 106, which
  prints `null` for a missing message.
- `Toggle` (`toggle.dfy`) holds `toggleBluetoothWithShizuku`. An imperative
  method records the toggle's visible effects as a sequence of events
  (`Exec(Disable)`, `Wait(5000)`, `Exec(Enable)`). It is proved equal to the
  specification function `CycleEvents`, and the properties of one toggle are
  lemmas about that function. `Argv` gives the literal argument vectors of
  lines 70 and 77, and `WAIT_AFTER_DISABLE_MS` is the 5000 ms constant of
  line 30.
- `Service` (`service.dfy`) holds the service class and its job
  bookkeeping:
  - the jobs launched in `serviceScope`, `togglingJob`, and whether
    `serviceJob` is cancelled;
  - `startToggling` and `onDestroy`;
  - the toggling loop, run over a finite sequence of ticks, with
    `TOGGLE_INTERVAL_MS` the 1,200,000 ms constant of line 29.

  The loop's events are proved equal to the specification `LoopEvents`, and
  its properties are lemmas about that function.

Where a behaviour depends on the outside world it becomes a parameter:

- the Shizuku binder and its permission state;
- the command runner's output;
- the channel's state at each tick (`world: seq<Provider>`).

Timing is recorded as `Wait` events. It is never executed.

Three consequences of the code worth stating:

- A channel that throws while running the disable command yields stderr
  `Exception: …`. That stderr is not blank, so the enable step is skipped
  as after any failed disable (`Toggle.ThrowingDisableSkipsEnable`).
- Both streams are trimmed before the blank test. A disable whose raw stderr
  holds only whitespace therefore counts as success, and enable follows
  (`Toggle.RawStderrDecidesEnable`).
- `onDestroy` also cancels `serviceJob`, the `SupervisorJob` behind
  `serviceScope`. A job launched later in the same instance is cancelled
  from the start, so the destroyed instance never toggles again
  (`Service.DestroyStopsTicks`).

## Model

Source paths are relative to the repository root.

| member | source | states |
|---|---|---|
| Text.StartIndex | app/src/main/java/eu/zlidak/bluetoothrestart/BluetoothToggleService.kt:103 | the forward scan of `trim` stops at the first non-whitespace position at or after `i`, or at the end; everything it skipped is whitespace |
| Text.EndIndex | app/src/main/java/eu/zlidak/bluetoothrestart/BluetoothToggleService.kt:103 | the backward scan of `trim` stops just after the last non-whitespace character before `hi`, or at `lo`; everything it skipped is whitespace |
| Text.Trim | app/src/main/java/eu/zlidak/bluetoothrestart/BluetoothToggleService.kt:103 | a trimmed string has no whitespace at either end; it is blank iff it is empty, and it is empty iff the input was blank |
| Text.TrimRemovesExactlyOuterWhitespace | app/src/main/java/eu/zlidak/bluetoothrestart/BluetoothToggleService.kt:103 | blank text on either side of a string with no outer whitespace is removed exactly, giving that string back |
| Text.TrimIdempotent | app/src/main/java/eu/zlidak/bluetoothrestart/BluetoothToggleService.kt:103 | trimming twice is trimming once |
| Shizuku.IsAvailableAndGranted | app/src/main/java/eu/zlidak/bluetoothrestart/BluetoothToggleService.kt:110-116 | the channel is usable iff the ping returns true and the permission check returns PERMISSION_GRANTED; an exception from either probe means not usable |
| Shizuku.RunShellCommand | app/src/main/java/eu/zlidak/bluetoothrestart/BluetoothToggleService.kt:87-108 | the result's stderr is blank iff it is empty. For a completed run, both streams are trimmed and each is empty iff its raw stream was blank. For an exception, stdout is "" and stderr is "Exception: " plus the message ("null" if absent), which is never blank |
| Shizuku.CompletedOutputIsCore | app/src/main/java/eu/zlidak/bluetoothrestart/BluetoothToggleService.kt:103 | the shaped stdout of a completed run is the raw stdout without its outer whitespace |
| Shizuku.CompletedResultIsCore | app/src/main/java/eu/zlidak/bluetoothrestart/BluetoothToggleService.kt:103 | the shaped stderr of a completed run is the raw stderr without its outer whitespace |
| Toggle.ToggleBluetooth | app/src/main/java/eu/zlidak/bluetoothrestart/BluetoothToggleService.kt:62-85 | the toggle's recorded effects are exactly those of the specification `CycleEvents` on the same channel |
| Toggle.UnavailableChannelDoesNothing | app/src/main/java/eu/zlidak/bluetoothrestart/BluetoothToggleService.kt:62-66 | when the ping fails or permission is not granted, no command is issued and no wait is taken |
| Toggle.CommandsAreDisableThenEnable | app/src/main/java/eu/zlidak/bluetoothrestart/BluetoothToggleService.kt:68-81 | at most two commands and three events; disable and enable each occur at most once; disable comes first, and enable, if present, comes last; disable is issued iff the channel is usable |
| Toggle.EnableIffDisableStderrEmpty | app/src/main/java/eu/zlidak/bluetoothrestart/BluetoothToggleService.kt:73-81 | enable is issued iff the channel is usable and the shaped stderr of disable is empty |
| Toggle.WaitSitsBetweenCommands | app/src/main/java/eu/zlidak/bluetoothrestart/BluetoothToggleService.kt:73-81 | on the success path the events are exactly disable, a 5000 ms wait, enable; on every other path there is no wait |
| Toggle.ThrowingDisableSkipsEnable | app/src/main/java/eu/zlidak/bluetoothrestart/BluetoothToggleService.kt:104-107 | when disable throws, enable is never issued, and on a usable channel the only event is the disable |
| Toggle.RawStderrDecidesEnable | app/src/main/java/eu/zlidak/bluetoothrestart/BluetoothToggleService.kt:73 | on a usable channel whose disable completes, enable is issued iff the raw stderr is blank (empty or whitespace only) |
| Service.LoopEventsSnoc | app/src/main/java/eu/zlidak/bluetoothrestart/BluetoothToggleService.kt:54-58 | one more tick appends exactly one iteration (interval wait, then one toggle) to the loop's events |
| Service.LoopEventsStep | app/src/main/java/eu/zlidak/bluetoothrestart/BluetoothToggleService.kt:54-58 | after the events already recorded, appending tick `i`'s iteration gives the events of ticks `0..i` |
| Service.TicksAppend | app/src/main/java/eu/zlidak/bluetoothrestart/BluetoothToggleService.kt:54-58 | the events of two runs of toggles, one after the other, are the events of the first followed by those of the second |
| Service.CyclesOfAppend | app/src/main/java/eu/zlidak/bluetoothrestart/BluetoothToggleService.kt:54-58 | the toggles over two stretches of ticks are the toggles of the first stretch followed by those of the second |
| Service.LoopEventsAppend | app/src/main/java/eu/zlidak/bluetoothrestart/BluetoothToggleService.kt:54-58 | the loop over two consecutive stretches of ticks is the loop over the first followed by the loop over the second: iterations never interleave |
| Service.IterationIsContiguous | app/src/main/java/eu/zlidak/bluetoothrestart/BluetoothToggleService.kt:54-58 | the events of tick `i` stand intact between those of the earlier and the later ticks, so toggles never overlap |
| Service.LoopStartsWithInterval | app/src/main/java/eu/zlidak/bluetoothrestart/BluetoothToggleService.kt:54-55 | the loop starts with a 1,200,000 ms wait; the first toggle never runs at launch |
| Service.LoopCountsTicks | app/src/main/java/eu/zlidak/bluetoothrestart/BluetoothToggleService.kt:54-58 | over n ticks there are exactly n interval waits, at most n disables, and no more enables than disables |
| Service.LoopEnableFollowsDisable | app/src/main/java/eu/zlidak/bluetoothrestart/BluetoothToggleService.kt:73-77 | anywhere in the loop, an enable comes right after the 5000 ms wait, which comes right after a disable |
| Service.AtMostOneRunning | app/src/main/java/eu/zlidak/bluetoothrestart/BluetoothToggleService.kt:49-52 | in consistent job bookkeeping, at most one job is running |
| Service.BluetoothToggleService.constructor | app/src/main/java/eu/zlidak/bluetoothrestart/BluetoothToggleService.kt:33-37 | a new service after `onCreate` has exactly one job, which is running and is the toggling job; nothing has been issued yet |
| Service.BluetoothToggleService.StartToggling | app/src/main/java/eu/zlidak/bluetoothrestart/BluetoothToggleService.kt:49-60 | a call while toggling changes nothing. Otherwise it launches one new job and makes that the toggling job; the job runs iff the scope is not cancelled. Job consistency is preserved |
| Service.BluetoothToggleService.OnDestroy | app/src/main/java/eu/zlidak/bluetoothrestart/BluetoothToggleService.kt:137-142 | every launched job and the scope are cancelled; afterwards the service is not toggling and every job is cancelled |
| Service.BluetoothToggleService.RunIteration | app/src/main/java/eu/zlidak/bluetoothrestart/BluetoothToggleService.kt:54-58 | one loop body appends the interval wait, then exactly one toggle's events |
| Service.BluetoothToggleService.RunTicks | app/src/main/java/eu/zlidak/bluetoothrestart/BluetoothToggleService.kt:52-59 | an active toggling job appends exactly `LoopEvents` of the elapsed ticks; an inactive one appends nothing |
| Service.DestroyStopsTicks | app/src/main/java/eu/zlidak/bluetoothrestart/BluetoothToggleService.kt:137-142 | after `onDestroy`, neither further ticks nor a new `startToggling` add any event; a fresh instance runs a fresh loop |
| Service.StartTwiceRunsOneLoop | app/src/main/java/eu/zlidak/bluetoothrestart/BluetoothToggleService.kt:49-50 | starting an already toggling service again leaves exactly one running job |

## Left out

- The reflective lookup of `Shizuku.newProcess`, reading the two streams concurrently, `waitFor` and `destroy` (lines 89-102) are left out. They are Android and JVM plumbing. Their effect is an oracle `run`, which yields the raw streams or an exception.
- Coroutine dispatching and real time are left out. Delays are recorded as `Wait` events.
- Cancellation is checked only at the head of the loop. A cancellation during a delay or a running command is not modelled.
- Toggle.ToggleBluetooth: the catch at lines 82-84 is not modelled as a separate path. It is reachable: if a stream reader at lines 95-96 fails, the catch at line 104 handles the exception rethrown by `await`. But the failed `async` child has already cancelled the `withContext` scope, so `withContext` rethrows after the block returns, and the exception reaches line 82. In that case the Kotlin function returns no pair at all. `Shizuku.RunShellCommand` still models the failure as `Raised`, which gives the pair `("", "Exception: …")`. The recorded events are the same either way. A failed disable is followed by no wait and no enable, because the outer catch ends the toggle and the `Raised` stderr is not blank. After the enable command nothing follows in either case.
- Errors that are not `Exception`s (JVM `Error`s) are left out. No catch in the source handles them.
- The enable command's result is only logged, so the model does not keep it.
- Logging, notification channel setup, `startForeground` and `onStartCommand` (lines 39-47, 118-135) are left out. They have no effect on the toggling behaviour.
- `onBind`, the activity, the boot receiver and the build files are not part of this model.
- Text.IsWhitespace lists the code points that are whitespace for `Char.isWhitespace` on the JVM. It does not derive them from Unicode data.
- The state of the channel at each tick is an input (`world`). How that state changes over time is not modelled.
