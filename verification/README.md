# Verified models of the Bluetooth stack's timers, audio streams and hand-shakes

Dafny models of the stateful core of the Android Bluetooth module, with proofs about every run, every
interleaving or every input. Each module follows one component:

- `PeriodicSchedule`, `RepeatingTimer`: the repeating timer. Its delay arithmetic on 64-bit clocks, and the
  protocol between user threads, message loop threads and posted closures.
- `MessageLoopThread`: start-up and shut-down of a message loop thread by any number of callers.
- `AudioPort`, `HidlPort`: the AIDL and the HIDL device port of the audio HAL, modelled separately, each with its own
  session types and status, and what the stack reports to both on the same occasion.
- `OutputStream`, `HidlStream`, `InputStream`, `StreamTiming`, `AudioParams`: the audio HAL streams on top of a port, their
  latency, positions and pacing, and their parameter strings.
- `StartHandshake`: the LE Audio start request, between host transport, resume callback and responses.
- `AutoOn`: the automatic turn-on feature with its alarm, receiver, stored deadline and setting.
- `UtfValidator`, `PlayerSettings`, `StopWatchRing`: the JNI string validator, the player settings on their way
  from native code to Java, and the stopwatch log ring.
- `MachineInt`, `Options`, `ErrorCodes`: fixed-width integers, missing values and error codes.

Objects whose fields the source updates are classes. A method ensures that the new field values are those of a
specification step, or that they stand for a new value of an abstraction (the schedule of a timer, the phase of a
thread object, the history of a log); the stream object works through its port object. Concurrency is a state
machine whose steps are the source's critical sections and closures. Clocks, lock outcomes, answers of the session
control, callbacks and the steps of other threads are parameters, so the theorems hold for all of them.

## Where the code differs from what is said about it

- `system/common/message_loop_thread.h:66-68` says the thread is running after `StartUp`. That fails for a call
  that finds the thread object already there; `StartUpEarlyReturn` and `StartUpReturnsRunning` give the exact conditions.
- `system/common/repeating_timer.h:54-62` says a schedule first cancels the previous task synchronously and returns
  true if its own task is scheduled. A stale closure of an earlier asynchronous cancel can still undo it
  afterwards; `SurvivesIffNoCancelPending` gives the exact condition.
- `system/common/repeating_timer.h:78-82` says `IsScheduled` answers true when a task is pending. After its thread was
  shut down and started again nothing is pending; `ArmedIsServedIff` gives the exact condition.
- On a reconfiguration of LE Audio the stack reports a success to HIDL ports and a reconfiguration to AIDL ports, which
  makes them part while a start or a suspension is in progress; `PortsAgreeIff`.
- The first delay of a schedule can be negative; `FirstDueInstant` gives the exact condition.
- `system/audio_bluetooth_hw/stream_apis.h:69` says the frames presented are never reset. Closing a stream that is
  not disabled resets them; `PresentedCountsTransfers` says what they count, `ClosingResetsPresented` gives the input.
- The fallback latency can exceed its bound after a change of the sample rate; `LatencyAfterRateChange`.
- A session stop inside a resume that succeeds leaves the host's request pending, unlike the AIDL transport's;
  `HostAgreesWithAidlIff` and `OpenedTwiceIff`, with the inputs `StopInsideResumeDiffers` and `OpenedTwice`.

## Model

| member | source | states |
|---|---|---|
| `PeriodicSchedule.DoubleRemainder` | system/common/repeating_timer.cc:188-192 | the doubly truncated C++ remainder of a negative time left is the Euclidean remainder, so it is never negative |
| `PeriodicSchedule.NextGridPoint` | system/common/repeating_timer.cc:187-192 | the delay leads to the first point of the grid, from the expected time on, that is not over: the least whole number of periods that will do |
| `PeriodicSchedule.BacklogRecurrence` | system/common/repeating_timer.cc:184-199 | one callback moves the expected time on by a period and keeps the next due instant on the grid; the backlog (whole periods between the two) follows a queue recurrence: plus the periods begun since the due instant, minus one, never below zero |
| `PeriodicSchedule.DelayBounded` | system/common/repeating_timer.cc:187-198 | every posted delay lies between zero and a period plus the early slack |
| `PeriodicSchedule.PhaseLock` | system/common/repeating_timer.cc:184-199 | after any n callbacks, however late, the expected time is exactly n periods on, the due instant is n plus backlog periods after the first one, and the last delay is bounded: lateness never accumulates |
| `PeriodicSchedule.PromptBacklog` | system/common/repeating_timer.cc:184-199 | a callback less than a period late leaves the backlog as it is, or works off one period if it is exactly on time |
| `PeriodicSchedule.PromptRunNeverFallsBehind` | system/common/repeating_timer.cc:184-199 | over any run of prompt callbacks the backlog never grows |
| `PeriodicSchedule.PromptRunIsExact` | system/common/repeating_timer.cc:184-199 | a timer that starts on time and is served promptly is due at exactly the successive multiples of its period |
| `PeriodicSchedule.FirstDueInstant` | system/common/repeating_timer.cc:60-79 | the first callback is posted for one period after the call began, and its delay is non-negative if and only if cancelling the previous task took at most a period |
| `PeriodicSchedule.FirstDelayCanBeNegative` | system/common/repeating_timer.cc:77-79 | the concrete counterexample to a non-negative first delay |
| `PeriodicSchedule.HandlerSlack` | system/common/message_loop_thread.cc:124-125 | the cast to milliseconds on the handler path makes a callback at most 999 microseconds early, which is the early slack above |
| `PeriodicSchedule.ToMillisTruncates` | system/common/message_loop_thread.cc:124-125 | the cast truncates toward zero, for delays of either sign |
| `RepeatingTimer.TimerObject.constructor` | system/common/repeating_timer.h:44-47 | a new timer is unscheduled |
| `RepeatingTimer.TimerObject.CancelClosure` | system/common/repeating_timer.cc:137-149 | whatever was scheduled, no schedule is left, and the fields are again those of a timer without one |
| `RepeatingTimer.TimerObject.FinishSchedule` | system/common/repeating_timer.cc:68-88 | the timer stands for exactly the new schedule, or for none if it could not be posted, whatever it stood for before |
| `RepeatingTimer.TimerObject.SchedulePeriodic` | system/common/repeating_timer.cc:53-89 | succeeds exactly for a positive period, a thread and an accepted post, and then replaces the old schedule however its cancellation went; refused arguments leave it alone |
| `RepeatingTimer.TimerObject.RunTask` | system/common/repeating_timer.cc:162-199 | one more callback of the schedule is served, the expected time stays the grid point of the callbacks served modulo 2^64, and the next callback is posted for the first grid point not served and not over |
| `RepeatingTimer.CancelHelperKeeps` | system/common/repeating_timer.cc:106-134 | a cancellation keeps the invariant, and leaves exactly one awaited closure if it has to be waited for |
| `RepeatingTimer.CancelHelperCancels` | system/common/repeating_timer.cc:106-134 | a cancellation that is settled at once leaves no live callback, and any other has posted its closure to the thread of the timer and changed nothing else |
| `RepeatingTimer.DeliverKeeps` | system/common/repeating_timer.cc:162-201 | delivering any closure, live or stale, keeps the invariant |
| `RepeatingTimer.StepKeeps` | system/common/repeating_timer.cc:53-208 | every step of user threads and loop threads keeps the invariant |
| `RepeatingTimer.RunKeeps` | system/common/repeating_timer.cc:53-208 | in every interleaving at most one live callback is posted, it is on the thread the timer points at, the timer is armed exactly while it points at a thread, and a caller waits exactly while its own closure is pending |
| `RepeatingTimer.TaskRunsOnlyWhileScheduled` | system/common/repeating_timer.cc:53-201 | in every interleaving each execution of the user task is preceded by a successful schedule of that task with no cancellation and no other schedule in between |
| `RepeatingTimer.CancelledTaskNeverRuns` | system/common/repeating_timer.cc:92-149 | in every interleaving, once a waiting cancellation has returned or a cancel closure has been executed, no task is executed before the next successful schedule |
| `RepeatingTimer.CancelTakesEffect` | system/common/repeating_timer.cc:92-95 | an asynchronous cancel leaves no live callback at once if called on the thread of the timer or if nothing is scheduled, and otherwise posts a closure that disarms |
| `RepeatingTimer.WaitingCallerCanReturn` | system/common/repeating_timer.cc:98-103 | from every state a waiting caller can be released in at most two steps, which free the mutex |
| `RepeatingTimer.ArmedAsAsked` | system/common/repeating_timer.cc:60-76 | in every interleaving the thread, task and period of an armed timer are those of some schedule call, and its first due instant is the clock of that call plus the period |
| `RepeatingTimer.StepStaysOnGrid` | system/common/repeating_timer.cc:60-199 | every step keeps every live callback on the grid of its schedule |
| `RepeatingTimer.RunStaysOnGrid` | system/common/repeating_timer.cc:60-199 | phase lock through whole runs of the protocol: a live callback is due at its schedule's first due instant plus a whole number of periods, the callbacks run so far and the backlog |
| `RepeatingTimer.ArmedIsServedIff` | system/common/repeating_timer.h:78-82 | in every interleaving an armed timer has exactly one live callback if and only if its thread has not gone down since the schedule it is armed by, and otherwise none |
| `RepeatingTimer.ArmedSince` | system/common/repeating_timer.cc:78-201 | the same from any state of the protocol |
| `RepeatingTimer.PendingIsScheduled` | system/common/repeating_timer.cc:152-159 | a timer with a live callback is scheduled as far as `IsScheduled` can tell |
| `RepeatingTimer.DownIsNotScheduled` | system/common/repeating_timer.cc:152-159 | a thread that goes down takes the callback with it, and its timer is not scheduled any more |
| `RepeatingTimer.DestroyedIsGone` | system/common/repeating_timer.cc:121-125 | in every interleaving after a thread object was destroyed no timer is scheduled on it |
| `RepeatingTimer.RestartLosesCallback` | system/common/repeating_timer.cc:152-159 | whenever a thread goes down and up again, `IsScheduled` still answers true for its timer although no callback is posted |
| `RepeatingTimer.UnservedUntilScheduled` | system/common/repeating_timer.cc:162-201 | a timer without a live callback never executes a task again before the next successful schedule, in any interleaving |
| `RepeatingTimer.RestartReachable` | system/common/repeating_timer.h:78-82 | the concrete interleaving |
| `RepeatingTimer.SurvivesIffNoCancelPending` | system/common/repeating_timer.cc:132-149 | a schedule survives every order of delivery of the pending closures, armed and with exactly one live callback posted, if and only if it has its callback and none of them is a cancel closure |
| `RepeatingTimer.StaleCancelKillsNewSchedule` | system/common/repeating_timer.cc:121-149 | whenever the timer points at no thread and a cancel closure is pending, the next successful schedule is undone by it although nobody cancelled it |
| `RepeatingTimer.StaleCancelReachable` | system/common/repeating_timer.cc:92-149 | two asynchronous cancels before the first one has been served reach such a state |
| `MessageLoopThread.Loop.StartUp` | system/common/message_loop_thread.cc:89-97 | creates a thread exactly if the thread object is off, and otherwise leaves it in its phase |
| `MessageLoopThread.Loop.RunSetup` | system/common/message_loop_thread.cc:308-318 | moves the thread object from starting to running, all loop fields agreeing with the phase |
| `MessageLoopThread.Loop.RunTeardown` | system/common/message_loop_thread.cc:323-336 | moves the thread object from quitting to ended, with the thread pointer still there for the join |
| `MessageLoopThread.Loop.ShutDownClaim` | system/common/message_loop_thread.cc:173-191 | claims the join exactly if the thread object is running, so only one caller ever does, and moves it on to quitting |
| `MessageLoopThread.Loop.ShutDownRelease` | system/common/message_loop_thread.cc:193-198 | moves the thread object from ended back to off |
| `MessageLoopThread.StepKeeps` | system/common/message_loop_thread.cc:87-199 | each critical section, of any caller or worker, keeps the invariant |
| `MessageLoopThread.RunKeeps` | system/common/message_loop_thread.cc:173-198 | in every interleaving the loop fields are set together and belong to the current thread object, at most one worker is alive, at most one caller joins and its thread pointer has not changed, and no thread is claimed for joining twice |
| `MessageLoopThread.SharedIsPhase` | system/common/message_loop_thread.cc:173-198 | of all values of the five fields only those of the five phases of the life cycle ever occur while the mutex is free |
| `MessageLoopThread.StepFollowsLifeCycle` | system/common/message_loop_thread.cc:87-337 | in every interleaving each section finds the thread object in the phase it is meant for, and only that section moves it on |
| `MessageLoopThread.NoDeadlock` | system/common/message_loop_thread.cc:98-192 | a blocked caller always has some step of a worker or a caller that can be taken |
| `MessageLoopThread.InternalStepWorks` | system/common/message_loop_thread.cc:307-337 | every step that is not a new call uses up a bounded amount of work |
| `MessageLoopThread.EveryCallReturns` | system/common/message_loop_thread.cc:141-199 | once no new calls are made every schedule is finite, and where it ends every start-up and shut-down has returned |
| `MessageLoopThread.StartUpReturnsRunning` | system/common/message_loop_thread.h:65-72 | the exact condition for a start-up that created its thread: in every reachable world that looks the same to the callers the thread is running when it returns, if and only if no shut-down has claimed it |
| `MessageLoopThread.StartUpEarlyReturn` | system/common/message_loop_thread.h:65-72 | the exact condition for a start-up that finds a thread object: in every reachable world that looks the same to the callers the thread is running, if and only if the start-up that created it is not waiting any more and no shut-down is in progress |
| `MessageLoopThread.RunsUnlessAwaited` | system/common/message_loop_thread.cc:91-98 | a thread object that nobody waits for, to start or to end, has its loop running |
| `MessageLoopThread.NotSetUpReachable` | system/common/message_loop_thread.cc:307-318 | the set-up of a worker commutes to the end of every run whose last caller has not noticed it, so the same world before the set-up is reachable as well |
| `MessageLoopThread.TornDownAlready` | system/common/message_loop_thread.cc:321-336 | from every reachable world in which a thread is being shut down, steps of the worker alone reach one that looks the same to the callers and in which it is not running |
| `MessageLoopThread.StartUpMayReturnBeforeRunning` | system/common/message_loop_thread.cc:91-95 | the concrete interleaving in which a start-up returns before the thread runs |
| `AudioPort.PortObject.constructor` | system/audio_bluetooth_hw/device_port_proxy.cc:119-123 | a new port is not in use and disabled |
| `AudioPort.PortObject.Await` | system/audio_bluetooth_hw/device_port_proxy.cc:432-459 | a wait hears any sequence of callbacks and returns whether the awaited state was reached, or false after a time-out |
| `AudioPort.StartOutcome` | system/audio_bluetooth_hw/device_port_proxy.cc:461-493 | an accepted start returns true if and only if the first callback with the port's own cookie grants it and no later one before the wake-up ends the stream; the state left behind in every case |
| `AudioPort.SuspendOutcome` | system/audio_bluetooth_hw/device_port_proxy.cc:495-525 | the same for a suspension, whose failure disables the port |
| `AudioPort.IgnoredCallbacks` | system/audio_bluetooth_hw/device_port_proxy.cc:137-194 | callbacks with a foreign cookie change nothing over any sequence |
| `AudioPort.TornDownIsInert` | system/audio_bluetooth_hw/device_port_proxy.cc:243-254 | over every sequence of events after a tear-down the port does not change and no call returns true, until it is set up again |
| `AudioPort.TearDownEndsUse` | system/audio_bluetooth_hw/device_port_proxy.cc:243-254 | the same from any port nobody waits on, beginning with the tear-down itself |
| `AudioPort.SetUpOutcome` | system/audio_bluetooth_hw/device_port_proxy.cc:137-241 | result, session, state and cookie for every device and every answer of the session control: success exactly if known, ready and granted |
| `AudioPort.RefusedRequestBlocks` | system/audio_bluetooth_hw/device_port_proxy.cc:461-525 | a refused start or suspension returns false and leaves the port in between, where any number of further requests returns false until a callback arrives |
| `AudioPort.DisabledStaysDisabled` | system/audio_bluetooth_hw/device_port_proxy.cc:318-331 | after a stop or a change of session the port stays disabled over every sequence of events, and no call returns true, until it is set up again |
| `AudioPort.StartedIsGranted` | system/audio_bluetooth_hw/device_port_proxy.cc:256-316 | in every run a started port has been started all the time since a success that was reported with its own cookie while it was starting |
| `HidlPort.SetUpAlike` | system/audio_bluetooth_hw/device_port_proxy_hidl.cc:133-215 | the two set-ups do the same and return the same for every device if and only if it is not the broadcast device |
| `HidlPort.HandledAlike` | system/audio_bluetooth_hw/device_port_proxy_hidl.cc:230-288 | the two handlers reach the same state on the same occasion reported by the stack, except for exactly the reconfigurations named by `PortsAgreeIff` |
| `HidlPort.PortsAgreeIff` | system/audio_bluetooth_hw/device_port_proxy_hidl.cc:133-434 | bisimulation of two independent models: over every pair of sequences of the same calls and the same occasions reported, the AIDL and HIDL ports keep step in states and results if and only if no broadcast device is set up, no reconfiguration that is a success for HIDL reaches a starting or suspending port, and none that is a failure for HIDL a started one |
| `HidlPort.HidlRunIsAidlRun` | system/audio_bluetooth_hw/device_port_proxy_hidl.cc:133-434 | without the broadcast device every run of the HIDL port is, step by step, a run of the AIDL port |
| `HidlPort.ReconfigurationDuringStartParts` | system/audio_hal_interface/le_audio_software.cc:400-409 | the concrete difference: a reconfiguration during a start leaves the AIDL port in standby and the HIDL port started |
| `HidlPort.ProxyObject.constructor` | system/audio_bluetooth_hw/device_port_proxy_hidl.cc:116-119 | a new HIDL port is in the state of a new AIDL port |
| `HidlPort.ProxyObject.SetUp` | system/audio_bluetooth_hw/device_port_proxy_hidl.cc:133-215 | the HIDL code does what the AIDL port does for every device but broadcast, which it refuses unchanged |
| `HidlPort.ProxyObject.ControlResult` | system/audio_bluetooth_hw/device_port_proxy_hidl.cc:230-288 | for each status the AIDL port could be told on the same occasion, the HIDL code reaches its state if and only if the ports do not part |
| `HidlPort.ProxyObject.Start` | system/audio_bluetooth_hw/device_port_proxy_hidl.cc:357-389 | the HIDL code does what the AIDL port does |
| `HidlPort.ProxyObject.Suspend` | system/audio_bluetooth_hw/device_port_proxy_hidl.cc:391-421 | the HIDL code does what the AIDL port does |
| `HidlPort.ProxyObject.WakeUp` | system/audio_bluetooth_hw/device_port_proxy_hidl.cc:328-355 | the HIDL wait ends as the AIDL one does |
| `HidlStream.RunOverHidl` | system/audio_bluetooth_hw/stream_apis.cc:257-862 | every run of the output stream that hears only what the HIDL interface can deliver is one over a HIDL port: its calls keep step call for call, in state and in result, so the theorems about all runs of streams hold over either port |
| `HidlStream.PortCallOverHidl` | system/audio_bluetooth_hw/stream_apis.cc:257-656 | a start or suspension asked of a HIDL port, with any callbacks during its wait, returns to the stream what an AIDL port would return |
| `AudioParams.ParseAudioParams` | system/audio_bluetooth_hw/utils.cc:33-48 | the parsing loop computes the bindings of the segments, later ones overriding |
| `AudioParams.ParseConcat` | system/audio_bluetooth_hw/utils.cc:33-48 | homomorphism: parsing two strings joined by a semicolon is parsing the first, overridden by the second |
| `AudioParams.ParsedIsClean` | system/audio_bluetooth_hw/utils.cc:33-48 | whatever the input, no parsed key is empty and no key or value contains a delimiter |
| `AudioParams.ParseBareKey` | system/audio_bluetooth_hw/utils.cc:37-45 | a key without a value is bound to the empty string |
| `AudioParams.ParseSecondEquals` | system/audio_bluetooth_hw/utils.cc:40-45 | of a value that contains an equals sign only the part before it is kept |
| `AudioParams.ParseNoKey` | system/audio_bluetooth_hw/utils.cc:37-43 | an empty segment or one without a key is ignored |
| `AudioParams.PrintParams` | system/audio_bluetooth_hw/stream_apis.cc:479-482 | the printing loop of `out_get_parameters` over the map in any iteration order |
| `AudioParams.RoundTripIff` | system/audio_bluetooth_hw/stream_apis.cc:479-482 | parsing what was printed gives the map back if and only if its keys are non-empty and nothing in it contains a delimiter |
| `OutputStream.StreamObject.StartPort` | system/audio_bluetooth_hw/device_port_proxy.cc:461-493 | a start call on the port object, through its wait, is the specified call for all callbacks |
| `OutputStream.StreamObject.SuspendPort` | system/audio_bluetooth_hw/device_port_proxy.cc:495-525 | the same for a suspension |
| `OutputStream.StreamObject.Standby` | system/audio_bluetooth_hw/stream_apis.cc:257-282 | state, counters and error code of `out_standby`, which `out_pause` repeats, for all callbacks heard while waiting |
| `OutputStream.StreamObject.Resume` | system/audio_bluetooth_hw/stream_apis.cc:626-656 | state and error code of `out_resume`, for all callbacks heard while waiting |
| `OutputStream.StreamObject.Close` | system/audio_bluetooth_hw/stream_apis.cc:371-393 | stops and clears both counters exactly if not disabled; the closing and exiting parameters and the first half of closing the stream |
| `OutputStream.StreamObject.SetA2dpSuspended` | system/audio_bluetooth_hw/stream_apis.cc:329-347 | refines the specified step for either value, on any kind of stream, for all callbacks heard while waiting |
| `OutputStream.StreamObject.SetParameters` | system/audio_bluetooth_hw/stream_apis.cc:290-398 | refines parsing the string and applying what it asks for, in the order configuration, suspension, closing, exiting |
| `OutputStream.StreamObject.Account` | system/audio_bluetooth_hw/stream_apis.cc:530-558 | frame counters, last-write time and pacing after the data path was tried |
| `OutputStream.StreamObject.Perform` | system/audio_bluetooth_hw/stream_apis.cc:257-862 | each atomic step, carried out by the methods of the port object, is the step of the run theorems |
| `OutputStream.StreamObject.Write` | system/audio_bluetooth_hw/stream_apis.cc:505-560 | state and bytes reported, with other threads taking any steps wherever the lock is released |
| `OutputStream.LeavesDisabledOnlyBy` | system/audio_bluetooth_hw/stream_apis.cc:340-346 | the only atomic step out of the disabled state is a not-"true" A2dpSuspended on an A2DP stream |
| `OutputStream.DisabledWriteDropsData` | system/audio_bluetooth_hw/stream_apis.cc:510-523 | a write to a disabled stream nobody re-enables reports all bytes consumed and itself changes nothing |
| `OutputStream.WriteOutcome` | system/audio_bluetooth_hw/stream_apis.cc:505-560 | for every interleaving, what a write reports and counts: the bytes transferred and all its whole frames on both counters if it reaches the data path and transfers anything; otherwise everything exactly if disabled by then, or nothing |
| `OutputStream.ResumeSucceedsIff` | system/audio_bluetooth_hw/stream_apis.cc:626-656 | the result code in every state: zero exactly if started already or granted its start, which means started; EIO, EBUSY and EINVAL otherwise; only the port changes, and only from standby |
| `OutputStream.SuspendSucceedsIff` | system/audio_bluetooth_hw/stream_apis.cc:603-624 | the result code in every state: zero exactly if there is nothing to suspend or the suspension is granted, EIO and EBUSY otherwise; only the port and, from started, the rendered frames change |
| `OutputStream.A2dpSuspendedOutcome` | system/audio_bluetooth_hw/stream_apis.cc:329-339 | however the wait goes, the stream ends up disabled with no frames rendered and its presented frames untouched |
| `OutputStream.SetParametersOutcome` | system/audio_bluetooth_hw/stream_apis.cc:290-398 | final state, session and sample rate for every parameter string, in the words of its keys and values: closing=true and exiting=1 win over A2dpSuspended, and only A2DP streams listen to the latter |
| `OutputStream.SetParametersFrames` | system/audio_bluetooth_hw/stream_apis.cc:290-398 | in the words of its keys and values, exactly when a parameter string clears both counters, one of them or none |
| `OutputStream.RunKeeps` | system/audio_bluetooth_hw/stream_apis.cc:257-560 | in every run of atomic steps the state is never UNKNOWN, rendered frames never exceed presented frames, and the session stays |
| `OutputStream.ServedIsRun` | system/audio_bluetooth_hw/stream_apis.cc:257-862 | every call, with all that interleaves with it, refines a run of atomic steps, and only calls that ask for it contain the step that re-enables |
| `OutputStream.EveryRunOfCalls` | system/audio_bluetooth_hw/stream_apis.cc:257-862 | in every sequence of calls and callbacks those invariants hold, a disabled stream that is not A2DP stays disabled for good, and an A2DP stream is re-enabled only if some call asks for it |
| `OutputStream.PositionsOfReachableStream` | system/audio_bluetooth_hw/stream_apis.cc:104-123 | in every reachable state, whatever the stack reports, with the latency in frames pinned by delay times sample rate: the presentation position follows the byte counter exactly within the latency window, is the frames presented less once to twice the latency, and the render position is at most the frames rendered |
| `OutputStream.StalledCallsPace` | system/audio_bluetooth_hw/stream_apis.cc:505-560 | any sequence of writes that transfer nothing, with resumes that fail or succeed and other threads at work, leaves the last-write time of the pacing theorems |
| `OutputStream.StalledStreamIsPaced` | system/audio_bluetooth_hw/stream_apis.cc:505-560 | so by the time its calls return the clock has passed the real duration of all their bytes at their frame sizes and rates, less at most a microsecond each: a stream that cannot transfer its data is paced no faster than real time |
| `OutputStream.PresentedCountsTransfers` | system/audio_bluetooth_hw/stream_apis.h:69-70 | conservation over every run: the frames presented are the frames transferred since a step last closed a stream that was not disabled |
| `OutputStream.RenderedCountsTransfers` | system/audio_bluetooth_hw/stream_apis.h:67-68 | conservation over every run: the frames rendered are the frames transferred since a step last suspended or closed the stream |
| `OutputStream.ClosingResetsPresented` | system/audio_bluetooth_hw/stream_apis.cc:371-379 | the parameter string that resets the frames presented of any started stream |
| `StreamTiming.FrameRoundTrip` | system/audio_bluetooth_hw/utils.cc:58-60 | counting the frames of an interval and timing them again never gains time, and loses at most a millisecond from a kilohertz up |
| `StreamTiming.LatencyBounds` | system/audio_bluetooth_hw/stream_apis.cc:70-89 | the latency is the stack report in whole milliseconds if and only if that is at least 51 and less than 1000 ms, and otherwise a fallback within 199 or 200 ms and the data interval |
| `StreamTiming.FallbackExact` | system/audio_bluetooth_hw/stream_apis.cc:89 | the fallback is 200 ms plus the duration of the frames of a tick, rounded down |
| `StreamTiming.FrameCount` | system/audio_bluetooth_hw/utils.cc:58-60 | the whole frames in an interval, rounded down |
| `StreamTiming.LatencyFrames` | system/audio_bluetooth_hw/stream_apis.cc:105 | the whole frames that play during a delay, rounded down |
| `StreamTiming.PlayTimeExact` | system/audio_bluetooth_hw/stream_apis.cc:543-544 | the play time is the exact duration of the bytes, rounded down to a microsecond |
| `StreamTiming.LatencyAfterRateChange` | system/audio_bluetooth_hw/stream_apis.cc:89 | after a change of the sample rate the fallback keeps its bound if and only if the frames counted at opening fit the interval at the new rate |
| `StreamTiming.LatencyAtHigherRate` | system/audio_bluetooth_hw/stream_apis.cc:89 | the bound holds at every rate not below the one at opening |
| `StreamTiming.LatencyGrowsWhenRateDrops` | system/audio_bluetooth_hw/stream_apis.cc:89 | the concrete rates at which the bound fails |
| `StreamTiming.CalculateFeedingDelay` | system/audio_bluetooth_hw/stream_apis.cc:51-127 | the latency is the specified one, and the position follows the byte counter exactly within the window of delay times sample rate |
| `StreamTiming.PresentationFrames` | system/audio_bluetooth_hw/stream_apis.cc:104-123 | the position lies between the frames presented less twice and less once the latency, for any byte counter |
| `StreamTiming.RenderFrames` | system/audio_bluetooth_hw/stream_apis.cc:562-575 | never more than the frames rendered, and below 2^32 frames exactly the frames rendered less the latency |
| `StreamTiming.StalledWritesArePaced` | system/audio_bluetooth_hw/stream_apis.cc:537-558 | over any run of writes that transfer nothing and whose sleeps fit 32 bits, the clock passes the first last-write time by at least all their play times together, and the last-write time never runs ahead of the clock |
| `StreamTiming.PacedIffSleepsFit` | system/audio_bluetooth_hw/stream_apis.cc:543-557 | over whole runs, whenever the sleep of any write may end the write does not return before the last-write time it leaves, if and only if every sleep along the run fits the 32-bit argument of `usleep` |
| `StreamTiming.VeryLongDataIsNotPaced` | system/audio_bluetooth_hw/stream_apis.cc:543-557 | the concrete write that is not paced |
| `InputStream.StateTransitionTimeout` | system/audio_bluetooth_hw/stream_apis.cc:928-945 | returns true if and only if the port is seen outside the state within the timeout, after the first such look; a zero timeout wraps to 65536 rounds; it always ends |
| `InputStream.ReadPrologue` | system/audio_bluetooth_hw/stream_apis.cc:1064-1106 | for every history of the port: the error code, the bound of twenty sleeps, and that the data path is reached only with a started port |
| `StartHandshake.HostTransport.ConfirmStreamingRequest` | system/audio_hal_interface/le_audio_software_host.cc:243-274 | opens the data path exactly if a request waits for its response, and leaves none waiting |
| `StartHandshake.HostTransport.CancelStreamingRequest` | system/audio_hal_interface/le_audio_software_host.cc:276-305 | never opens the data path, and leaves no request waiting for its response |
| `StartHandshake.HostTransport.StopSession` | system/audio_hal_interface/le_audio_software_host.cc:233-241 | leaves no request waiting and no start reported, with or without an instance, and does not open the data path |
| `StartHandshake.HostTransport.StartRequest` | system/audio_hal_interface/le_audio_software_host_transport.cc:38-61 | state and result for any responses and stops inside the resume callback, and either result of it |
| `StartHandshake.SwitchesRealiseLambdas` | system/audio_hal_interface/le_audio_software.cc:198-268 | the host switches take the transition of the HAL lambdas, report exactly the responses that complete a request, and open the data path on exactly the confirms that answer one |
| `StartHandshake.EndOfNested` | system/audio_hal_interface/aidl/le_audio_software_aidl.cc:269-282 | over any nested responses and stops the first response wins and a stop clears it |
| `StartHandshake.HostAgreesWithAidlIff` | system/audio_hal_interface/aidl/le_audio_software_aidl.cc:83-117 | host and AIDL transport treat a start request alike if and only if none was pending and no stop falls into a successful resume |
| `StartHandshake.AidlRequestOutcome` | system/audio_hal_interface/aidl/le_audio_software_aidl.cc:83-117 | state and acknowledgement of the AIDL transport for any nested responses and stops: success, pending or failure by the first response alone |
| `StartHandshake.LaterResponsesChangeNothing` | system/audio_hal_interface/le_audio_software_host.cc:254-304 | with nothing pending, any number of responses changes nothing |
| `StartHandshake.RequestDecidedByFirstResponse` | system/audio_hal_interface/le_audio_software_host_transport.cc:38-61 | result, report and openings of a request are determined by the first response alone, whether it comes during or after the resume |
| `StartHandshake.StepKeeps` | system/audio_hal_interface/le_audio_software_host.cc:82-91 | every operation keeps the invariant |
| `StartHandshake.RunKeeps` | system/audio_hal_interface/le_audio_software_host.cc:194-305 | in every run a request between calls is idle or pending after its resume, and a start is reported only when no longer pending |
| `StartHandshake.StoppedReportsNothing` | system/audio_hal_interface/le_audio_software_host.cc:233-241 | after a session stop nothing is reported and the data path is not opened in any run without another start |
| `StartHandshake.StartForgets` | system/audio_hal_interface/le_audio_software_host.cc:82-91 | the outcome of a start does not depend on anything reported or counted before |
| `StartHandshake.ReacquiredIsNew` | system/audio_hal_interface/le_audio_software_host.cc:194-201 | an instance acquired after a release is as good as new |
| `StartHandshake.DataPathOpenings` | system/audio_hal_interface/le_audio_software_host.cc:194-305 | over every run of starts, responses, stops, acquisitions and releases the data path is opened exactly as often as the events alone owe it |
| `StartHandshake.OpenedTwiceIff` | system/audio_hal_interface/le_audio_software_host_transport.cc:41-56 | whatever events follow it, one start opens the data path at most twice over and above what later starts open, and twice if and only if it is confirmed, then stopped inside a resume that succeeds, and confirmed again by the next event |
| `StartHandshake.OpenedTwice` | system/audio_hal_interface/le_audio_software_host_transport.cc:41-56 | the concrete run |
| `StartHandshake.StopInsideResumeDiffers` | system/audio_hal_interface/le_audio_software_host_transport.cc:41-56 | the concrete request that is pending for the host and failed for the AIDL transport |
| `AutoOn.NextTimeout` | service/src/AutoOn.kt:261-263 | the deadline is at five o'clock, more than 5 and at most 29 hours away |
| `AutoOn.Feature.ResetAutoOnTimer` | service/src/AutoOn.kt:60-106 | keeps the invariant, leaves a timer if and only if the feature is on, nothing prevents it and the deadline is not over, and tells whether the callback was called |
| `AutoOn.Feature.Cancel` | service/src/AutoOn.kt:212-218 | keeps the invariant and leaves no alarm and no receiver; the stored deadline goes exactly with a timer |
| `AutoOn.Feature.Pause` | service/src/AutoOn.kt:108-111 | alarm and receiver go with the timer, and the stored deadline stays |
| `AutoOn.Feature.OnAlarm` | service/src/AutoOn.kt:195-200 | the alarm that rings is that of the current timer, the callback answers the stored deadline, which had not been answered, and no timer, alarm, receiver or stored deadline is left |
| `AutoOn.Feature.NotifyBluetoothOn` | service/src/AutoOn.kt:113-126 | keeps the invariant and leaves neither timer nor stored deadline, whether or not the feature had been set |
| `AutoOn.Feature.Enable` | service/src/AutoOn.kt:137-148 | an exception exactly if unsupported; otherwise the setting asked for is stored, switching off leaves no timer, alarm, receiver or stored deadline, and switching on leaves a timer exactly if nothing prevents it |
| `AutoOn.Feature.FactoryReset` | service/src/AutoOn.kt:150-154 | the setting is off and no timer, alarm or receiver is left; the deadline of a paused timer stays in storage |
| `AutoOn.Feature.OnReceive` | service/src/AutoOn.kt:87-91 | a change of the clock is a pause followed by a reset |
| `AutoOn.StepKeeps` | service/src/AutoOn.kt:60-218 | every operation, alarm and broadcast keeps the invariant |
| `AutoOn.RunKeeps` | service/src/AutoOn.kt:60-218 | in every run a timer exists exactly with one alarm and one receiver, its own; its deadline is the stored one and the setting is on; no deadline calls back twice |
| `AutoOn.EventsTakeEffect` | service/src/AutoOn.kt:60-218 | wherever in a run it happens, what each event does: the alarm answers the stored deadline, a clock change keeps or answers it, a pause keeps it, turning on forgets it |
| `AutoOn.SetEnabledOutcome` | service/src/AutoOn.kt:137-148 | setting, timer, deadline and registrations after `setEnabled`, for every setting, status and environment |
| `AutoOn.OffStaysSilent` | service/src/AutoOn.kt:60-218 | in every run without switching it on, a feature that is off never calls back and has no timer |
| `AutoOn.DisabledDeadlineNeverFires` | service/src/AutoOn.kt:150-154 | a deadline that is not the stored one of a feature that is on never calls back in any later run, so neither does one that a factory reset of a paused timer leaves in storage |
| `AutoOn.ResetRetiresDeadline` | service/src/AutoOn.kt:60-106 | a reset without a pause replaces the deadline by that of the next morning, or by none if prevented, and the old one never calls back in any later run |
| `AutoOn.BluetoothOnRetiresDeadlines` | service/src/AutoOn.kt:113-126 | once Bluetooth has been turned on, no deadline chosen before calls back in any later run |
| `AutoOn.ClockChangesKeepDeadline` | service/src/AutoOn.kt:87-91 | any number of clock changes leaves the deadline of a timer alone, as long as none moves past it |
| `AutoOn.PauseThenResetKeepsDeadline` | service/src/AutoOn.kt:87-111 | a reset after a pause resumes the same deadline if it is not over |
| `AutoOn.PauseThenLateResetFires` | service/src/AutoOn.kt:94-103 | otherwise it calls back at once, for that deadline, and clears everything |
| `AutoOn.PausedDeadlineSurvivesBlockedResets` | service/src/AutoOn.kt:60-84 | any number of prevented resets leaves a paused deadline alone |
| `UtfValidator.IsValidUtf` | android/app/jni/com_android_bluetooth.h:55-111 | ends, reads no byte after the NUL, and accepts exactly the concatenations of a lead byte and its continuation bytes |
| `UtfValidator.RangesAreBitPatterns` | android/app/jni/com_android_bluetooth.h:58-106 | the byte ranges of the model are the shifts and masks of the source, for every byte |
| `UtfValidator.ConcatAcceptedIff` | android/app/jni/com_android_bluetooth.h:55-111 | if b is accepted, a followed by b is accepted if and only if a is |
| `UtfValidator.EncodedIsAccepted` | android/app/jni/com_android_bluetooth.h:55-111 | every UTF-8 encoding (section 3 of RFC 3629) of scalar values without NUL is accepted |
| `UtfValidator.AcceptsMoreThanUtf8` | android/app/jni/com_android_bluetooth.h:76-107 | the converse fails: an overlong form, a surrogate and a lead byte out of range are accepted and are the encoding of no sequence of scalar values |
| `UtfValidator.AcceptedIsUtf8Iff` | android/app/jni/com_android_bluetooth.h:76-107 | an accepted string is UTF-8 if and only if every unit of it is in the table of section 4 of RFC 3629 |
| `PlayerSettings.ArrayLength` | android/app/jni/com_android_bluetooth_avrcp_controller.cpp:134-138 | the length loop computes the length of the flattened list |
| `PlayerSettings.Flatten` | android/app/jni/com_android_bluetooth_avrcp_controller.cpp:134-156 | the array holds the flattened list, every index is written exactly once and in bounds, and the guard on the cursor never ends the loop early |
| `PlayerSettings.DecodeFlat` | android/app/jni/com_android_bluetooth_avrcp_controller.cpp:131-156 | round trip: a length-directed decoder recovers ids and values |
| `PlayerSettings.FlatInjective` | android/app/jni/com_android_bluetooth_avrcp_controller.cpp:131-156 | two lists flatten to the same bytes if and only if they say the same |
| `PlayerSettings.MakeSupportedSettings` | android/app/src/com/android/bluetooth/avrcpcontroller/PlayerApplicationSettings.java:64-83 | the Java loop, with its signed bytes and its exception past the end, computes the specified table |
| `PlayerSettings.JavaSeesTheSettings` | android/app/src/com/android/bluetooth/avrcpcontroller/PlayerApplicationSettings.java:64-83 | end to end, Java's table is the one the native list stands for, the last values of a repeated id winning |
| `StopWatchRing.Ring.constructor` | system/common/stop_watch_legacy.cc:32-34 | a new ring holds the empty history |
| `StopWatchRing.Ring.RecordLog` | system/common/stop_watch_legacy.cc:37-56 | the history grows by the record, or not at all without the lock |
| `StopWatchRing.Ring.Dump` | system/common/stop_watch_legacy.cc:58-86 | prints exactly the last ten records oldest first without empty ones, looks at every slot once, and leaves the write position and the history |
| `StopWatchRing.RecordedHolds` | system/common/stop_watch_legacy.cc:50-54 | writing to the next slot refines appending to the unbounded history |
| `StopWatchRing.UnrolledIsRecent` | system/common/stop_watch_legacy.cc:62-84 | read from the write position on, the ring shows the recent history in order |

## Left out

- RepeatingTimer.RunKeeps: models the message loop path; the handler path has a raw thread pointer in place of the weak one and the milliseconds of `HandlerSlack`.
- RepeatingTimer.StepKeeps: lets other closures be delivered while a caller waits; a user task that calls into the timer while another thread holds its mutex and waits would block its loop, which the model does not show.
- RepeatingTimer.RunStaysOnGrid: assumes clock readings below 2^63 and callbacks at most a given slack early; the unsigned 64-bit wrap of a clock beyond that is computed but nothing is claimed about it.
- MessageLoopThread.RunKeeps: models the message loop path of start-up and shut-down only, each section under the mutex as one step; the assertion against a shut-down from the worker itself is a condition on the caller.
- MessageLoopThread.EveryCallReturns: takes for granted that a loop asked to quit does go idle.
- HidlPort.PortsAgreeIff: hardware offload session types, which no device selects, are left out of both session types.
- AudioPort.StartOutcome: the state is written and the session control called as one step; a callback between the two is seen as one just after.
- OutputStream.StreamObject.Write: frame counters are unbounded, so their 64-bit wrap is not modelled, nor the 64-bit overflow of the play time of a huge buffer.
- OutputStream.StreamObject.SetParameters: channel mask and format, which nothing else here reads, are left out, and so are the routing and LeAudioSuspended parameters, which only log.
- StreamTiming.CalculateFeedingDelay: the timestamp output is passed through and left out; products are unbounded.
- InputStream.ReadPrologue: stops at the data path; the frame count after it only adds.
- StartHandshake.RunKeeps: each direction alone, where acquisitions and releases that are refused are no events; metadata, suspend and codec configuration are left out.
- AutoOn.RunKeeps: the callback is taken not to call back into the feature, and local date times are numbers, without daylight saving and without their text form in storage.
- PlayerSettings.MakeSupportedSettings: values stay in native form; the table that renames them is left out.
- StopWatchRing.Ring.Dump: the text of a printed record is left out.
- The input stream's standby, its starving delay and the latency modes would repeat the output stream's members.
- Opening streams, format and channel mappings, metadata updates and the HAL dispatch tables have no state to speak of.
- JNI glue, permissions, sockets, the Binder services and the rest of the profiles are not part of this model.
