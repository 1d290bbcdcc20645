# Verified model of the Xiaomi raphael device tree

A Dafny model of the four pieces of logic in this device tree that compute or coordinate something, with proofs of
what they promise. `dafny verify dfyconfig.toml` checks the whole project.

**Firmware check (`recovery/recovery_updater.cpp`).** `BoyerMoore.dfy` is the search as written: two shift tables
filled in place, then a scan that jumps by the larger entry, in `int` and `uint32_t` arithmetic and with the cast
`(int)str_len`. `ShiftTables.dfy` says what the tables mean, `SearchExactness.dfy` compares the search with naive
leftmost search, and `TrustZone.dfy` carries the result to the verdict of `verify_trustzone`.

**Pop-up camera service (`PopupCameraService.java`).** `PopupCamera.dfy` is the service as a state machine over a
clock and the pending tasks, and `ServiceEffects.dfy` says what each event does to what one can see.
`ServiceInvariants.dfy` proves what every step keeps; `ServiceGuarantees.dfy`,
`MotorSpacing.dfy` and `MotorSharpness.dfy` (how far apart commands are), `MotorOrder.dfy`, `MotorTurns.dfy` and
`MotorOvertaking.dfy` (in which order requests run), `MotorLiveness.dfy` and `MotorDrain.dfy` (that they run in time)
draw the conclusions for every run.
`PopupCameraService.dfy` is the object itself, with its fields and the platform's single message list
(`MessageQueue.dfy`); its methods refine the state machine, and `ServiceRuns.dfy` joins the two.

**Light HAL (`light/aidl`).** `LedColor.dfy` is the brightness arithmetic in 32-bit unsigned words, `Lights.dfy` the
array of light states and the one LED it drives.

**Hash annotation (`update-sha1sums.py`).** `HashLines.dfy` is the two passes over the list of files, in place.

## Where the code does not do what it says

- The search is introduced as Boyer-Moore (`recovery/recovery_updater.cpp:44`), but line 78 compares the pattern from
  `p` on with its own start, where the algorithm would compare it from `p + 1` on, and then stores `p + 1`. A pattern
  with a border and two different letters can be jumped over: `TrapMissed` gives the text, `ExactIff` the exact
  condition, and `MarkerExact` shows that the one pattern in use meets it.
- `mMotorBusy` reads like a lock, but two requests made while it is clear both run, and the reset of the first may
  clear the flag during the second: `OverlappingRequests`. `RequestSafeIff` gives the exact condition under which a
  caller of `updateMotor` is safe, and `DisciplinedSpaced` what callers that keep to it get.
- Requests need not run in the order in which they are made, so the motor may end up taken back although it was last
  asked to pop up: `Overtaken`. `RequestInOrderIff` gives the exact condition under which a request may be made, and
  `CourteousInOrder` what callers that keep to it get.
- The LED is restored only if the driver stops breathing when brightness is written, or if it breathed to begin with;
  the task that restores it never writes 0 to `breath`: `OneEffect` and `LedRestoredIff`.
- `update` assigns `needSHA1`, so the global of that name is not read: a file that does not start with a comment
  raises an exception at its first non-empty line: `FirstLineFails`, with the exact condition in `UpdatableIff`.

## What callers must provide

- The pattern has at least one byte: for an empty one `pat_len - 1` wraps in the table loops, before the test of
  line 101 is reached. It has at most 2^30 bytes, and the visible text and the pattern together fit an `int`.
- `ExactIff` is about NUL-free patterns, because `strncmp` stops at a NUL; `ExactIffTableSafe` is about all patterns.
- A NUL follows the first marker in the image, if there is one; without it the C code reads past the mapping.
- The light maximum is at most 16843009, where `NoOverflowIff` shows the bound to be exact.

## Model

| member | source | states |
|---|---|---|
| `BoyerMoore.MaxSuffixLen` | recovery/recovery_updater.cpp:47-55 | The returned length is that of a match between the letters ending at `p` and the end of the string, it is at most `p`, and unless it is `p` the next letters differ |
| `BoyerMoore.MakeDelta1` | recovery/recovery_updater.cpp:60-69 | The array filled in place is the whole bad-character table of the pattern |
| `ShiftTables.BadCharacterMeaning` | recovery/recovery_updater.cpp:57-69 | Entry `c` leads from the end of the pattern back to the last `c` before the final letter, or to just before the pattern if there is none |
| `BoyerMoore.PrefixPass` | recovery/recovery_updater.cpp:73-82 | After the first loop the array is the good-suffix table with no recurrence counted yet |
| `BoyerMoore.RecurrencePass` | recovery/recovery_updater.cpp:84-90 | The second loop, in which later writes win, leaves the table in which the least recurrence distance wins |
| `BoyerMoore.SecondLoopStep` | recovery/recovery_updater.cpp:84-90 | Each position of the second loop adds exactly the recurrences at its own distance, in at most one entry |
| `BoyerMoore.MakeDelta2` | recovery/recovery_updater.cpp:72-91 | The array filled in place by both loops is the whole good-suffix table of the pattern |
| `ShiftTables.GoodSuffixMeaning` | recovery/recovery_updater.cpp:71-91 | Entry `j` is the matched length plus the least distance at which the matched letters recur after a different letter; failing that, plus one more than the next position at or after `j` that passes the test of line 78; failing that too, plus the pattern length less one |
| `ShiftTables.GoodSuffixAntitone` | recovery/recovery_updater.cpp:81-90 | The second loop never raises an entry of the first |
| `ShiftTables.GoodSuffixRange` | recovery/recovery_updater.cpp:72-91 | Every entry moves the right end of the window on, by no more than the pattern length |
| `ShiftTables.BorderTestMeaning` | recovery/recovery_updater.cpp:77-80 | On a NUL-free pattern the comparison of line 78 succeeds exactly at the borders |
| `CString.StrncmpMeaning` | recovery/recovery_updater.cpp:78 | `strncmp` finds two buffers equal exactly if their C strings agree once both are cut to `n` bytes |
| `BoyerMoore.MatchBackwards` | recovery/recovery_updater.cpp:107-111 | The inner loop stops after exactly the letters that agree from the right |
| `BoyerMoore.ScanLoop` | recovery/recovery_updater.cpp:105-118 | The outer loop is the scan by these tables over the `(int)str_len` visible bytes; every read is in bounds, `i` stays below the visible length plus the pattern, and the right end strictly grows |
| `BoyerMoore.BmSearch` | recovery/recovery_updater.cpp:93-119 | The C function, tables and scan together, returns the search result as a function of text and pattern |
| `SearchExactness.NaiveIsLeftmost` | recovery/recovery_updater.cpp:93-119 | The reference search returns the leftmost occurrence, and none exactly if there is none |
| `SearchExactness.ScanSound` | recovery/recovery_updater.cpp:105-118 | For any tables that move the window on, a returned position is a real occurrence |
| `SearchExactness.SearchSound` | recovery/recovery_updater.cpp:93-119 | For every pattern, bordered or not, a returned position is a real occurrence |
| `SearchExactness.BadCharacterSafe` | recovery/recovery_updater.cpp:57-69 | For every pattern and mismatch, the bad-character jump alone passes no occurrence |
| `SearchExactness.OverlapRecurs` | recovery/recovery_updater.cpp:84-90 | An occurrence ahead that covers the mismatch is a recurrence of the matched suffix after a different letter |
| `SearchExactness.OverlapIsBorder` | recovery/recovery_updater.cpp:76-82 | An occurrence ahead that covers only matched letters starts at a border |
| `SearchExactness.ExactIffTableSafe` | recovery/recovery_updater.cpp:93-119 | For every non-empty pattern: the search equals naive search on all texts if and only if no table entry jumps past a border the matched letters allow |
| `SearchExactness.TrapMissed` | recovery/recovery_updater.cpp:93-119 | An entry that jumps past a border gives a text in which the pattern occurs and the search returns NULL |
| `SearchExactness.EntryPassesLeastBorder` | recovery/recovery_updater.cpp:76-82 | On a bordered pattern with two different letters and least border `q`, `delta2[1]` ends as `q + pat_len - 1`, one too far |
| `SearchExactness.TableSafeIff` | recovery/recovery_updater.cpp:72-91 | The table is safe exactly for patterns that are unbordered or one repeated letter |
| `SearchExactness.ExactIff` | recovery/recovery_updater.cpp:44-119 | For every non-empty NUL-free pattern: the search equals naive leftmost search on all texts if and only if the pattern is unbordered or one repeated letter |
| `TrustZone.MarkerUnbordered` | recovery/recovery_updater.cpp:40-41 | The marker has no border, because its full stop occurs only at its end |
| `TrustZone.MarkerExact` | recovery/recovery_updater.cpp:148 | So the search for the marker is exact on every image |
| `TrustZone.Snprintf` | recovery/recovery_updater.cpp:150 | The buffer holds the C string from the given offset, cut so that its NUL fits |
| `TrustZone.GetInfo` | recovery/recovery_updater.cpp:121-160 | The errno of a failed open, seek or map; `-ENOENT` if the search finds nothing; else 0 and the bytes after the marker |
| `TrustZone.ComparisonAccepts` | recovery/recovery_updater.cpp:182 | The comparison over `length()` bytes accepts exactly the NUL-free arguments that are prefixes of the version, and those with a NUL whose C string is the version |
| `TrustZone.MatchesAny` | recovery/recovery_updater.cpp:180-186 | The loop sets 1 exactly if some argument is accepted |
| `TrustZone.VerifyTrustZone` | recovery/recovery_updater.cpp:163-189 | End to end: an image that cannot be read, a marker that does not occur and arguments that cannot be evaluated abort, each in its own way; otherwise "1" exactly if some argument is accepted for the bytes after the leftmost occurrence of the marker, cut at the first NUL and at 254 bytes, else "0" |
| `ServiceInvariants.FlagStep` | parts/src/org/lineageos/settings/popupcamera/PopupCameraService.java:257-360 | Every step keeps: requests made are run, queued or waiting to be retried; busy implies a pending reset; the listener, the latches and the LED agree with what happened |
| `ServiceInvariants.DueStep` | parts/src/org/lineageos/settings/popupcamera/PopupCameraService.java:104-122 | Every step keeps each kind of task in order of due time and within its delay of the clock |
| `ServiceInvariants.ArmedStep` | parts/src/org/lineageos/settings/popupcamera/PopupCameraService.java:233-294 | Every step keeps: the pending resets and releases are those of the last motor runnables and calibrations, and all earlier ones have run on time |
| `ServiceInvariants.DebounceStep` | parts/src/org/lineageos/settings/popupcamera/PopupCameraService.java:97-123 | Every step keeps: messages opposite to the last camera event were due by then, and its own message is still last or has been handled |
| `ServiceInvariants.SpacedStep` | parts/src/org/lineageos/settings/popupcamera/PopupCameraService.java:214-235 | Every step keeps calibrations at least 7000 ms apart |
| `ServiceInvariants.ReachableInvariant` | parts/src/org/lineageos/settings/popupcamera/PopupCameraService.java:71-480 | All of these hold after every run from a new service, whatever the motor reports and whichever calls throw |
| `ServiceGuarantees.RequestsConserved` | parts/src/org/lineageos/settings/popupcamera/PopupCameraService.java:257-310 | In every run, calls of `updateMotor` with a motor equal executed runnables plus posted ones plus retries; busy implies a reset due within 1200 ms |
| `ServiceGuarantees.ListenerAgrees` | parts/src/org/lineageos/settings/popupcamera/PopupCameraService.java:128-293 | In every run, with exceptions at any call, the free-fall listener is registered if and only if the last successful command among pop up, take back and take back shortly is pop up |
| `ServiceGuarantees.CalibrationsSpaced` | parts/src/org/lineageos/settings/popupcamera/PopupCameraService.java:214-235 | In every run, calibrations are at least 7000 ms apart and the latch is set exactly while one release is pending |
| `ServiceGuarantees.OneDialog` | parts/src/org/lineageos/settings/popupcamera/PopupCameraService.java:362-422 | In every run, the dialog flag is set exactly while one error or result dialog is posted or showing, and there is never more than one |
| `ServiceGuarantees.LatestEventWins` | parts/src/org/lineageos/settings/popupcamera/PopupCameraService.java:97-123 | In every run, messages opposite to the last camera event are already due, the last due message is of its kind, and once none is left it was the last handled |
| `ServiceGuarantees.RestoreIff` | parts/src/org/lineageos/settings/popupcamera/PopupCameraService.java:318-360 | One effect and its restore bring back what an idle LED showed if and only if writing brightness stops breathing or the LED breathed |
| `ServiceGuarantees.LedRestored` | parts/src/org/lineageos/settings/popupcamera/PopupCameraService.java:318-360 | However effects and restores overlap, a LED not marked busy shows what it did before the first effect, what is saved while it is busy or a restore is pending is that too, and busy implies a pending restore, under that condition |
| `ServiceGuarantees.OneEffect` | parts/src/org/lineageos/settings/popupcamera/PopupCameraService.java:318-360 | Without the condition a run of one pop-up leaves the LED breathing |
| `ServiceGuarantees.LedRestoredIff` | parts/src/org/lineageos/settings/popupcamera/PopupCameraService.java:318-360 | All runs restore the LED if and only if the driver stops breathing on a brightness write or the LED breathed at first |
| `ServiceEffects.RunnableCommands` | parts/src/org/lineageos/settings/popupcamera/PopupCameraService.java:261-293 | The motor is commanded exactly when it is to be raised and reads 13 or 17, or is to be taken back and reads 11; the move and the listener change exactly if the command returns |
| `ServiceEffects.RunnableBusy` | parts/src/org/lineageos/settings/popupcamera/PopupCameraService.java:261-295 | It is busy, with a reset due in 1200 ms, exactly when it is commanded or its status cannot be read |
| `ServiceEffects.RunnableError` | parts/src/org/lineageos/settings/popupcamera/PopupCameraService.java:281-290 | An error dialog is posted exactly for status 12, 14, 18 or 19 found without a move, unless a dialog is posted or showing |
| `ServiceEffects.RunnableEffect` | parts/src/org/lineageos/settings/popupcamera/PopupCameraService.java:318-338 | The LED effect is shown, for 1400 ms, exactly when the motor is commanded and the user allows it; what the LED showed is saved unless an effect was on |
| `ServiceEffects.RequestEffect` | parts/src/org/lineageos/settings/popupcamera/PopupCameraService.java:257-310 | A request is posted for now, or for a try in 100 ms while busy, and is none without a motor |
| `ServiceEffects.RetryEffect` | parts/src/org/lineageos/settings/popupcamera/PopupCameraService.java:298-307 | A retry posts the same request, now or in 100 ms, and does not count as another |
| `ServiceEffects.MessageEffect` | parts/src/org/lineageos/settings/popupcamera/PopupCameraService.java:447-479 | The message of an opened camera asks to pop up exactly if the screen is on and no dialog is wanted; that of a closed one asks to close |
| `ServiceEffects.RaiseEffect` | parts/src/org/lineageos/settings/popupcamera/PopupCameraService.java:464-467 | The button of the dialog asks to pop up |
| `ServiceEffects.OpenedEffect` | parts/src/org/lineageos/settings/popupcamera/PopupCameraService.java:112-124 | Only camera "1" matters: an open message due in 100 ms, and close messages withdrawn if the last close event is less than 100 ms old |
| `ServiceEffects.ClosedEffect` | parts/src/org/lineageos/settings/popupcamera/PopupCameraService.java:97-110 | Only camera "1" matters: a close message due in 100 ms, and open messages withdrawn if the last open event is less than 100 ms old |
| `ServiceEffects.NotifyEffect` | parts/src/org/lineageos/settings/popupcamera/PopupCameraService.java:194-211 | Statuses 12, 14, 17 and 18 show a dialog unless one is posted or showing, 15 asks to close, and others do nothing |
| `ServiceEffects.FreeFallEffect` | parts/src/org/lineageos/settings/popupcamera/PopupCameraService.java:128-144 | A free fall takes the motor back shortly and ends listening exactly if the call returns |
| `ServiceEffects.CalibrateEffect` | parts/src/org/lineageos/settings/popupcamera/PopupCameraService.java:214-235 | A click calibrates exactly if the latch is open and there is or turns up a motor, and latches for 7000 ms |
| `ServiceEffects.EndingEffects` | parts/src/org/lineageos/settings/popupcamera/PopupCameraService.java:233-294 | A reset frees the motor, a release opens the latch and a posted dialog comes on screen |
| `ServiceEffects.RestoreEffect` | parts/src/org/lineageos/settings/popupcamera/PopupCameraService.java:340-357 | The LED breathes again if it did when saved; otherwise it gets its brightness back, which shows if breathing stops |
| `ServiceEffects.DismissEffect` | parts/src/org/lineageos/settings/popupcamera/PopupCameraService.java:384-420 | Dismissing a dialog clears the flag |
| `ServiceEffects.ScreenFollows` | parts/src/org/lineageos/settings/popupcamera/PopupCameraService.java:82-93 | In every run the screen is held to be as the last screen event said |
| `MotorSteps.MotorKept` | parts/src/org/lineageos/settings/popupcamera/PopupCameraService.java:257-310 | No step but a motor task, a request or the clock touches the requests, the busy flag, its reset or the commands |
| `MotorSteps.MotorAsked` | parts/src/org/lineageos/settings/popupcamera/PopupCameraService.java:257-310 | A step that makes a request posts its runnable, or its retry while busy, and does nothing else to the motor |
| `MotorSpacing.OrderlyStep` | parts/src/org/lineageos/settings/popupcamera/PopupCameraService.java:257-310 | A step whose request, if any, is made while `Free` holds keeps: one runnable and one retry at most, which run in turn, one reset exactly while busy, and no two busy windows that overlap |
| `MotorSpacing.DisciplinedSpaced` | parts/src/org/lineageos/settings/popupcamera/PopupCameraService.java:257-310 | In every run whose requests are made only while `Free` holds (no runnable posted, and no retry but one that is not due yet while the motor is free), motor commands are at least 1200 ms apart, and so are the runnables that fail to read the status |
| `MotorSpacing.OneAtATimeSpaced` | parts/src/org/lineageos/settings/popupcamera/PopupCameraService.java:257-310 | In particular if each request is made only after the previous one has run |
| `MotorSharpness.OverlappingRequests` | parts/src/org/lineageos/settings/popupcamera/PopupCameraService.java:257-310 | Busy is not a mutex: two requests made while it is clear command the motor twice at the same moment |
| `MotorSharpness.TwoRuns` | parts/src/org/lineageos/settings/popupcamera/PopupCameraService.java:261-310 | Two posted runnables command the motor at the same moment, even with a retry due between them |
| `MotorSharpness.OverdueRetry` | parts/src/org/lineageos/settings/popupcamera/PopupCameraService.java:297-310 | An overdue retry taken before a new runnable posts its own, and both command the motor at the same moment |
| `MotorSharpness.LateResetBreaks` | parts/src/org/lineageos/settings/popupcamera/PopupCameraService.java:294-310 | One late reset frees two retries, whose runnables command the motor at the same moment |
| `MotorSharpness.RequestSafeIff` | parts/src/org/lineageos/settings/popupcamera/PopupCameraService.java:257-310 | The exact condition on a caller: after any run that kept the discipline, with no camera message waiting, one more request can bring two commands within 1200 ms without a further request if and only if it is made while `Free` does not hold |
| `MotorOrder.Overtaken` | parts/src/org/lineageos/settings/popupcamera/PopupCameraService.java:257-310 | A later request to pop up can run before an earlier request to close, which then takes the motor back |
| `MotorOrder.RunsInOrder` | parts/src/org/lineageos/settings/popupcamera/PopupCameraService.java:257-310 | If no request is made while another waits to be retried, requests run in the order in which they were made, and once none is outstanding the last to run is the last made |
| `MotorTurns.TurnsStep` | parts/src/org/lineageos/settings/popupcamera/PopupCameraService.java:257-310 | A step whose request, if any, is made with one retry at most waiting and while `MayAsk` holds keeps requests in order: in line with the first retry to find the motor free, or taking turns that fall in pairs until a reset |
| `MotorTurns.CourteousInOrder` | parts/src/org/lineageos/settings/popupcamera/PopupCameraService.java:257-310 | In every run whose requests are made only so, requests run in the order in which they were made, even past one that waits to be retried |
| `MotorOvertaking.FreeMisorders` | parts/src/org/lineageos/settings/popupcamera/PopupCameraService.java:297-310 | A request made past one that waits for a free motor is posted ahead of it and runs first |
| `MotorOvertaking.SwappedMisorders` | parts/src/org/lineageos/settings/popupcamera/PopupCameraService.java:297-310 | A retry that finds the motor busy changes places with the later one, and the turns can be led on until a reset falls due with the later one ahead |
| `MotorOvertaking.RequestInOrderIff` | parts/src/org/lineageos/settings/popupcamera/PopupCameraService.java:257-310 | The exact condition on a caller: after any run that kept to it, with no camera message and one retry at most waiting, a request for something else than what waits can come to run out of order without a further request if and only if it is made while `MayAsk` does not hold |
| `MotorLiveness.DeadlineStep` | parts/src/org/lineageos/settings/popupcamera/PopupCameraService.java:257-310 | With prompt delivery, every step that makes no request, whether a task, a tick, a callback or a user action, runs a request by the deadline or keeps all requests and the deadline |
| `MotorLiveness.RequestsRunInTime` | parts/src/org/lineageos/settings/popupcamera/PopupCameraService.java:257-310 | In every run with prompt delivery and no new request, whatever else happens, whatever the motor reports and whichever calls throw: for every `k` up to the number outstanding, the clock passes `1300 * k` ms only once `k` requests have run |
| `MotorDrain.PromptIsRun` | parts/src/org/lineageos/settings/popupcamera/PopupCameraService.java:297-310 | Taking the next waiting task promptly is a prompt clock tick and a dispatch of the service |
| `MotorDrain.TimelyStep` | parts/src/org/lineageos/settings/popupcamera/PopupCameraService.java:257-310 | Taking the next waiting task promptly, a camera message included, keeps a deadline for every request made and for all that the messages may still make |
| `MotorDrain.DrainsInBoundedSteps` | parts/src/org/lineageos/settings/popupcamera/PopupCameraService.java:297-310 | From every reachable state, when only waiting tasks run, promptly, their number is bounded from the start |
| `MotorDrain.DrainsInBoundedTime` | parts/src/org/lineageos/settings/popupcamera/PopupCameraService.java:233-310 | and the clock stays within 1300 ms for each request outstanding and each camera message waiting, plus 7000 ms |
| `MotorDrain.DrainsCompletely` | parts/src/org/lineageos/settings/popupcamera/PopupCameraService.java:257-310 | While any task waits the run can go on; when none does, every request has run, those made by camera messages included, the motor is free and the last message handled was of the last camera event; with the screen on and no dialog wanted each message has made a request, the last for the last camera event |
| `MessageQueue.AllMatchInsert` | parts/src/org/lineageos/settings/popupcamera/PopupCameraService.java:294-309 | A message put into the platform queue after everything due no later comes last among its kind, and no other kind changes |
| `MessageQueue.HeadIsFirst` | parts/src/org/lineageos/settings/popupcamera/PopupCameraService.java:447-479 | The head of the platform queue is a task that no other kind is due before |
| `MessageQueue.AllMatchWithout` | parts/src/org/lineageos/settings/popupcamera/PopupCameraService.java:105-118 | Removing the messages of one camera event empties that kind and changes no other |
| `PopupCameraServiceClass.PopupCameraService.constructor` | parts/src/org/lineageos/settings/popupcamera/PopupCameraService.java:147-188 | A new service is an initial state of the state machine; a motor found up or jammed is taken back, which is on record, and waited for 1200 ms, unless the call throws |
| `PopupCameraServiceClass.PopupCameraService.Post` | parts/src/org/lineageos/settings/popupcamera/PopupCameraService.java:294-309 | `post` and `postDelayed` put the task at the end of its kind, due after its delay |
| `PopupCameraServiceClass.PopupCameraService.UpdateMotor` | parts/src/org/lineageos/settings/popupcamera/PopupCameraService.java:257-310 | The new state is that of the state machine: posted if free, to be retried if busy, nothing without a motor |
| `PopupCameraServiceClass.PopupCameraService.RunMotor` | parts/src/org/lineageos/settings/popupcamera/PopupCameraService.java:261-295 | The motor runnable, in all its branches and with exceptions, is the step of the state machine, and a failure status puts the error dialog in the queue |
| `PopupCameraServiceClass.PopupCameraService.PostRequest` | parts/src/org/lineageos/settings/popupcamera/PopupCameraService.java:297-310 | Posted at once, or 100 ms later for another try while the motor is busy |
| `PopupCameraServiceClass.PopupCameraService.LightUp` | parts/src/org/lineageos/settings/popupcamera/PopupCameraService.java:318-338 | What the left LED shows is saved unless the service itself lit it; then the effect is on and its restore is due in 1400 ms |
| `PopupCameraServiceClass.PopupCameraService.RestoreLeds` | parts/src/org/lineageos/settings/popupcamera/PopupCameraService.java:340-357 | The restoring task is the step of the state machine |
| `PopupCameraServiceClass.PopupCameraService.HandleMessage` | parts/src/org/lineageos/settings/popupcamera/PopupCameraService.java:447-479 | A close message asks to take the motor back; an open message asks to pop up, unless a dialog asks the user first |
| `PopupCameraServiceClass.PopupCameraService.Dispatch` | parts/src/org/lineageos/settings/popupcamera/PopupCameraService.java:447-479 | Taking the head of the queue and running it is an enabled step of the state machine |
| `PopupCameraServiceClass.PopupCameraService.OnCameraClosed` | parts/src/org/lineageos/settings/popupcamera/PopupCameraService.java:97-110 | A close event withdraws open messages if the last open event is less than 100 ms old, and posts its own |
| `PopupCameraServiceClass.PopupCameraService.OnCameraOpened` | parts/src/org/lineageos/settings/popupcamera/PopupCameraService.java:112-124 | An open event withdraws close messages if the last close event is less than 100 ms old, and posts its own |
| `PopupCameraServiceClass.PopupCameraService.OnNotify` | parts/src/org/lineageos/settings/popupcamera/PopupCameraService.java:194-211 | Motor events are the step of the state machine; the end of a calibration puts the result dialog with its status in the queue, a jam the error dialog |
| `PopupCameraServiceClass.PopupCameraService.OnFreeFall` | parts/src/org/lineageos/settings/popupcamera/PopupCameraService.java:128-144 | A free fall takes the motor back shortly and removes the listener unless the call throws |
| `PopupCameraServiceClass.PopupCameraService.CalibrateMotor` | parts/src/org/lineageos/settings/popupcamera/PopupCameraService.java:214-235 | Calibration is ignored while latched or without a motor; otherwise it latches for 7000 ms, thrown or not |
| `PopupCameraServiceClass.PopupCameraService.PostDialog` | parts/src/org/lineageos/settings/popupcamera/PopupCameraService.java:362-422 | The given dialog is put in the queue and the flag set, unless the flag is set already, when nothing changes |
| `ServiceRuns.Create` | parts/src/org/lineageos/settings/popupcamera/PopupCameraService.java:147-188 | A new object is in a reachable state |
| `ServiceRuns.Handle` | parts/src/org/lineageos/settings/popupcamera/PopupCameraService.java:71-480 | Every event handled by the object is exactly one step of the state machine, so the object stays in reachable states and all guarantees hold of it |
| `LedColor.ChannelExact` | light/aidl/Lights.cpp:59-64 | The 0xFF shortcut equals the general formula, nothing wraps, and no channel grows |
| `LedColor.NoOverflowIff` | light/aidl/Lights.cpp:69-71 | The product fits 32 bits for every colour if and only if the maximum is at most 16843009 |
| `LedColor.ScaledRange` | light/aidl/Lights.cpp:50-71 | Then the brightness lies in 0 to the maximum, and opaque white gives the maximum |
| `LedColor.BrightnessMonotone` | light/aidl/Lights.cpp:50-71 | Raising alpha or any channel never lowers the brightness |
| `LedColor.BrightnessError` | light/aidl/Lights.cpp:50-67 | Rounding keeps the brightness at most the exact value and less than 2 below it |
| `LedColor.BrightnessAccurate` | light/aidl/Lights.cpp:50-71 | The scaled result is at most the exact real value and less than `2 * max / 255 + 1` below it |
| `LedColor.LitIff` | light/aidl/Lights.cpp:73-75 | A colour is lit exactly if its red, green or blue is not 0, whatever its alpha |
| `LedColor.DarkIsZero` | light/aidl/Lights.cpp:50-75 | A colour that is not lit gives brightness 0 |
| `LedColor.ColorAccurate` | light/aidl/Lights.cpp:50-71 | The error bound for the colour with given channels, so with each channel read from its own byte |
| `LightsHal.Lights.constructor` | light/aidl/Lights.h:46-50 | Both lights start off, the notification before the battery |
| `LightsHal.ApplyMeaning` | light/aidl/Lights.cpp:147-170 | Applying a state blinks, on time first, exactly if it is timed with both times positive; a LED told to hold gets 0 for a colour that is not lit and the maximum for opaque white |
| `LightsHal.HeldAccurate` | light/aidl/Lights.cpp:147-170 | A LED told to hold gets the exact brightness of the colour, less than `2 * max / 255 + 1` short |
| `LightsHal.Lights.SetLightNotification` | light/aidl/Lights.cpp:131-145 | One pass replaces the entries of the light, and applies once the first entry that is lit or the battery |
| `LightsHal.Lights.SetLightState` | light/aidl/Lights.cpp:111-122 | The lights 3 and 4 update as above; backlight 0 and unknown ids change nothing, and only unknown ids are refused |
| `LightsHal.EntriesAreLatest` | light/aidl/Lights.cpp:131-137 | After any calls each entry holds the latest state given to its light |
| `LightsHal.LastApplied` | light/aidl/Lights.cpp:131-145 | Each notification or battery call applies one state, the last being what the entries then call for |
| `LightsHal.MostImportantShown` | light/aidl/Lights.cpp:131-145 | For an array of any length ending in the battery, what was applied last is the latest state of the most important lit light, or of the battery |
| `LightsHal.NotificationElseBattery` | light/aidl/Lights.h:46-50 | For the two lights of the HAL: after any calls the LED was last told the latest notification state if lit, otherwise the latest battery state |
| `LightsHal.BothOffIsDark` | light/aidl/Lights.cpp:131-170 | With both lights off the LED was last told to hold 0 |
| `HashLines.FileList.CleanupLines` | update-sha1sums.py:32-39 | The list changed in place is the cleaned list |
| `HashLines.FileList.UpdateLines` | update-sha1sums.py:42-64 | The list changed in place is the annotated list if no line raises an exception; otherwise the first faulty line and its exception are known and only lines before it have changed |
| `HashLines.UpdatableIff` | update-sha1sums.py:42-64 | No exception if and only if every non-empty line is or follows a comment and every hashed line names a readable file |
| `HashLines.FirstLineFails` | update-sha1sums.py:42-53 | A file whose first non-empty line is no comment raises an exception at that line, and none before it |
| `HashLines.CleanupUndoesUpdate` | update-sha1sums.py:32-64 | Cleanup after update equals cleanup |
| `HashLines.CleanupIdempotent` | update-sha1sums.py:32-39 | Cleaning up twice is cleaning up once |
| `HashLines.UpdateIdempotent` | update-sha1sums.py:42-64 | Updating twice with the same files succeeds and is updating once |
| `HashLines.CleanedUpdatable` | update-sha1sums.py:32-64 | After a cleanup an update still succeeds, and gives the hashed lines the same annotation |
| `HashLines.CleanupBeforeUpdateIff` | update-sha1sums.py:32-64 | Cleaning up before an update makes no difference if and only if no line outside the hashed sections carries a hash |
| `HashLines.UpdateKeeps` | update-sha1sums.py:42-64 | Comments, empty lines and lines outside hashed sections survive an update; hashed lines keep their bare text and end in the hash of the file they name |
| `HashLines.MentionsMeaning` | update-sha1sums.py:50 | A comment mentions a phrase exactly if the phrase occurs somewhere in it |
| `HashLines.BeforeMeaning` | update-sha1sums.py:55 | The first field is what comes before the first separator, or the whole |
| `HashLines.AfterLastMeaning` | update-sha1sums.py:57 | The last field is what comes after the last separator, or the whole |
| `HashLines.NeedOfHead` | update-sha1sums.py:48-51 | The section of a line is hashed exactly if " - from" occurs in the last comment before it |
| `HashLines.UpdateMeaning` | update-sha1sums.py:42-64 | In a hashed section a non-empty line keeps what comes before its first bar and gets the hash of the file named by the last part after a colon of what comes before the first semicolon, less one leading dash; other lines do not change |
| `HashLines.HashedLineFails` | update-sha1sums.py:57-62 | In a hashed section a line without a path and a line whose file cannot be read each raise their own exception |
| `HashLines.CleanupMeaning` | update-sha1sums.py:32-39 | Empty lines and comments stay, and any other line keeps exactly what comes before its first bar |

The state machine's steps (`PopupCamera.Next`), the reference search (`SearchExactness.Naive`) and the other
specification functions have no row of their own: the rows above say what is proved about them.

## Left out

- BmSearch: the two table loops and the two scan loops are methods of their own, called in the order of the source; the zero-length test of line 101 is left out because it cannot be reached.
- PopupCameraService.constructor: an interrupted wait at the start, and the callback that is then not registered, are left out.
- GetInfo: `open`, `lseek64`, `mmap` and `munmap` are a parameter, the mapped bytes or an `errno`; file descriptors are not modelled.
- VerifyTrustZone: evaluating the script's arguments is a parameter, and the text of the error messages is not modelled.
- ServiceRuns.Handle: callbacks, user actions and tasks are atomic steps on one clock. `showErrorDialog` is also called outside `mLock`, and the races this allows are not modelled.
- RunMotor: the object lights the LED before it sets the busy flag; no other step can see the difference. Sounds and `goBackHome` are left out.
- LedRestoredIff: only the left LED, and of its files `breath` and `brightness`; the right LED and `lut_pattern` are never restored by the code. Reads succeed and nothing else writes the files.
- RequestSafeIff: about states with no camera message waiting, since such a message makes a request of its own.
- RequestInOrderIff: about states with no camera message and one retry at most waiting; requests are told apart by what they ask for, so two for the same cannot be seen to change places.
- The order of tasks of different kinds due at the same time is open in the state machine; the object takes them in the order of posting.
- OnNotify: which dialog is queued and with which status, but not its texts, which also depend on the calibrating flag.
- Motor status is whatever each call reports, so nothing is claimed about how it evolves.
- The question of the always-on dialog: "raise" may be chosen at any time, and the dialog itself, its theme and its dismissal are left out.
- The LED files other than the brightness number and the blink times, `getLights` and reading `max_brightness` are left out of the light HAL.
- SHA-1 and file access are one function from path to hash; reading, splitting, joining and writing the list of files are left out.
- Fingerprint, livedisplay, power, init, release tools, shell scripts and configuration: forwarding, constant switches or data.
