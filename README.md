# microtemp in Dafny

This project models the core of microtemp. microtemp is a small Go poller that wakes battery-powered
temperature boards, reads a batch of analog samples, filters them, uploads the result and sends the
board back into deep sleep. The repository also holds an HVAC zone controller that turns air
conditioners on or off from the average temperature the cloud has recorded for a zone.

The poller exists in three copies: `microtemp.go` (the library), `main.go` (the stand-alone
program) and `microtemp/microtemp.go`. Their poll cycles (`DoOne`, and `DoAll` in `main.go`) run the
same steps and differ in constants: the connect backoff, the connect deadline, the deadline on the
sleep request, and whether the batch size and the sleep time come from the configuration. The model
writes the cycle once and gathers those constants in `PollCycle.Variant`, with one value per copy
(`RootPackage`, `MainProgram`, `SubPackage`). The copies also differ in structure:
- `main.go` repeats the cycle of each machine `ITERATIONS` times in `main()`
  (`PollCycle.MachineLoop`, `PollCycle.MainLoop`), while the two packages run it once per machine
  in their `DoAll` fan-out (`PollCycle.DoAll`);
- only `microtemp.go` closes the board handles in `ReadTemp` and `GoToSleep`, and only it copies the
  loop variables before starting each goroutine. Both are listed under "## Left out".

Everything the outside world answers is an oracle, passed as a parameter:
- the connector: one `Status` per dial attempt;
- the board: a `Status` per call, and one `Option<int>` per analog read;
- the cloud upload and the sleep request;
- the data service's rows for a zone;
- each HVAC machine's answers.

A Go `error` is `Base.Status`, and a `(T, error)` pair is `Base.Result<T>`. `errors.Is` is
`Base.Is` over wrapped errors. A Go panic and `logger.Fatal` stop the process; the model records
such a stop as `aborted`.

The modules are:
- `Base` (`base.dfy`): errors and result types.
- `SampleFilter` (`sample_filter.dfy`): the noise filter of ReadTemp. It sorts, drops the lowest
  and highest thirds of a batch of more than five values, and averages the rest. The in-place sort
  of the Go slice is an insertion sort on an array prefix, proved equal to a functional sorted copy.
- `Sensor` (`sensor.dfy`): ReadTemp. It powers GPIO pin 12, waits for the voltage to settle, takes
  the readings (skipping failed ones) and filters them. It always drives the pin low again once it
  was raised.
- `DeviceSession` (`session.dfy`): RobotClient's bounded retry loop with its backoff, and GoToSleep,
  which counts a cancelled or timed-out power-mode call as the board going to sleep.
- `PollCycle` (`poll_cycle.dfy`): one poll cycle (connect, read, upload, sleep, close), the
  100000-iteration loop of `main.go`, and the fan-out over all machines.
- `HvacControl` (`hvac_control.dfy`): the heat/cool threshold law, the validation of the data
  service's answer, the switch command, and the zone-by-zone, unit-by-unit control pass.

Where the code behaves differently from what a reader of its comments and names might expect, the
model follows the code:
- An HVAC mode other than "heat" or "cool" leaves the unit on.
- RobotClient sleeps the backoff after every failed attempt, the last one included.
- A failed upload ends the cycle before the sleep request is made.
- Pin 12 is driven low only if raising it succeeded.
- A batch of at most five readings is averaged untrimmed.

## Model

| member | source | states |
|---|---|---|
| `Base.Is` | microtemp.go:129 | an error matches a target when it is the target or wraps an error that matches it; an unwrapped error matches only itself |
| `Base.IsMatchesSomeLayer` | microtemp.go:129 | an error matches a target exactly when removing some number of wrapping layers leaves the target |
| `SampleFilter.ToCelsius` | microtemp.go:176 | the conversion of a raw analog value to degrees is inverted by `10 * t + 500` |
| `SampleFilter.InsertKeepsSorted` | microtemp.go:190 | inserting a value into an ascending sequence keeps it ascending |
| `SampleFilter.InsertAddsValue` | microtemp.go:190 | insertion adds exactly the one value to the multiset of elements |
| `SampleFilter.SortedCopyIsSortedPermutation` | microtemp.go:190 | the sorted copy of a batch is ascending and a permutation of it |
| `SampleFilter.SortedPermutationUnique` | microtemp.go:190 | two ascending sequences with the same elements are equal, so any correct sort gives the same slice |
| `SampleFilter.SortPrefix` | microtemp.go:190 | sorting the first `n` cells in place leaves exactly the sorted copy of their old contents, and the cells beyond the slice unchanged |
| `SampleFilter.SiftLeft` | microtemp.go:190 | one insertion step extends the ascending prefix by one cell, permutes the cells of the slice and leaves the cells beyond it unchanged |
| `SampleFilter.Swap` | microtemp.go:190 | exchanging two cells changes only those two and keeps the prefix's multiset |
| `SampleFilter.Mean` | microtemp.go:195 | the mean times the number of values is their sum |
| `SampleFilter.SumBounds` | microtemp.go:195 | a sum of values between two bounds lies between the bounds times the count |
| `SampleFilter.SumPermutation` | microtemp.go:195 | the sum does not depend on the order of the values |
| `SampleFilter.TrimCount` | microtemp.go:189-192 | more than five values lose the truncated third `n/3` from each end (`3*cut <= n < 3*cut + 3`) and keep at least two; five or fewer lose none |
| `SampleFilter.Kept` | microtemp.go:189-193 | the averaged values are non-empty for a non-empty batch, and number `n - 2*(n/3)` when trimmed |
| `SampleFilter.KeptWithinBatch` | microtemp.go:189-193 | every averaged value lies between the batch's minimum and maximum |
| `SampleFilter.FilteredMean` | microtemp.go:182-197 | an empty batch is the "no temp readings received" error and nothing else is; otherwise the temperature lies between the smallest and largest reading |
| `SampleFilter.SmallBatchUntrimmed` | microtemp.go:189-195 | a batch of one to five readings gives its plain mean |
| `SampleFilter.LargeBatchTrimmed` | microtemp.go:189-195 | a batch of more than five gives the mean of the middle slice `[n/3, n - n/3)` of its ascending order |
| `SampleFilter.MeanIgnoresOrder` | microtemp.go:195 | the mean of a non-empty batch does not depend on the order of its values |
| `SampleFilter.KeptIgnoresOrder` | microtemp.go:189-193 | the trimmed slice of a batch of more than five values does not depend on the order the values arrived in |
| `SampleFilter.FilterIgnoresOrder` | microtemp.go:182-197 | the filtered temperature depends only on the multiset of readings, not on their arrival order |
| `Sensor.CollectReadings` | microtemp.go:168-180 | the sampling loop leaves in the slice exactly the converted successful reads in capture order, with one 10 ms wait per success |
| `Sensor.CollectedCountsAttempts` | microtemp.go:169-174 | each attempt yields one value or one skip: values plus failures equal the attempts |
| `Sensor.CollectedInOrder` | microtemp.go:169-179 | when every read succeeds, value `i` of the batch is the conversion of read `i` |
| `Sensor.CollectedNothing` | microtemp.go:169-174 | when no read succeeds the batch is empty |
| `Sensor.NoSuccessfulReadIsError` | microtemp.go:182-184 | zero successful reads make ReadTemp fail, never return a temperature |
| `Sensor.ReadTempBounds` | microtemp.go:137-198 | a temperature is returned only after the board, the pin, the raise and the reader all succeeded, and it lies within the batch's range |
| `Sensor.TrimmedMean` | microtemp.go:189-197 | the filter on a non-empty slice returns the filtered mean of its old contents; a batch of more than five is left sorted, a smaller one untouched, and the array beyond the slice unchanged |
| `Sensor.MiddleMean` | microtemp.go:189-195 | sorting in place, reslicing to the middle third and averaging gives the filtered mean of the old contents, and leaves the slice sorted and the array beyond it unchanged |
| `Sensor.SampleAndFilter` | microtemp.go:168-197 | sampling then filtering returns the filtered mean of the collected batch, or the error for an empty one |
| `Sensor.ReadTemp` | microtemp.go:137-198 | the result is the first failing call's error or the filtered mean; the pin gets no command before it is found, only "high" if raising it failed, and "high" then "low" otherwise; the 1 s settle wait comes before the 10 ms gaps |
| `DeviceSession.Backoffs` | microtemp.go:231 | the wait after failure `i` is the policy's delay for attempt `i`, for each of the failures in order |
| `DeviceSession.TotalLinearBackoff` | microtemp.go:204-231 | after `n` failures the linear policy has waited `n*(n-1)/2` seconds |
| `DeviceSession.TotalFixedBackoff` | main.go:219-245 | after `n` failures the fixed policy has waited `n` times its delay |
| `DeviceSession.FirstSuccess` | microtemp.go:204-227 | the first successful attempt in a range, with every earlier attempt failed; none only if all failed |
| `DeviceSession.Connect` | microtemp.go:200-235 | a client comes from the first successful attempt; with none, the error is the last attempt's (nil when no attempt was made) |
| `DeviceSession.Attempts` | microtemp.go:204-227 | RobotClient never dials more than `numRetries` times |
| `DeviceSession.RobotClient` | microtemp.go:200-235 | the retry loop returns what `Connect` describes, with one deadline per attempt and one backoff wait per failed attempt |
| `DeviceSession.SleepAck` | microtemp.go:128-134 | a power-mode call that ends in Canceled or DeadlineExceeded, wrapped or not, counts as success; any other error is passed on unchanged |
| `DeviceSession.GoToSleep` | microtemp.go:118-135 | GoToSleep succeeds exactly when the board is found and the power-mode call succeeds or is cut off; otherwise it returns the lookup's or the call's own error |
| `DeviceSession.ConnectOnThirdAttempt` | microtemp.go:204-231 | two failures then a success give the third attempt's client after 3 dials and 0 + 1 s of linear backoff |
| `DeviceSession.ConnectExhausted` | microtemp.go:204-235 | five failures give no client, the fifth error, 5 dials and 5 backoff waits |
| `PollCycle.BatchSize` | microtemp.go:92-95 | the batch size is positive; it differs from 10 only when the copy reads the configuration and the configured count is positive |
| `PollCycle.SleepSeconds` | microtemp.go:110 | the requested sleep is the configured `SleepTime` in the copies that read it, and `SLEEPTIME` (180 s) in main.go |
| `PollCycle.Reading` | microtemp.go:97-104 | the upload holds the single field `temp`, the filtered mean plus the machine's correction |
| `PollCycle.DoOne` | microtemp.go:85-116 | the cycle run step by step with early returns gives exactly the outcome and the steps of the cycle's specification |
| `PollCycle.ConnectFailureEndsCycle` | microtemp.go:86-89 | five failed dials end the cycle with the last dial's error before anything is read |
| `PollCycle.ReadFailureSkipsUpload` | microtemp.go:96-100 | a failed read returns its error without an upload or a sleep request, and the session is closed |
| `PollCycle.UploadFailureSkipsSleep` | microtemp.go:104-107 | a failed upload returns its error without a sleep request, and the session is closed |
| `PollCycle.SleepLookupFailureSkipsSleep` | microtemp.go:109-121 | when GoToSleep's own board lookup fails, the cycle returns that error after the upload and no sleep is requested |
| `PollCycle.CycleShape` | microtemp.go:85-116 | every cycle starts with the connect and, once connected, reads then ends with the close; it uploads only the filtered mean plus the machine's correction and asks for sleep only after a successful upload and a successful board lookup in GoToSleep |
| `PollCycle.CycleSucceedsIff` | microtemp.go:85-116 | a cycle succeeds exactly when the connect, the read, the upload and GoToSleep's board lookup succeed and the sleep request is acknowledged |
| `PollCycle.VariantConstants` | microtemp/microtemp.go:87-91 | main.go reads 10 values and sleeps 180 s under a 2 s deadline; the other copies use the configured count when it is positive |
| `PollCycle.OutcomesAreIndependent` | main.go:69-76 | the outcome of cycle `i` in a run is that cycle's own outcome, whatever the earlier cycles did |
| `PollCycle.MachineLoop` | main.go:67-83 | the per-machine loop runs exactly `iterations` cycles whatever their errors, with a 185 s pause between cycles and none after the last |
| `PollCycle.MainLoop` | main.go:67-83 | one machine's loop in main.go runs exactly `ITERATIONS` (100000) cycles, each with its own outcome, and pauses 185 s between two of them |
| `PollCycle.DoAll` | microtemp.go:66-83 | every configured machine gets exactly one cycle, whatever the other machines' outcomes |
| `HvacControl.ComputeHvacState` | hvac/hvaccontrol.go:73-84 | heat runs exactly when the zone is at or below the target, cool exactly when it is at or above, and any other mode leaves the unit on |
| `HvacControl.AtTargetIsOn` | hvac/hvaccontrol.go:73-84 | at the target temperature every mode keeps the unit on |
| `HvacControl.HeatAndCoolDisagreeOffTarget` | hvac/hvaccontrol.go:73-84 | away from the target, heat and cool make opposite decisions |
| `HvacControl.StateIsMonotone` | hvac/hvaccontrol.go:73-84 | heat that runs at one temperature runs at every lower one; cool that runs at one temperature runs at every higher one |
| `HvacControl.AverageFromResponse` | hvac/hvaccontrol.go:156-173 | a query error is passed on; anything but one row is "wrong number of results"; a count below 5 is "not enough samples"; an average is returned exactly when the one row has a numeric count of at least 5 and a numeric average; the lookup panics exactly when the one row's count is not a number, or the count is at least 5 and the average is not a number |
| `HvacControl.ToggleHvacSwitch` | hvac/hvaccontrol.go:94-122 | a failed connect is fatal; a missing switch returns the lookup's error without a command; otherwise the command `AC_ON = on` is sent and its error returned |
| `HvacControl.CommandIsExactlyOnOff` | hvac/hvaccontrol.go:116-118 | the command sent holds the single key `AC_ON`, mapped to the requested state |
| `HvacControl.UnitsAbortIsFinal` | hvac/hvaccontrol.go:106-108 | after a fatal connect no further unit of the zone is toggled |
| `HvacControl.UnitsRunEntries` | hvac/hvaccontrol.go:63-69 | toggle `i` of a zone goes to its unit `i`, with the zone's single state and that unit's answer |
| `HvacControl.UnitsRunLength` | hvac/hvaccontrol.go:63-69 | without a fatal connect every unit of the zone is toggled once; a stop follows the last toggle's fatal connect |
| `HvacControl.AbortIsFinal` | hvac/hvaccontrol.go:106-108 | once the process stops, no later zone is handled |
| `HvacControl.ZonesRunSound` | hvac/hvaccontrol.go:51-71 | every toggle goes to an existing unit of a zone whose average was accepted, with the state the law computes from that average; a zone is skipped only when its average was rejected |
| `HvacControl.ZonesRunNoPanic` | hvac/hvaccontrol.go:167-173 | a pass that did not stop met no malformed row |
| `HvacControl.ZonesRunSkipsRejected` | hvac/hvaccontrol.go:54-58 | without a stop, a zone is skipped exactly when its average is rejected |
| `HvacControl.ZonesRunCoversUnits` | hvac/hvaccontrol.go:53-70 | without a stop, every unit of every accepted zone is toggled, whatever happened to earlier units and zones |
| `HvacControl.ZonesRunStopCause` | hvac/hvaccontrol.go:106-108 | a stop is caused by a malformed row for some zone or by a fatal connect on the last toggle sent |
| `HvacControl.ToggleUnits` | hvac/hvaccontrol.go:63-69 | the unit loop of one zone toggles the units in order, goes on after an error and stops at a fatal connect |
| `HvacControl.HandleZone` | hvac/hvaccontrol.go:54-69 | one zone of the pass: a rejected average adds the zone to the skipped ones, a panic stops, and an accepted average toggles every unit as the specification's zone step says |
| `HvacControl.DoStuff` | hvac/hvaccontrol.go:51-71 | the control pass, run zone by zone and unit by unit, gives exactly the toggles, skipped zones and stop of its specification |

## Left out

- Networking, RPC, credentials and request encoding: each call is an oracle value. This covers
  `client.New`, `board.FromRobot`, `DataCaptureUpload`, `TabularDataByMQL` and `AppClient`. The body
  of `SendData` is not part of this model; only the values it is given are.
- Clocks and sleeping: waits and deadlines are recorded as numbers, not executed.
- Logging has no effect on any result and is not modelled.
- Configuration parsing (`ParseConfig`, `Initialize`) is left out. Configuration values are parameters.
- `Board.Close` (deferred only in microtemp.go) and the app connection's `Close` are left out.
  They do not change any modelled result.
- PollCycle.DoAll: microtemp.go copies `part` and `i` before starting each goroutine;
  microtemp/microtemp.go captures the loop variables directly. The sequential model gives machine
  `i` its own configuration in both, so what a closure that shares the loop variable would see is not
  modelled.
- SampleFilter.FilteredMean: temperatures are exact reals, so float64 rounding in the mean and in
  the conversion is not modelled.
- SampleFilter.SortPrefix: an insertion sort stands for `slices.Sort`. Only the sorted result is
  claimed, not the library's algorithm or its cost.
- PollCycle.DoAll: the goroutine per machine is modelled as a sequential loop. Interleavings are
  not modelled; each machine's outcome depends only on its own oracle.
- PollCycle.MachineLoop: main.go runs one such loop per machine concurrently. The loops share one
  `err` variable, which is a data race. The race, and the concurrency of the loops, are not modelled.
- HvacControl.AverageFromResponse: the query text (the match and group stages, the one-hour window)
  is not modelled. The data service's answer is a parameter.
- HvacControl.DoStuff: the data service is asked once per zone, and its answer is a parameter. The
  process exit of `logger.Fatal` and a panic are both recorded as `aborted`, without the panic's
  message.
