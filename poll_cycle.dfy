/** One poll cycle for one machine (DoOne in microtemp.go and
    microtemp/microtemp.go, DoAll in main.go), the per-machine loop of
    main.go, and a sequential view of the fleet fan-out. The three source
    files share one cycle; where it differs (constants and where they come
    from) is gathered in `Variant`. */
module PollCycle {
  import opened Base
  import opened SampleFilter
  import opened Sensor
  import opened DeviceSession

  /** Where the three copies of the poller differ. */
  datatype Variant = Variant(
    backoff: Backoff,          // wait after a failed connect attempt
    connectTimeout: nat,       // deadline of each connect attempt (s)
    supervision: nat,          // deadline put on SetPowerMode (s)
    batchFromConfig: bool,     // NumSensorReadings from the config, or the constant 10
    sleepFromConfig: bool)     // SleepTime from the config, or the constant 180 s

  /** microtemp.go */
  const RootPackage := Variant(LinearBackoff, 20, 5, true, true)
  /** main.go */
  const MainProgram := Variant(FixedBackoff(1), MainSleepSeconds, 2, false, false)
  /** microtemp/microtemp.go */
  const SubPackage := Variant(FixedBackoff(1), 20, 2, true, true)

  const ConnectAttempts := 5
  const DefaultReadings := 10
  /** SLEEPTIME of main.go, in seconds. */
  const MainSleepSeconds := 180

  /** The configuration fields the cycle reads. */
  datatype Config = Config(sleepTime: int, numSensorReadings: int)

  /** main.go's configuration has neither field; its cycle uses constants. */
  const MainConfig := Config(0, 0)

  datatype MachineConfig = MachineConfig(partId: string, tempCorrection: real)

  /** Everything the outside world answers during one cycle. */
  datatype CycleOracle = CycleOracle(
    dial: nat -> Status,       // client.New, attempt by attempt
    board: BoardOracle,        // the board during ReadTemp
    upload: Status,            // DataCaptureUpload
    sleepLookup: Status,       // GoToSleep's own board.FromRobot
    powerMode: Status)         // SetPowerMode under its supervising deadline

  /** The steps of a cycle that reach the outside world, in order. */
  datatype Step =
    | Dial                                            // RobotClient
    | Sample(numReadings: int)                        // ReadTemp
    | Upload(partId: string, values: map<string, real>) // SendData
    | Sleep(seconds: int, supervision: nat)           // SetPowerMode, once GoToSleep found the board
    | Close                                           // deferred robot.Close

  datatype Cycle = Cycle(err: Status, steps: seq<Step>)

  /** Readings per batch: the configured count when the copy reads it from
      the config and it is positive, 10 otherwise; never zero. */
  function BatchSize(v: Variant, conf: Config): (n: int)
    ensures n > 0
    ensures n != DefaultReadings ==> v.batchFromConfig && n == conf.numSensorReadings
    ensures v.batchFromConfig && conf.numSensorReadings > 0 ==> n == conf.numSensorReadings
  {
    if v.batchFromConfig && conf.numSensorReadings > 0 then conf.numSensorReadings
    else DefaultReadings
  }

  /** Requested sleep, in seconds. */
  function SleepSeconds(v: Variant, conf: Config): (s: int)
    ensures v.sleepFromConfig ==> s == conf.sleepTime
    ensures !v.sleepFromConfig ==> s == MainSleepSeconds
  {
    if v.sleepFromConfig then conf.sleepTime else MainSleepSeconds
  }

  /** The value uploaded under `temp`: the filtered mean plus the machine's
      correction. */
  function Reading(part: MachineConfig, mean: real): (m: map<string, real>)
    ensures m.Keys == {"temp"} && m["temp"] - part.tempCorrection == mean
  {
    map["temp" := mean + part.tempCorrection]
  }

  /** One cycle: connect, read, upload, sleep; the first failing step ends
      the cycle with its error, and the session, once open, is closed on
      every exit. */
  function CycleSpec(v: Variant, conf: Config, part: MachineConfig, w: CycleOracle): Cycle {
    var c := Connect(w.dial, ConnectAttempts);
    if c.err.Failed? then Cycle(c.err, [Dial])
    else
      var n := BatchSize(v, conf);
      AfterRead(v, conf, part, w, n, ReadTempSpec(w.board, n))
  }

  /** The rest of a connected cycle, once ReadTemp has answered `temp`. */
  function AfterRead(v: Variant, conf: Config, part: MachineConfig, w: CycleOracle, n: int, temp: Result<real>): Cycle {
    match temp
    case Err(e) => Cycle(Failed(e), [Dial, Sample(n), Close])
    case Ok(t) =>
      var up := Upload(part.partId, Reading(part, t));
      if w.upload.Failed? then Cycle(w.upload, [Dial, Sample(n), up, Close])
      else if w.sleepLookup.Failed? then Cycle(GoToSleep(w.sleepLookup, w.powerMode), [Dial, Sample(n), up, Close])
      else
        Cycle(GoToSleep(w.sleepLookup, w.powerMode),
              [Dial, Sample(n), up, Sleep(SleepSeconds(v, conf), v.supervision), Close])
  }

  /** DoOne as the source runs it, step by step with early returns. */
  method DoOne(v: Variant, conf: Config, part: MachineConfig, w: CycleOracle)
    returns (err: Status, steps: seq<Step>)
    ensures Cycle(err, steps) == CycleSpec(v, conf, part, w)
  {
    var robot, connectErr, deadlines, waits := RobotClient(w.dial, ConnectAttempts, v.backoff, v.connectTimeout);
    if connectErr.Failed? {
      return connectErr, [Dial];
    }
    // from here on, the deferred robot.Close runs on every exit
    var numReadings := BatchSize(v, conf);
    var temp, pin, sampleWaits := ReadTemp(w.board, numReadings);
    ghost var rest := AfterRead(v, conf, part, w, numReadings, temp);
    assert CycleSpec(v, conf, part, w) == rest;
    if temp.Err? {
      return Failed(temp.error), [Dial, Sample(numReadings), Close];
    }
    var up := Upload(part.partId, Reading(part, temp.value));
    if w.upload.Failed? {
      return w.upload, [Dial, Sample(numReadings), up, Close];
    }
    err := GoToSleep(w.sleepLookup, w.powerMode);
    if w.sleepLookup.Failed? {
      return err, [Dial, Sample(numReadings), up, Close];
    }
    steps := [Dial, Sample(numReadings), up, Sleep(SleepSeconds(v, conf), v.supervision), Close];
  }

  /** A failed connect ends the cycle before anything is read. */
  lemma ConnectFailureEndsCycle(v: Variant, conf: Config, part: MachineConfig, w: CycleOracle)
    requires forall j :: 0 <= j < ConnectAttempts ==> w.dial(j).Failed?
    ensures CycleSpec(v, conf, part, w) == Cycle(w.dial(ConnectAttempts - 1), [Dial])
  {
  }

  /** A failed read ends the cycle with the read's error: nothing is
      uploaded and no sleep is requested, but the session is closed. */
  lemma ReadFailureSkipsUpload(v: Variant, conf: Config, part: MachineConfig, w: CycleOracle)
    requires Connect(w.dial, ConnectAttempts).client.Some?
    requires ReadTempSpec(w.board, BatchSize(v, conf)).Err?
    ensures var n := BatchSize(v, conf);
      CycleSpec(v, conf, part, w) == Cycle(Failed(ReadTempSpec(w.board, n).error), [Dial, Sample(n), Close])
  {
  }

  /** A failed upload ends the cycle with the upload's error, before the
      sleep request and with the session closed. */
  lemma UploadFailureSkipsSleep(v: Variant, conf: Config, part: MachineConfig, w: CycleOracle)
    requires Connect(w.dial, ConnectAttempts).client.Some?
    requires ReadTempSpec(w.board, BatchSize(v, conf)).Ok?
    requires w.upload.Failed?
    ensures var n := BatchSize(v, conf);
      var up := Upload(part.partId, Reading(part, ReadTempSpec(w.board, n).value));
      CycleSpec(v, conf, part, w) == Cycle(w.upload, [Dial, Sample(n), up, Close])
  {
  }

  /** A board that GoToSleep cannot find ends the cycle with that lookup's
      error: the temperature is uploaded, but no sleep is requested. */
  lemma SleepLookupFailureSkipsSleep(v: Variant, conf: Config, part: MachineConfig, w: CycleOracle)
    requires Connect(w.dial, ConnectAttempts).client.Some?
    requires ReadTempSpec(w.board, BatchSize(v, conf)).Ok?
    requires w.upload.Nil? && w.sleepLookup.Failed?
    ensures var n := BatchSize(v, conf);
      var up := Upload(part.partId, Reading(part, ReadTempSpec(w.board, n).value));
      CycleSpec(v, conf, part, w) == Cycle(w.sleepLookup, [Dial, Sample(n), up, Close])
  {
  }

  /** Shape of every cycle: it starts with the connect, ends with the close
      once connected, uploads only the filtered mean plus the correction,
      and asks for sleep only after a successful upload and a board found
      by GoToSleep. */
  lemma CycleShape(v: Variant, conf: Config, part: MachineConfig, w: CycleOracle)
    ensures var c := CycleSpec(v, conf, part, w);
      var n := BatchSize(v, conf);
      && |c.steps| >= 1 && c.steps[0] == Dial
      && (|c.steps| == 1 <==> Connect(w.dial, ConnectAttempts).client.None?)
      && (|c.steps| > 1 ==> c.steps[|c.steps| - 1] == Close && c.steps[1] == Sample(n))
      && (forall i :: 0 <= i < |c.steps| && c.steps[i].Upload? ==>
            ReadTempSpec(w.board, n).Ok? &&
            c.steps[i] == Upload(part.partId, Reading(part, ReadTempSpec(w.board, n).value)))
      && (forall i :: 0 <= i < |c.steps| && c.steps[i].Sleep? ==>
            w.upload.Nil? && w.sleepLookup.Nil? && c.steps[i] == Sleep(SleepSeconds(v, conf), v.supervision))
  {
  }

  /** A cycle succeeds exactly when every step does, the sleep request
      counting as done when it ends in Canceled or DeadlineExceeded. */
  lemma CycleSucceedsIff(v: Variant, conf: Config, part: MachineConfig, w: CycleOracle)
    ensures CycleSpec(v, conf, part, w).err.Nil? <==>
      && Connect(w.dial, ConnectAttempts).client.Some?
      && ReadTempSpec(w.board, BatchSize(v, conf)).Ok?
      && w.upload.Nil?
      && w.sleepLookup.Nil?
      && SleepAck(w.powerMode).Nil?
  {
  }

  /** main.go always reads 10 values and sleeps 180 s under a 2 s deadline;
      the other copies read the configured count when it is positive. */
  lemma VariantConstants(conf: Config)
    ensures BatchSize(MainProgram, conf) == DefaultReadings
    ensures SleepSeconds(MainProgram, conf) == MainSleepSeconds && MainProgram.supervision == 2
    ensures RootPackage.supervision == 5 && SubPackage.supervision == 2
    ensures conf.numSensorReadings > 0 ==>
      BatchSize(RootPackage, conf) == BatchSize(SubPackage, conf) == conf.numSensorReadings
    ensures conf.numSensorReadings <= 0 ==>
      BatchSize(RootPackage, conf) == BatchSize(SubPackage, conf) == DefaultReadings
  {
  }

  /** ITERATIONS of main.go. */
  const Iterations := 100000
  /** Pause between two cycles of one machine in main.go: SLEEPTIME + 5 s. */
  const LoopPauseSeconds := MainSleepSeconds + 5

  /** The outcomes of `n` cycles in a row, cycle `i` answered by `world(i)`
      for the machine `part(i)`. */
  function Outcomes(v: Variant, conf: Config, part: nat -> MachineConfig, world: nat -> CycleOracle, n: nat): (r: seq<Status>)
    ensures |r| == n
  {
    if n == 0 then [] else Outcomes(v, conf, part, world, n - 1) + [CycleSpec(v, conf, part(n - 1), world(n - 1)).err]
  }

  /** Each cycle's outcome is its own: cycle `i` of the run is exactly
      the cycle run alone on its machine and world. */
  lemma {:induction false} OutcomesAreIndependent(v: Variant, conf: Config, part: nat -> MachineConfig, world: nat -> CycleOracle, n: nat, i: nat)
    requires i < n
    ensures Outcomes(v, conf, part, world, n)[i] == CycleSpec(v, conf, part(i), world(i)).err
  {
    if i < n - 1 {
      OutcomesAreIndependent(v, conf, part, world, n - 1, i);
    }
  }

  /** The per-machine loop of main.go: exactly `iterations` cycles, a failed
      cycle is logged and the loop goes on, and it pauses between cycles but
      not after the last one. `world(i)` answers the calls of cycle i. */
  method MachineLoop(part: MachineConfig, iterations: int, world: nat -> CycleOracle)
    returns (results: seq<Status>, ghost pauses: seq<nat>)
    ensures results == Outcomes(MainProgram, MainConfig, _ => part, world, if iterations > 0 then iterations else 0)
    ensures pauses == Repeat(LoopPauseSeconds, if iterations > 0 then iterations - 1 else 0)
  {
    results, pauses := [], [];
    var i := 0;
    while i < iterations
      invariant 0 <= i && (iterations > 0 ==> i <= iterations) && (iterations <= 0 ==> i == 0)
      invariant results == Outcomes(MainProgram, MainConfig, _ => part, world, i)
      invariant pauses == Repeat(LoopPauseSeconds, if i == iterations && i > 0 then i - 1 else i)
    {
      var err, steps := DoOne(MainProgram, MainConfig, part, world(i));
      results := results + [err];
      if i < iterations - 1 {
        pauses := pauses + [LoopPauseSeconds];
      }
      i := i + 1;
    }
  }

  /** main.go's loop for one machine: ITERATIONS cycles, with a pause
      between two of them. */
  method MainLoop(part: MachineConfig, world: nat -> CycleOracle)
    returns (results: seq<Status>, ghost pauses: seq<nat>)
    ensures |results| == Iterations && |pauses| == Iterations - 1
    ensures forall i :: 0 <= i < Iterations ==> results[i] == CycleSpec(MainProgram, MainConfig, part, world(i)).err
    ensures forall j :: 0 <= j < |pauses| ==> pauses[j] == LoopPauseSeconds
  {
    results, pauses := MachineLoop(part, Iterations, world);
    forall i | 0 <= i < Iterations
      ensures results[i] == CycleSpec(MainProgram, MainConfig, part, world(i)).err
    {
      OutcomesAreIndependent(MainProgram, MainConfig, _ => part, world, Iterations, i);
    }
  }

  /** The fan-out of microtemp.go / microtemp/microtemp.go seen
      sequentially: every machine's cycle runs once, whatever the others'
      outcome. `world(i)` answers the calls of machine i's cycle. */
  method DoAll(v: Variant, conf: Config, parts: seq<MachineConfig>, world: nat -> CycleOracle)
    returns (results: seq<Status>)
    ensures results == Outcomes(v, conf, (i: nat) => if i < |parts| then parts[i] else MachineConfig("", 0.0), world, |parts|)
  {
    ghost var part := (i: nat) => if i < |parts| then parts[i] else MachineConfig("", 0.0);
    results := [];
    for i := 0 to |parts|
      invariant results == Outcomes(v, conf, part, world, i)
    {
      var err, steps := DoOne(v, conf, parts[i], world(i));
      results := results + [err];
    }
  }
}
