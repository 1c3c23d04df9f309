/** The HVAC zone controller: a threshold law per zone, a validation of the
    zone's average temperature as the data service returns it, and the loop
    that commands every HVAC unit of every zone. The data service and the
    HVAC machines are oracles. */
module HvacControl {
  import opened Base

  datatype HvacMachine = HvacMachine(machineId: string, machineUri: string)

  datatype HvacZone = HvacZone(
    hvacs: seq<HvacMachine>,
    tempMachines: seq<string>,
    targetTempC: real,
    hvacMode: string)          // "heat" or "cool"

  /** The on/off law: heat runs while the zone is not above the target,
      cool while it is not below; any other mode keeps the unit on. */
  function ComputeHvacState(hvacMode: string, sensorTemp: real, desiredTemp: real): (on: bool)
    ensures hvacMode == "heat" ==> (on <==> sensorTemp <= desiredTemp)
    ensures hvacMode == "cool" ==> (on <==> sensorTemp >= desiredTemp)
    ensures hvacMode != "heat" && hvacMode != "cool" ==> on
  {
    if hvacMode == "heat" && sensorTemp > desiredTemp then false
    else if hvacMode == "cool" && sensorTemp < desiredTemp then false
    else true
  }

  /** At the target both modes keep the unit on. */
  lemma AtTargetIsOn(hvacMode: string, t: real)
    ensures ComputeHvacState(hvacMode, t, t)
  {
  }

  /** Away from the target, heat and cool make opposite decisions. */
  lemma HeatAndCoolDisagreeOffTarget(sensorTemp: real, desiredTemp: real)
    requires sensorTemp != desiredTemp
    ensures ComputeHvacState("heat", sensorTemp, desiredTemp) != ComputeHvacState("cool", sensorTemp, desiredTemp)
  {
  }

  /** Heating that runs at some temperature also runs at every lower one;
      cooling that runs at some temperature also runs at every higher one. */
  lemma StateIsMonotone(sensorTemp: real, other: real, desiredTemp: real)
    requires other <= sensorTemp
    ensures ComputeHvacState("heat", sensorTemp, desiredTemp) ==> ComputeHvacState("heat", other, desiredTemp)
    ensures ComputeHvacState("cool", other, desiredTemp) ==> ComputeHvacState("cool", sensorTemp, desiredTemp)
  {
  }

  /** A value in a result row of the data service: a number, or anything
      else (absent, null, a string). */
  datatype Value = Number(x: real) | NonNumber

  type Row = map<string, Value>

  /** The fewest samples an average may be based on. */
  const MinSamples := 5.0

  /** The average lookup of one zone: a temperature, an error the loop logs
      and skips, or a panic (a field that is not a number). */
  datatype Lookup = Average(temp: real) | Rejected(err: Error) | Panic

  /** A field of a row; a missing key reads as a non-number. */
  function Field(row: Row, key: string): Value {
    if key in row then row[key] else NonNumber
  }

  /** getAverageTempFromApp after the query: the query's own error, or the
      rows checked for exactly one row with at least five samples. */
  function AverageFromResponse(response: Result<seq<Row>>): (r: Lookup)
    ensures response.Err? ==> r == Rejected(response.error)
    ensures response.Ok? && |response.value| != 1 ==> r == Rejected(WrongNumberOfResults)
    ensures r.Average? <==>
      && response.Ok? && |response.value| == 1
      && Field(response.value[0], "temp_cnt").Number?
      && Field(response.value[0], "temp_cnt").x >= MinSamples
      && Field(response.value[0], "temp_avg").Number?
    ensures r.Average? ==> r.temp == Field(response.value[0], "temp_avg").x
    ensures r.Panic? <==>
      && response.Ok? && |response.value| == 1
      && (|| Field(response.value[0], "temp_cnt").NonNumber?
          || (Field(response.value[0], "temp_cnt").x >= MinSamples && Field(response.value[0], "temp_avg").NonNumber?))
    ensures response.Ok? ==> (r == Rejected(NotEnoughSamples) <==>
      && |response.value| == 1
      && Field(response.value[0], "temp_cnt").Number?
      && Field(response.value[0], "temp_cnt").x < MinSamples)
  {
    match response
    case Err(e) => Rejected(e)
    case Ok(rows) =>
      if |rows| != 1 then Rejected(WrongNumberOfResults)
      else
        match Field(rows[0], "temp_cnt")
        case NonNumber => Panic
        case Number(count) =>
          if count < MinSamples then Rejected(NotEnoughSamples)
          else
            match Field(rows[0], "temp_avg")
            case NonNumber => Panic
            case Number(avg) => Average(avg)
  }

  /** The answers of one HVAC machine to toggleHVACSwitch's calls. */
  datatype SwitchOracle = SwitchOracle(
    connect: Status,           // client.New
    lookup: Status,            // generic.FromRobot(robot, "AC-switch-generic")
    doCommand: Status)         // switcher.DoCommand

  /** Fatal: the connect failed and the process exits. Otherwise the command
      sent, if the switch was found, and the error returned. */
  datatype ToggleOutcome = Fatal | Done(command: Option<map<string, bool>>, err: Status)

  /** The command payload that switches the AC on or off. */
  function SwitchCommand(on: bool): map<string, bool> {
    map["AC_ON" := on]
  }

  function ToggleHvacSwitch(o: SwitchOracle, on: bool): (t: ToggleOutcome)
    ensures t.Fatal? <==> o.connect.Failed?
    ensures t.Done? ==> (t.command.Some? <==> o.lookup.Nil?)
    ensures t.Done? && t.command.Some? ==> t.command.value == SwitchCommand(on) && t.err == o.doCommand
    ensures t.Done? && t.command.None? ==> t.err == o.lookup
  {
    if o.connect.Failed? then Fatal
    else if o.lookup.Failed? then Done(None, o.lookup)
    else Done(Some(SwitchCommand(on)), o.doCommand)
  }

  /** The only command ever sent holds the single key AC_ON with the state. */
  lemma CommandIsExactlyOnOff(o: SwitchOracle, on: bool)
    requires ToggleHvacSwitch(o, on).Done? && ToggleHvacSwitch(o, on).command.Some?
    ensures ToggleHvacSwitch(o, on).command.value.Keys == {"AC_ON"}
    ensures ToggleHvacSwitch(o, on).command.value["AC_ON"] == on
  {
  }

  /** One toggle of unit `unit` of zone `zone`. */
  datatype Attempt = Attempt(zone: nat, unit: nat, uri: string, on: bool, outcome: ToggleOutcome)

  /** The last toggle hit a fatal connect. */
  predicate LastIsFatal(attempts: seq<Attempt>) {
    |attempts| > 0 && attempts[|attempts| - 1].outcome.Fatal?
  }

  /** What DoStuff did: the toggles in order, the zones skipped because
      their average was rejected, and whether the process stopped early. */
  datatype Run = Run(attempts: seq<Attempt>, skipped: seq<nat>, aborted: bool)

  /** The toggles of the first `m` units of zone `zi`, all to `on`; a fatal
      connect ends them. */
  function UnitsRun(zi: nat, hvacs: seq<HvacMachine>, on: bool, sw: (nat, nat) -> SwitchOracle, m: nat): (r: Run)
    requires m <= |hvacs|
    ensures r.skipped == [] && |r.attempts| <= m
  {
    if m == 0 then Run([], [], false)
    else
      var r := UnitsRun(zi, hvacs, on, sw, m - 1);
      if r.aborted then r
      else
        var a := UnitAttempt(zi, hvacs, on, sw, m - 1);
        Run(r.attempts + [a], [], a.outcome.Fatal?)
  }

  /** The toggle of unit `u` of zone `zi` to `on`. */
  function UnitAttempt(zi: nat, hvacs: seq<HvacMachine>, on: bool, sw: (nat, nat) -> SwitchOracle, u: nat): Attempt
    requires u < |hvacs|
  {
    Attempt(zi, u, hvacs[u].machineUri, on, ToggleHvacSwitch(sw(zi, u), on))
  }

  /** Once a connect is fatal, no further unit is toggled. */
  lemma {:induction false} UnitsAbortIsFinal(zi: nat, hvacs: seq<HvacMachine>, on: bool, sw: (nat, nat) -> SwitchOracle, m: nat, m': nat)
    requires m <= m' <= |hvacs| && UnitsRun(zi, hvacs, on, sw, m).aborted
    ensures UnitsRun(zi, hvacs, on, sw, m') == UnitsRun(zi, hvacs, on, sw, m)
    decreases m' - m
  {
    if m < m' {
      UnitsAbortIsFinal(zi, hvacs, on, sw, m, m' - 1);
    }
  }

  /** The toggles of one zone: each goes to unit i of zone zi in turn, all
      with the same state and each with that unit's answer. */
  lemma {:induction false} UnitsRunEntries(zi: nat, hvacs: seq<HvacMachine>, on: bool, sw: (nat, nat) -> SwitchOracle, m: nat)
    requires m <= |hvacs|
    ensures forall i :: 0 <= i < |UnitsRun(zi, hvacs, on, sw, m).attempts| ==>
      UnitsRun(zi, hvacs, on, sw, m).attempts[i] == UnitAttempt(zi, hvacs, on, sw, i)
  {
    if m > 0 {
      UnitsRunEntries(zi, hvacs, on, sw, m - 1);
      UnitsRunLength(zi, hvacs, on, sw, m - 1);
      var r := UnitsRun(zi, hvacs, on, sw, m - 1);
      if !r.aborted {
        var now := r.attempts + [UnitAttempt(zi, hvacs, on, sw, m - 1)];
        assert UnitsRun(zi, hvacs, on, sw, m).attempts == now;
        forall i | 0 <= i < |now|
          ensures now[i] == UnitAttempt(zi, hvacs, on, sw, i)
        {
          if i < |r.attempts| {
            assert now[i] == r.attempts[i];
          } else {
            assert i == m - 1;
          }
        }
      } else {
        assert UnitsRun(zi, hvacs, on, sw, m) == r;
      }
    }
  }

  /** Without a fatal connect every one of the `m` units gets a toggle; a
      stop is caused by the last toggle's fatal connect. */
  lemma {:induction false} UnitsRunLength(zi: nat, hvacs: seq<HvacMachine>, on: bool, sw: (nat, nat) -> SwitchOracle, m: nat)
    requires m <= |hvacs|
    ensures !UnitsRun(zi, hvacs, on, sw, m).aborted ==> |UnitsRun(zi, hvacs, on, sw, m).attempts| == m
    ensures UnitsRun(zi, hvacs, on, sw, m).aborted ==> LastIsFatal(UnitsRun(zi, hvacs, on, sw, m).attempts)
  {
    if m > 0 {
      UnitsRunLength(zi, hvacs, on, sw, m - 1);
    }
  }

  /** One zone of DoStuff after the zones before it ran without a stop. */
  function ZoneStep(prev: Run, zi: nat, zone: HvacZone, lookup: Lookup, sw: (nat, nat) -> SwitchOracle): Run {
    match lookup
    case Panic => Run(prev.attempts, prev.skipped, true)
    case Rejected(_) => Run(prev.attempts, prev.skipped + [zi], false)
    case Average(t) =>
      var units := UnitsRun(zi, zone.hvacs, ComputeHvacState(zone.hvacMode, t, zone.targetTempC), sw, |zone.hvacs|);
      Run(prev.attempts + units.attempts, prev.skipped, units.aborted)
  }

  /** DoStuff over the first `k` zones. `avg(zi)` is the data service's
      answer for zone zi and `sw(zi, u)` the answers of its unit u. */
  function ZonesRun(zones: seq<HvacZone>, avg: nat -> Result<seq<Row>>, sw: (nat, nat) -> SwitchOracle, k: nat): Run
    requires k <= |zones|
  {
    if k == 0 then Run([], [], false)
    else
      var prev := ZonesRun(zones, avg, sw, k - 1);
      if prev.aborted then prev
      else ZoneStep(prev, k - 1, zones[k - 1], AverageFromResponse(avg(k - 1)), sw)
  }

  /** Once stopped, the run does not change as more zones are considered. */
  lemma {:induction false} AbortIsFinal(zones: seq<HvacZone>, avg: nat -> Result<seq<Row>>, sw: (nat, nat) -> SwitchOracle, k: nat, k': nat)
    requires k <= k' <= |zones| && ZonesRun(zones, avg, sw, k).aborted
    ensures ZonesRun(zones, avg, sw, k') == ZonesRun(zones, avg, sw, k)
    decreases k' - k
  {
    if k < k' {
      AbortIsFinal(zones, avg, sw, k, k' - 1);
      assert ZonesRun(zones, avg, sw, k' - 1).aborted;
    }
  }

  /** A toggle that agrees with the zones: it goes to an existing unit of a
      zone whose average was accepted, with the state the law computes from
      that average, and its outcome is that unit's answer to that state. */
  predicate SoundAttempt(zones: seq<HvacZone>, avg: nat -> Result<seq<Row>>, sw: (nat, nat) -> SwitchOracle, a: Attempt) {
    && a.zone < |zones| && a.unit < |zones[a.zone].hvacs|
    && AverageFromResponse(avg(a.zone)).Average?
    && a.uri == zones[a.zone].hvacs[a.unit].machineUri
    && a.on == ComputeHvacState(zones[a.zone].hvacMode, AverageFromResponse(avg(a.zone)).temp, zones[a.zone].targetTempC)
    && a.outcome == ToggleHvacSwitch(sw(a.zone, a.unit), a.on)
  }

  /** The toggles of a zone whose average is `t` all agree with the zones. */
  lemma UnitsSound(zones: seq<HvacZone>, avg: nat -> Result<seq<Row>>, sw: (nat, nat) -> SwitchOracle, zi: nat, t: real, on: bool)
    requires zi < |zones| && AverageFromResponse(avg(zi)) == Average(t)
    requires on == ComputeHvacState(zones[zi].hvacMode, t, zones[zi].targetTempC)
    ensures forall i :: 0 <= i < |UnitsRun(zi, zones[zi].hvacs, on, sw, |zones[zi].hvacs|).attempts| ==>
      && UnitsRun(zi, zones[zi].hvacs, on, sw, |zones[zi].hvacs|).attempts[i].zone == zi
      && SoundAttempt(zones, avg, sw, UnitsRun(zi, zones[zi].hvacs, on, sw, |zones[zi].hvacs|).attempts[i])
  {
    UnitsRunEntries(zi, zones[zi].hvacs, on, sw, |zones[zi].hvacs|);
  }

  /** Every toggle DoStuff sends agrees with the zones (so no toggle goes to
      a zone whose average was rejected), and a zone is skipped only when its
      average was rejected. */
  lemma {:induction false} ZonesRunSound(zones: seq<HvacZone>, avg: nat -> Result<seq<Row>>, sw: (nat, nat) -> SwitchOracle, k: nat)
    requires k <= |zones|
    ensures forall i :: 0 <= i < |ZonesRun(zones, avg, sw, k).attempts| ==>
      ZonesRun(zones, avg, sw, k).attempts[i].zone < k && SoundAttempt(zones, avg, sw, ZonesRun(zones, avg, sw, k).attempts[i])
    ensures forall j :: 0 <= j < |ZonesRun(zones, avg, sw, k).skipped| ==>
      ZonesRun(zones, avg, sw, k).skipped[j] < k && AverageFromResponse(avg(ZonesRun(zones, avg, sw, k).skipped[j])).Rejected?
  {
    if k > 0 {
      ZonesRunSound(zones, avg, sw, k - 1);
      var prev := ZonesRun(zones, avg, sw, k - 1);
      var r := ZonesRun(zones, avg, sw, k);
      if !prev.aborted {
        match AverageFromResponse(avg(k - 1)) {
          case Panic =>
            assert r == Run(prev.attempts, prev.skipped, true);
          case Rejected(_) =>
            assert r == Run(prev.attempts, prev.skipped + [k - 1], false);
          case Average(t) =>
            var zone := zones[k - 1];
            var on := ComputeHvacState(zone.hvacMode, t, zone.targetTempC);
            UnitsSound(zones, avg, sw, k - 1, t, on);
            var units := UnitsRun(k - 1, zone.hvacs, on, sw, |zone.hvacs|);
            assert r.attempts == prev.attempts + units.attempts;
            forall i | 0 <= i < |r.attempts|
              ensures r.attempts[i].zone < k && SoundAttempt(zones, avg, sw, r.attempts[i])
            {
              if i >= |prev.attempts| {
                var j := i - |prev.attempts|;
                assert r.attempts[i] == units.attempts[j];
              } else {
                assert r.attempts[i] == prev.attempts[i];
              }
            }
        }
      }
    }
  }

  /** Unit `u` of zone `zi` was toggled. */
  predicate Covered(attempts: seq<Attempt>, zi: nat, u: nat) {
    exists i :: 0 <= i < |attempts| && attempts[i].zone == zi && attempts[i].unit == u
  }

  lemma CoveredStaysCovered(attempts: seq<Attempt>, more: seq<Attempt>, zi: nat, u: nat)
    requires Covered(attempts, zi, u)
    ensures Covered(attempts + more, zi, u)
  {
    var i :| 0 <= i < |attempts| && attempts[i].zone == zi && attempts[i].unit == u;
    assert (attempts + more)[i] == attempts[i];
  }

  /** Without a fatal connect, every unit of an accepted zone is toggled. */
  lemma UnitsComplete(prev: seq<Attempt>, zi: nat, hvacs: seq<HvacMachine>, on: bool, sw: (nat, nat) -> SwitchOracle)
    requires !UnitsRun(zi, hvacs, on, sw, |hvacs|).aborted
    ensures forall u :: 0 <= u < |hvacs| ==> Covered(prev + UnitsRun(zi, hvacs, on, sw, |hvacs|).attempts, zi, u)
  {
    var units := UnitsRun(zi, hvacs, on, sw, |hvacs|);
    UnitsRunEntries(zi, hvacs, on, sw, |hvacs|);
    UnitsRunLength(zi, hvacs, on, sw, |hvacs|);
    forall u | 0 <= u < |hvacs|
      ensures Covered(prev + units.attempts, zi, u)
    {
      assert (prev + units.attempts)[|prev| + u] == units.attempts[u];
    }
  }

  /** Without a stop, no zone's average lookup panicked. */
  lemma {:induction false} ZonesRunNoPanic(zones: seq<HvacZone>, avg: nat -> Result<seq<Row>>, sw: (nat, nat) -> SwitchOracle, k: nat)
    requires k <= |zones| && !ZonesRun(zones, avg, sw, k).aborted
    ensures forall zi :: 0 <= zi < k ==> AverageFromResponse(avg(zi)) != Panic
  {
    if k > 0 {
      ZonesRunNoPanic(zones, avg, sw, k - 1);
    }
  }

  /** Without a stop, a zone is skipped exactly when its average is
      rejected, whatever happened to the zones before it. */
  lemma {:induction false} ZonesRunSkipsRejected(zones: seq<HvacZone>, avg: nat -> Result<seq<Row>>, sw: (nat, nat) -> SwitchOracle, k: nat)
    requires k <= |zones| && !ZonesRun(zones, avg, sw, k).aborted
    ensures forall zi :: 0 <= zi < k ==>
      (zi in ZonesRun(zones, avg, sw, k).skipped <==> AverageFromResponse(avg(zi)).Rejected?)
  {
    if k > 0 {
      var prev := ZonesRun(zones, avg, sw, k - 1);
      assert !prev.aborted;
      ZonesRunSkipsRejected(zones, avg, sw, k - 1);
      ZonesRunSound(zones, avg, sw, k - 1);
      AllBelow(prev.skipped, k - 1);
      var r := ZoneStep(prev, k - 1, zones[k - 1], AverageFromResponse(avg(k - 1)), sw);
      assert ZonesRun(zones, avg, sw, k) == r;
      var added := if AverageFromResponse(avg(k - 1)).Rejected? then [k - 1] else [];
      assert r.skipped == prev.skipped + added;
      forall zi | 0 <= zi < k
        ensures zi in r.skipped <==> AverageFromResponse(avg(zi)).Rejected?
      {
        assert zi in r.skipped <==> zi in prev.skipped || zi in added;
      }
    }
  }

  /** A sequence whose entries are all below `b` does not hold `b`. */
  lemma AllBelow(s: seq<nat>, b: nat)
    requires forall j :: 0 <= j < |s| ==> s[j] < b
    ensures b !in s
  {
  }

  /** Without a stop, every unit of every zone whose average was accepted is
      toggled, whatever happened to the units and zones before it. */
  lemma {:induction false} ZonesRunCoversUnits(zones: seq<HvacZone>, avg: nat -> Result<seq<Row>>, sw: (nat, nat) -> SwitchOracle, k: nat)
    requires k <= |zones| && !ZonesRun(zones, avg, sw, k).aborted
    ensures forall zi, u :: 0 <= zi < k && AverageFromResponse(avg(zi)).Average? && 0 <= u < |zones[zi].hvacs| ==>
      Covered(ZonesRun(zones, avg, sw, k).attempts, zi, u)
  {
    if k > 0 {
      var prev := ZonesRun(zones, avg, sw, k - 1);
      assert !prev.aborted;
      ZonesRunCoversUnits(zones, avg, sw, k - 1);
      var lookup := AverageFromResponse(avg(k - 1));
      assert ZonesRun(zones, avg, sw, k) == ZoneStep(prev, k - 1, zones[k - 1], lookup, sw);
      if lookup.Average? {
        var zone := zones[k - 1];
        var on := ComputeHvacState(zone.hvacMode, lookup.temp, zone.targetTempC);
        var units := UnitsRun(k - 1, zone.hvacs, on, sw, |zone.hvacs|);
        assert ZonesRun(zones, avg, sw, k).attempts == prev.attempts + units.attempts;
        UnitsComplete(prev.attempts, k - 1, zone.hvacs, on, sw);
        forall zi, u | 0 <= zi < k - 1 && AverageFromResponse(avg(zi)).Average? && 0 <= u < |zones[zi].hvacs|
          ensures Covered(prev.attempts + units.attempts, zi, u)
        {
          CoveredStaysCovered(prev.attempts, units.attempts, zi, u);
        }
      }
    }
  }

  /** A stop has one of two causes: a zone's average that panicked, or a
      fatal connect on the last toggle sent. */
  lemma {:induction false} ZonesRunStopCause(zones: seq<HvacZone>, avg: nat -> Result<seq<Row>>, sw: (nat, nat) -> SwitchOracle, k: nat)
    requires k <= |zones| && ZonesRun(zones, avg, sw, k).aborted
    ensures || (exists zi :: 0 <= zi < k && AverageFromResponse(avg(zi)) == Panic)
            || LastIsFatal(ZonesRun(zones, avg, sw, k).attempts)
  {
    var prev := ZonesRun(zones, avg, sw, k - 1);
    if prev.aborted {
      ZonesRunStopCause(zones, avg, sw, k - 1);
    } else {
      match AverageFromResponse(avg(k - 1)) {
        case Panic =>
          assert AverageFromResponse(avg(k - 1)) == Panic;
        case Average(t) =>
          var zone := zones[k - 1];
          var on := ComputeHvacState(zone.hvacMode, t, zone.targetTempC);
          var units := UnitsRun(k - 1, zone.hvacs, on, sw, |zone.hvacs|);
          UnitsRunLength(k - 1, zone.hvacs, on, sw, |zone.hvacs|);
          assert ZonesRun(zones, avg, sw, k).attempts == prev.attempts + units.attempts;
      }
    }
  }

  /** toggleHVACSwitch for every unit of one zone in order; a failed toggle
      is logged and the next unit follows, a fatal connect stops. */
  method ToggleUnits(zi: nat, hvacs: seq<HvacMachine>, on: bool, sw: (nat, nat) -> SwitchOracle)
    returns (attempts: seq<Attempt>, aborted: bool)
    ensures Run(attempts, [], aborted) == UnitsRun(zi, hvacs, on, sw, |hvacs|)
  {
    attempts, aborted := [], false;
    var u := 0;
    while u < |hvacs|
      invariant 0 <= u <= |hvacs|
      invariant Run(attempts, [], false) == UnitsRun(zi, hvacs, on, sw, u)
    {
      var outcome := ToggleHvacSwitch(sw(zi, u), on);
      attempts := attempts + [Attempt(zi, u, hvacs[u].machineUri, on, outcome)];
      if outcome.Fatal? {
        aborted := true;
        UnitsAbortIsFinal(zi, hvacs, on, sw, u + 1, |hvacs|);
        return;
      }
      u := u + 1;
    }
  }

  /** One iteration of DoStuff's zone loop: a rejected average skips the
      zone, a panic stops, an accepted average sets every unit of the zone
      to the law's state. */
  method HandleZone(attempts: seq<Attempt>, skipped: seq<nat>, zi: nat, zone: HvacZone, lookup: Lookup, sw: (nat, nat) -> SwitchOracle)
    returns (attempts': seq<Attempt>, skipped': seq<nat>, aborted: bool)
    ensures Run(attempts', skipped', aborted) == ZoneStep(Run(attempts, skipped, false), zi, zone, lookup, sw)
  {
    attempts', skipped', aborted := attempts, skipped, false;
    match lookup {
      case Panic =>
        aborted := true;
      case Rejected(_) =>
        skipped' := skipped + [zi];
      case Average(t) =>
        var on := ComputeHvacState(zone.hvacMode, t, zone.targetTempC);
        var more;
        more, aborted := ToggleUnits(zi, zone.hvacs, on, sw);
        attempts' := attempts + more;
    }
  }

  /** DoStuff as the source runs it: zone by zone; a rejected average skips
      the zone, an accepted one sets every unit of the zone to the law's
      state, and a panic or a fatal connect stops everything. */
  method DoStuff(zones: seq<HvacZone>, avg: nat -> Result<seq<Row>>, sw: (nat, nat) -> SwitchOracle)
    returns (attempts: seq<Attempt>, skipped: seq<nat>, aborted: bool)
    ensures Run(attempts, skipped, aborted) == ZonesRun(zones, avg, sw, |zones|)
  {
    attempts, skipped, aborted := [], [], false;
    var zi := 0;
    while zi < |zones|
      invariant 0 <= zi <= |zones|
      invariant Run(attempts, skipped, false) == ZonesRun(zones, avg, sw, zi)
    {
      attempts, skipped, aborted := HandleZone(attempts, skipped, zi, zones[zi], AverageFromResponse(avg(zi)), sw);
      if aborted {
        AbortIsFinal(zones, avg, sw, zi + 1, |zones|);
        return;
      }
      zi := zi + 1;
    }
  }
}
