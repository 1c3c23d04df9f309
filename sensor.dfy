/** ReadTemp: power the sensor from GPIO pin 12, take a batch of analog
    readings, filter them and return the temperature. The board is an oracle
    that answers each call the procedure makes. */
module Sensor {
  import opened Base
  import opened SampleFilter

  /** The board's answers during one ReadTemp, call by call. */
  datatype BoardOracle = BoardOracle(
    lookup: Status,             // board.FromRobot(robot, "board")
    pinLookup: Status,          // esp.GPIOPinByName("12")
    pinSetHigh: Status,         // pin.Set(ctx, true, nil)
    hasTempReader: bool,        // esp.AnalogReaderByName("temp")
    read: nat -> Option<int>)   // the answer to the i-th analog.Read; None is an error

  /** Wait after powering the sensor, for the voltage to settle (ms). */
  const SettleMillis := 1000
  /** Wait after each successful reading (ms). */
  const ReadGapMillis := 10

  /** The batch collected by the first `n` read attempts: one converted value
      per successful read, in capture order; failed reads are skipped. */
  function Collected(read: nat -> Option<int>, n: int): (batch: seq<real>)
    ensures |batch| <= (if n > 0 then n else 0)
    decreases n
  {
    if n <= 0 then []
    else
      Collected(read, n - 1) + match read(n - 1) {
        case Some(raw) => [ToCelsius(raw)]
        case None => []
      }
  }

  /** Number of the first `n` read attempts that failed. */
  function FailedReads(read: nat -> Option<int>, n: int): nat
    decreases n
  {
    if n <= 0 then 0
    else FailedReads(read, n - 1) + (if read(n - 1).None? then 1 else 0)
  }

  /** Every attempt yields either one value or one skip: nothing is retried. */
  lemma {:induction false} CollectedCountsAttempts(read: nat -> Option<int>, n: nat)
    ensures |Collected(read, n)| + FailedReads(read, n) == n
  {
    if n > 0 {
      CollectedCountsAttempts(read, n - 1);
    }
  }

  /** When every attempt succeeds, the batch is the converted raw values in
      the order they were read. */
  lemma {:induction false} CollectedInOrder(read: nat -> Option<int>, n: nat)
    requires forall i :: 0 <= i < n ==> read(i).Some?
    ensures |Collected(read, n)| == n
    ensures forall i :: 0 <= i < n ==> Collected(read, n)[i] == ToCelsius(read(i).value)
  {
    if n > 0 {
      CollectedInOrder(read, n - 1);
    }
  }

  /** When no attempt succeeds the batch is empty. */
  lemma {:induction false} CollectedNothing(read: nat -> Option<int>, n: int)
    requires forall i :: 0 <= i < n ==> read(i).None?
    ensures Collected(read, n) == []
    decreases n
  {
    if n > 0 {
      CollectedNothing(read, n - 1);
    }
  }

  /** The outcome of ReadTemp for a board and a requested number of readings. */
  function ReadTempSpec(board: BoardOracle, numReadings: int): Result<real> {
    if board.lookup.Failed? then Err(board.lookup.err)
    else if board.pinLookup.Failed? then Err(board.pinLookup.err)
    else if board.pinSetHigh.Failed? then Err(board.pinSetHigh.err)
    else if !board.hasTempReader then Err(NoTempReader)
    else FilteredMean(Collected(board.read, numReadings))
  }

  /** Zero successful reads is an error, never a temperature. */
  lemma NoSuccessfulReadIsError(board: BoardOracle, numReadings: int)
    requires forall i :: 0 <= i < numReadings ==> board.read(i).None?
    ensures ReadTempSpec(board, numReadings).Err?
  {
    CollectedNothing(board.read, numReadings);
  }

  /** A temperature is only returned after the pin was powered and the reader
      found, and it lies between the smallest and largest reading taken. */
  lemma ReadTempBounds(board: BoardOracle, numReadings: int)
    requires ReadTempSpec(board, numReadings).Ok?
    ensures board.lookup.Nil? && board.pinLookup.Nil? && board.pinSetHigh.Nil? && board.hasTempReader
    ensures var batch := Collected(board.read, numReadings);
      |batch| > 0 && Min(batch) <= ReadTempSpec(board, numReadings).value <= Max(batch)
  {
  }

  /** Levels sent to pin 12: none if the pin was never reached, the attempt
      to raise it if that failed, and otherwise high then low. */
  function PinCommands(board: BoardOracle): seq<bool> {
    if board.lookup.Failed? || board.pinLookup.Failed? then []
    else if board.pinSetHigh.Failed? then [true]
    else [true, false]
  }

  /** Waits ReadTemp asks for (ms): the settle delay once the pin is high,
      then one gap after each successful reading. */
  function SampleWaits(board: BoardOracle, numReadings: int): seq<nat> {
    if board.lookup.Failed? || board.pinLookup.Failed? || board.pinSetHigh.Failed? then []
    else if !board.hasTempReader then [SettleMillis]
    else [SettleMillis] + Repeat(ReadGapMillis, |Collected(board.read, numReadings)|)
  }

  /** The sampling loop: each of `numReadings` attempts appends one
      converted value to the slice (an array and its length here) or is
      skipped when the read fails. */
  method CollectReadings(read: nat -> Option<int>, numReadings: int)
    returns (readings: array<real>, len: nat, ghost gaps: seq<nat>)
    ensures fresh(readings) && len <= readings.Length
    ensures readings[..len] == Collected(read, numReadings)
    ensures gaps == Repeat(ReadGapMillis, len)
  {
    readings := new real[if numReadings > 0 then numReadings else 0];
    len, gaps := 0, [];
    var i := 0;
    while i < numReadings
      invariant 0 <= len <= i && len <= readings.Length
      invariant numReadings > 0 ==> i <= numReadings
      invariant readings[..len] == Collected(read, i)
      invariant gaps == Repeat(ReadGapMillis, len)
    {
      match read(i) {
        case None =>
        case Some(raw) =>
          readings[len] := ToCelsius(raw);
          len := len + 1;
          gaps := gaps + [ReadGapMillis];
      }
      i := i + 1;
    }
  }

  /** The filtering tail of ReadTemp on a non-empty slice: batches longer
      than five are trimmed, shorter ones averaged as they are. */
  method TrimmedMean(readings: array<real>, len: nat) returns (t: real)
    requires 0 < len <= readings.Length
    modifies readings
    ensures FilteredMean(old(readings[..len])) == Ok(t)
    ensures readings[..len] == if len > TrimThreshold then SortedCopy(old(readings[..len])) else old(readings[..len])
    ensures readings[len..] == old(readings[len..])
  {
    if len > TrimThreshold {
      t := MiddleMean(readings, len);
    } else {
      SmallBatchUntrimmed(readings[..len]);
      t := Mean(readings[..len]);
    }
  }

  /** A batch of more than five values is sorted in place, resliced to
      `[n/3, n - n/3)` and averaged. */
  method MiddleMean(readings: array<real>, len: nat) returns (t: real)
    requires TrimThreshold < len <= readings.Length
    modifies readings
    ensures FilteredMean(old(readings[..len])) == Ok(t)
    ensures readings[..len] == SortedCopy(old(readings[..len]))
    ensures readings[len..] == old(readings[len..])
  {
    ghost var batch := readings[..len];
    SortPrefix(readings, len);
    var sorted := readings[..len];
    assert sorted == SortedCopy(batch);
    var kept := sorted[len / 3 .. len - len / 3];
    assert |batch| == len;
    LargeBatchTrimmed(batch);
    assert FilteredMean(batch) == Ok(Mean(kept));
    t := Mean(kept);
  }

  /** The part of ReadTemp after the reader is found: sample, then filter
      the batch, or fail when no read succeeded. */
  method SampleAndFilter(read: nat -> Option<int>, numReadings: int)
    returns (r: Result<real>, ghost gaps: seq<nat>)
    ensures r == FilteredMean(Collected(read, numReadings))
    ensures gaps == Repeat(ReadGapMillis, |Collected(read, numReadings)|)
  {
    var readings, len;
    readings, len, gaps := CollectReadings(read, numReadings);
    if len == 0 {
      return Err(NoReadings), gaps;
    }
    var t := TrimmedMean(readings, len);
    r := Ok(t);
  }

  /** ReadTemp as the source runs it. Once pin 12 has been set high, every
      later exit sets it low again; if raising it fails, no low is sent. */
  method ReadTemp(board: BoardOracle, numReadings: int)
    returns (r: Result<real>, pin: seq<bool>, ghost waits: seq<nat>)
    ensures r == ReadTempSpec(board, numReadings)
    ensures pin == PinCommands(board)
    ensures waits == SampleWaits(board, numReadings)
  {
    if board.lookup.Failed? {
      return Err(board.lookup.err), [], [];
    }
    if board.pinLookup.Failed? {
      return Err(board.pinLookup.err), [], [];
    }
    if board.pinSetHigh.Failed? {
      return Err(board.pinSetHigh.err), [true], [];
    }
    // from here on, the deferred pin.Set(false) runs on every exit
    if !board.hasTempReader {
      return Err(NoTempReader), [true, false], [SettleMillis];
    }
    ghost var gaps;
    r, gaps := SampleAndFilter(board.read, numReadings);
    pin, waits := [true, false], [SettleMillis] + gaps;
  }
}
