/** The device session: RobotClient's bounded connect loop with backoff and
    GoToSleep's acknowledgement rule. The connector is an oracle that gives
    the outcome of each dial attempt. */
module DeviceSession {
  import opened Base

  /** How long RobotClient sleeps after a failed attempt: the attempt's
      index in seconds (microtemp.go) or a fixed number of seconds (main.go
      and microtemp/microtemp.go, 1 s). */
  datatype Backoff = LinearBackoff | FixedBackoff(seconds: nat)

  function Delay(b: Backoff, attempt: nat): nat {
    match b
    case LinearBackoff => attempt
    case FixedBackoff(s) => s
  }

  /** The waits requested after the first `n` failed attempts, in order. */
  function Backoffs(b: Backoff, n: nat): (w: seq<nat>)
    ensures |w| == n && forall i :: 0 <= i < n ==> w[i] == Delay(b, i)
  {
    if n == 0 then [] else Backoffs(b, n - 1) + [Delay(b, n - 1)]
  }

  function Total(w: seq<nat>): nat {
    if w == [] then 0 else Total(w[..|w| - 1]) + w[|w| - 1]
  }

  /** The waits after `n + 1` failures are those after `n` and one more. */
  lemma TotalStep(b: Backoff, n: nat)
    ensures Total(Backoffs(b, n + 1)) == Total(Backoffs(b, n)) + Delay(b, n)
  {
    var w := Backoffs(b, n + 1);
    assert w[..n] == Backoffs(b, n);
  }

  lemma NextTriangle(m: int)
    ensures (m + 1) * (m + 1 - 1) == m * (m - 1) + 2 * m
  {
  }

  lemma NextMultiple(m: int, k: int)
    ensures (m + 1) * k == m * k + k
  {
  }

  /** After `n` failures the linear policy has waited 0 + 1 + ... + (n-1)
      seconds. */
  lemma {:induction false} TotalLinearBackoff(n: nat)
    ensures 2 * Total(Backoffs(LinearBackoff, n)) == n * (n - 1)
  {
    if n > 0 {
      TotalLinearBackoff(n - 1);
      TotalStep(LinearBackoff, n - 1);
      NextTriangle(n - 1);
    }
  }

  /** After `n` failures the fixed policy has waited `n` times its delay. */
  lemma {:induction false} TotalFixedBackoff(seconds: nat, n: nat)
    ensures Total(Backoffs(FixedBackoff(seconds), n)) == n * seconds
  {
    if n > 0 {
      TotalFixedBackoff(seconds, n - 1);
      TotalStep(FixedBackoff(seconds), n - 1);
      NextMultiple(n - 1, seconds);
    }
  }

  /** A connected robot client; `attempt` is the index of the dial that
      produced it. */
  datatype Session = Session(attempt: nat)

  datatype Connection = Connection(client: Option<Session>, err: Status)

  /** The first successful attempt among `from .. n-1`, if any. */
  function FirstSuccess(dial: nat -> Status, from: nat, n: int): (k: Option<nat>)
    ensures k.Some? ==> from <= k.value < n && dial(k.value).Nil?
    ensures k.Some? ==> forall j :: from <= j < k.value ==> dial(j).Failed?
    ensures k.None? ==> forall j :: from <= j < n ==> dial(j).Failed?
    decreases n - from
  {
    if from >= n then None
    else if dial(from).Nil? then Some(from)
    else FirstSuccess(dial, from + 1, n)
  }

  /** What RobotClient returns for `numRetries` attempts: the client of the
      first successful attempt, or, when all fail, no client and the last
      attempt's error; with no attempt at all, no client and a nil error. */
  function Connect(dial: nat -> Status, numRetries: int): (c: Connection)
    ensures c.client.Some? ==> c.err == Nil && c.client.value.attempt < numRetries
    ensures c.client.Some? ==> dial(c.client.value.attempt).Nil?
    ensures c.client.Some? ==> forall j :: 0 <= j < c.client.value.attempt ==> dial(j).Failed?
    ensures c.client.None? ==> forall j :: 0 <= j < numRetries ==> dial(j).Failed?
    ensures c.client.None? ==> c.err == if numRetries > 0 then dial(numRetries - 1) else Nil
  {
    match FirstSuccess(dial, 0, numRetries)
    case Some(k) => Connection(Some(Session(k)), Nil)
    case None => Connection(None, if numRetries > 0 then dial(numRetries - 1) else Nil)
  }

  /** Number of dial attempts RobotClient makes. */
  function Attempts(dial: nat -> Status, numRetries: int): (n: nat)
    ensures n <= (if numRetries > 0 then numRetries else 0)
  {
    match FirstSuccess(dial, 0, numRetries)
    case Some(k) => k + 1
    case None => if numRetries > 0 then numRetries else 0
  }

  /** Number of failed attempts, each followed by a backoff wait. */
  function FailedAttempts(dial: nat -> Status, numRetries: int): nat {
    match FirstSuccess(dial, 0, numRetries)
    case Some(k) => k
    case None => if numRetries > 0 then numRetries else 0
  }

  /** RobotClient: up to `numRetries` dial attempts, each under a deadline
      of `timeout` seconds; it returns at the first success and sleeps the
      backoff after every failed attempt, the last one included. */
  method RobotClient(dial: nat -> Status, numRetries: int, backoff: Backoff, timeout: nat)
    returns (client: Option<Session>, err: Status, ghost deadlines: seq<nat>, ghost waits: seq<nat>)
    ensures Connection(client, err) == Connect(dial, numRetries)
    ensures deadlines == Repeat(timeout, Attempts(dial, numRetries))
    ensures waits == Backoffs(backoff, FailedAttempts(dial, numRetries))
  {
    client, err, deadlines, waits := None, Nil, [], [];
    var i := 0;
    while i < numRetries
      invariant 0 <= i && (numRetries > 0 ==> i <= numRetries) && (numRetries <= 0 ==> i == 0)
      invariant FirstSuccess(dial, 0, numRetries) == FirstSuccess(dial, i, numRetries)
      invariant err == if i > 0 then dial(i - 1) else Nil
      invariant deadlines == Repeat(timeout, i)
      invariant waits == Backoffs(backoff, i)
    {
      deadlines := deadlines + [timeout];
      err := dial(i);
      if err.Nil? {
        client := Some(Session(i));
        return;
      }
      waits := waits + [Delay(backoff, i)];
      i := i + 1;
    }
  }

  /** The device acknowledges SetPowerMode by dropping the call, so a
      Canceled or DeadlineExceeded outcome (possibly wrapped) means it went
      to sleep; any other error is passed on unchanged. */
  function SleepAck(powerMode: Status): (r: Status)
    ensures r.Nil? <==> powerMode.Nil? || Is(powerMode.err, Canceled) || Is(powerMode.err, DeadlineExceeded)
    ensures r.Failed? ==> r == powerMode
  {
    if powerMode.Failed? && (Is(powerMode.err, Canceled) || Is(powerMode.err, DeadlineExceeded)) then Nil
    else powerMode
  }

  /** GoToSleep succeeds exactly when the board is found and the power-mode
      request ends without error or in Canceled/DeadlineExceeded; a failure
      is the board lookup's error or the request's own error, unchanged. */
  function GoToSleep(boardLookup: Status, powerMode: Status): (r: Status)
    ensures r.Nil? <==> (boardLookup.Nil? &&
                         (powerMode.Nil? || Is(powerMode.err, Canceled) || Is(powerMode.err, DeadlineExceeded)))
    ensures r.Failed? ==> r == if boardLookup.Failed? then boardLookup else powerMode
  {
    if boardLookup.Failed? then boardLookup else SleepAck(powerMode)
  }

  /** A connector that fails twice and then succeeds yields the third
      attempt's client after 3 attempts and 0 + 1 seconds of linear backoff. */
  lemma ConnectOnThirdAttempt(dial: nat -> Status)
    requires dial(0).Failed? && dial(1).Failed? && dial(2).Nil?
    ensures Connect(dial, 5) == Connection(Some(Session(2)), Nil)
    ensures Attempts(dial, 5) == 3 && Backoffs(LinearBackoff, FailedAttempts(dial, 5)) == [0, 1]
  {
    assert FirstSuccess(dial, 0, 5) == FirstSuccess(dial, 1, 5) == FirstSuccess(dial, 2, 5) == Some(2);
  }

  /** A connector that always fails yields no client and the fifth attempt's
      error after exactly 5 attempts. */
  lemma ConnectExhausted(dial: nat -> Status)
    requires forall j :: 0 <= j < 5 ==> dial(j).Failed?
    ensures Connect(dial, 5) == Connection(None, dial(4))
    ensures Attempts(dial, 5) == 5 && FailedAttempts(dial, 5) == 5
  {
  }
}
