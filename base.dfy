/** Error values and the small result types shared by every part of the model. */
module Base {

  /** The errors that the poller and the HVAC controller see or raise.
      `Remote` stands for any error returned by a device or cloud call the
      model does not look inside; `Wrapped` is an error that wraps another one,
      as Go's `fmt.Errorf("...%w", err)` does. */
  datatype Error =
    | Canceled                // context.Canceled
    | DeadlineExceeded        // context.DeadlineExceeded
    | Remote(code: int)
    | Wrapped(inner: Error)
    | NoTempReader            // "no analog reader 'temp' found"
    | NoReadings              // "no temp readings received"
    | WrongNumberOfResults    // "wrong number of results"
    | NotEnoughSamples        // "not enough samples"

  /** Go's `errors.Is`: the error itself or any error it wraps is `target`. */
  function Is(e: Error, target: Error): (b: bool)
    ensures e == target ==> b
    ensures b && !e.Wrapped? ==> e == target
    ensures e.Wrapped? && Is(e.inner, target) ==> b
  {
    e == target || (e.Wrapped? && Is(e.inner, target))
  }

  /** The error left after removing `k` layers of wrapping, if there are
      that many. */
  function Unwrap(e: Error, k: nat): Option<Error> {
    if k == 0 then Some(e)
    else if e.Wrapped? then Unwrap(e.inner, k - 1)
    else None
  }

  /** `Is` matches exactly the errors that hold `target` at some layer of
      wrapping. */
  lemma {:induction false} IsMatchesSomeLayer(e: Error, target: Error)
    ensures Is(e, target) <==> exists k: nat :: Unwrap(e, k) == Some(target)
  {
    if Is(e, target) {
      if e != target {
        assert e.Wrapped? && Is(e.inner, target);
        IsMatchesSomeLayer(e.inner, target);
        var k: nat :| Unwrap(e.inner, k) == Some(target);
        var depth: nat := k + 1;
        assert Unwrap(e, depth) == Some(target);
        assert exists j: nat :: Unwrap(e, j) == Some(target);
      } else {
        assert Unwrap(e, 0) == Some(target);
        assert exists j: nat :: Unwrap(e, j) == Some(target);
      }
    } else {
      forall k: nat ensures Unwrap(e, k) != Some(target) {
        if k > 0 && e.Wrapped? {
          assert !Is(e.inner, target);
          IsMatchesSomeLayer(e.inner, target);
          assert Unwrap(e, k) == Unwrap(e.inner, k - 1);
        }
      }
    }
  }

  /** A Go `error` value: `Nil` or a failure. */
  datatype Status = Nil | Failed(err: Error)

  /** A value or an error, for calls that return `(T, error)`. */
  datatype Result<T> = Ok(value: T) | Err(error: Error)

  datatype Option<T> = None | Some(value: T)

  /** `n` copies of `x`, used for logs of equal waits. */
  function Repeat<T>(x: T, n: nat): (r: seq<T>)
    ensures |r| == n && forall i :: 0 <= i < n ==> r[i] == x
  {
    if n == 0 then [] else Repeat(x, n - 1) + [x]
  }
}
