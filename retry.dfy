/** `executeWithRetry` of the desktop client: a block is run up to
    `maxRetries` times; the first success is returned, each failure but the
    last is followed by a pause that doubles, and when every attempt fails
    a `ConnectionError` carrying the last failure is thrown. The block is a
    parameter giving the outcome of each attempt by its number, and the
    pauses are returned rather than waited for. */
module Retry {
  import opened Wrappers
  import opened HttpMessage

  /** `OllamaConfig.maxRetries`'s default. */
  const DefaultMaxRetries: int := 3

  /** `OllamaError.ConnectionError(message, cause)`, the cause being the
      last failure, null when there was no attempt. */
  datatype RetryError<E> = ConnectionError(message: string, cause: Option<E>)

  /** The outcome, the pauses in milliseconds in the order they are taken,
      and the number of times the block ran. */
  datatype Outcome<T, E> = Outcome(result: Result<T, RetryError<E>>, delays: seq<int>, calls: nat)

  function Pow2(n: nat): (p: nat)
    ensures p >= 1
  {
    if n == 0 then 1 else 2 * Pow2(n - 1)
  }

  /** The most negative 32-bit `Int`, `-2^31`. */
  const IntMin: int := -0x8000_0000

  /** Kotlin's `1 shl k` on a 32-bit `Int`: the shift count is taken modulo
      32, and a shift by 31 sets the sign bit alone. */
  function Shl1(k: nat): (r: int)
    ensures k % 32 < 31 ==> r == Pow2(k % 32)
    ensures k % 32 == 31 ==> r == IntMin
  {
    if k >= 32 then Shl1(k - 32) else if k == 31 then IntMin else Pow2(k)
  }

  /** The pause after the failure that makes the retry count `k`:
      `1000L * (1 shl k)`. */
  function BackoffDelay(k: nat): int
  {
    1000 * Shl1(k)
  }

  function FailureMessage(operation: string, maxRetries: int): string
  {
    "Failed to execute " + operation + " after " + IntToString(maxRetries) + " attempts"
  }

  /** The loop from retry count `k` on, `last` being the last failure so
      far. */
  function Attempts<T, E>(message: string, maxRetries: int, block: nat -> Result<T, E>, k: nat, last: Option<E>): Outcome<T, E>
    decreases maxRetries - k
  {
    if k >= maxRetries then Outcome(Err(ConnectionError(message, last)), [], 0)
    else match block(k)
      case Ok(v) => Outcome(Ok(v), [], 1)
      case Err(e) =>
        var rest := Attempts(message, maxRetries, block, k + 1, Some(e));
        var pause := if k + 1 < maxRetries then [BackoffDelay(k + 1)] else [];
        Outcome(rest.result, pause + rest.delays, rest.calls + 1)
  }

  /** `executeWithRetry`. */
  method ExecuteWithRetry<T, E>(operation: string, maxRetries: int, block: nat -> Result<T, E>)
    returns (r: Result<T, RetryError<E>>, delays: seq<int>, calls: nat)
    ensures Outcome(r, delays, calls) == Attempts(FailureMessage(operation, maxRetries), maxRetries, block, 0, None)
  {
    r, delays, calls := RetryLoop(FailureMessage(operation, maxRetries), maxRetries, block);
  }

  /** The loop of `executeWithRetry`, `message` being the text of the
      error thrown when every attempt fails. */
  method RetryLoop<T, E>(message: string, maxRetries: int, block: nat -> Result<T, E>)
    returns (r: Result<T, RetryError<E>>, delays: seq<int>, calls: nat)
    ensures Outcome(r, delays, calls) == Attempts(message, maxRetries, block, 0, None)
  {
    var retryCount: nat := 0;
    var lastException: Option<E> := None;
    delays, calls := [], 0;
    while retryCount < maxRetries
      invariant Attempts(message, maxRetries, block, 0, None)
        == Then(delays, calls, Attempts(message, maxRetries, block, retryCount, lastException))
      decreases maxRetries - retryCount
    {
      var attempt := block(retryCount);
      calls := calls + 1;
      if attempt.Ok? {
        assert Attempts(message, maxRetries, block, retryCount, lastException) == Outcome(Ok(attempt.value), [], 1);
        return Ok(attempt.value), delays, calls;
      }
      AttemptsStep(message, maxRetries, block, retryCount, lastException, delays, calls - 1);
      lastException := Some(attempt.error);
      retryCount := retryCount + 1;
      if retryCount < maxRetries {
        delays := delays + [BackoffDelay(retryCount)];
      }
    }
    r := Err(ConnectionError(message, lastException));
    assert Attempts(message, maxRetries, block, retryCount, lastException) == Outcome(r, [], 0);
  }

  /** Pauses taken and calls made before an outcome. */
  function Then<T, E>(delays: seq<int>, calls: nat, o: Outcome<T, E>): Outcome<T, E>
  {
    Outcome(o.result, delays + o.delays, calls + o.calls)
  }

  /** The pauses after the failures numbered 1 to `n`. */
  predicate Backoffs(delays: seq<int>, n: nat)
  {
    |delays| == n && forall i | 0 <= i < n :: delays[i] == BackoffDelay(i + 1)
  }

  /** A failed attempt before the last: its pause, if any, is taken and
      the loop goes on with that failure as the last one. */
  lemma AttemptsStep<T, E>(message: string, maxRetries: int, block: nat -> Result<T, E>, k: nat, last: Option<E>,
                           delays: seq<int>, calls: nat)
    requires k < maxRetries && block(k).Err?
    ensures Then(delays, calls, Attempts(message, maxRetries, block, k, last))
      == Then(delays + (if k + 1 < maxRetries then [BackoffDelay(k + 1)] else []), calls + 1,
              Attempts(message, maxRetries, block, k + 1, Some(block(k).error)))
  {
    var pause := if k + 1 < maxRetries then [BackoffDelay(k + 1)] else [];
    var rest := Attempts(message, maxRetries, block, k + 1, Some(block(k).error));
    assert delays + (pause + rest.delays) == delays + pause + rest.delays;
  }

  /** From retry count `k` on the block runs at most `maxRetries - k` times
      and stops at its first success; when none comes it ran every time. */
  lemma {:induction false} AttemptsCalls<T, E>(message: string, maxRetries: int, block: nat -> Result<T, E>, k: nat, last: Option<E>)
    ensures var o := Attempts(message, maxRetries, block, k, last);
      var tries := if maxRetries > k then maxRetries - k else 0;
      && o.calls <= tries
      && (forall j | k <= j < k + o.calls - 1 :: block(j).Err?)
      && (o.result.Ok? ==> 0 < o.calls && block(k + o.calls - 1) == Ok(o.result.value))
      && (o.result.Err? ==> o.calls == tries && (o.calls > 0 ==> block(k + o.calls - 1).Err?))
    decreases maxRetries - k
  {
    var o := Attempts(message, maxRetries, block, k, last);
    if k >= maxRetries {
      assert o.calls == 0 && o.delays == [] && o.result == Err(ConnectionError(message, last));
    } else if block(k).Ok? {
      assert o.calls == 1 && o.delays == [] && o.result == Ok(block(k).value);
    } else {
      var rest := Attempts(message, maxRetries, block, k + 1, Some(block(k).error));
      assert o.result == rest.result && o.calls == rest.calls + 1;
      AttemptsCalls(message, maxRetries, block, k + 1, Some(block(k).error));
      assert block(k + o.calls - 1) == block(k + 1 + rest.calls - 1);
    }
  }

  /** When every attempt from `k` on fails, the error carries the last
      failure, or `last` when there was no attempt. */
  lemma {:induction false} AttemptsError<T, E>(message: string, maxRetries: int, block: nat -> Result<T, E>, k: nat, last: Option<E>)
    ensures var o := Attempts(message, maxRetries, block, k, last);
      o.result.Err? ==>
        || (o.calls == 0 && o.result.error == ConnectionError(message, last))
        || (o.calls > 0 && block(k + o.calls - 1).Err?
            && o.result.error == ConnectionError(message, Some(block(k + o.calls - 1).error)))
    decreases maxRetries - k
  {
    var o := Attempts(message, maxRetries, block, k, last);
    if k >= maxRetries {
      assert o.calls == 0 && o.delays == [] && o.result == Err(ConnectionError(message, last));
    } else if block(k).Ok? {
      assert o.calls == 1 && o.delays == [] && o.result == Ok(block(k).value);
    } else {
      var rest := Attempts(message, maxRetries, block, k + 1, Some(block(k).error));
      assert o.result == rest.result && o.calls == rest.calls + 1;
      AttemptsError(message, maxRetries, block, k + 1, Some(block(k).error));
      assert block(k + o.calls - 1) == block(k + 1 + rest.calls - 1);
    }
  }

  /** From retry count `k` on, a pause follows every failure but a last
      one, doubling each time. */
  lemma {:induction false} AttemptsDelays<T, E>(message: string, maxRetries: int, block: nat -> Result<T, E>, k: nat, last: Option<E>)
    ensures var o := Attempts(message, maxRetries, block, k, last);
      && |o.delays| == (if o.calls == 0 then 0 else o.calls - 1)
      && forall i | 0 <= i < |o.delays| :: o.delays[i] == BackoffDelay(k + i + 1)
    decreases maxRetries - k
  {
    var o := Attempts(message, maxRetries, block, k, last);
    if k >= maxRetries {
      assert o.calls == 0 && o.delays == [] && o.result == Err(ConnectionError(message, last));
    } else if block(k).Ok? {
      assert o.calls == 1 && o.delays == [] && o.result == Ok(block(k).value);
    } else {
      var rest := Attempts(message, maxRetries, block, k + 1, Some(block(k).error));
      var pause := if k + 1 < maxRetries then [BackoffDelay(k + 1)] else [];
      assert o.delays == pause + rest.delays && o.calls == rest.calls + 1;
      AttemptsDelays(message, maxRetries, block, k + 1, Some(block(k).error));
      if k + 1 < maxRetries {
        assert rest.calls > 0;
        forall i | 0 <= i < |o.delays|
          ensures o.delays[i] == BackoffDelay(k + i + 1)
        {
          if i > 0 {
            assert o.delays[i] == rest.delays[i - 1];
          }
        }
      } else {
        assert rest.calls == 0 && rest.delays == [];
      }
    }
  }

  /** The loop of `executeWithRetry` runs the block at most `maxRetries`
      times (not at all when that is not positive). On success the result
      is the first success and every earlier attempt failed; otherwise
      every attempt failed and the error carries the message and the last
      failure. The pauses are `1000 * (1 shl k)` after failure `k`, for
      each failure but the last of a run where all fail. */
  lemma AttemptsOutcome<T, E>(message: string, maxRetries: int, block: nat -> Result<T, E>)
    ensures var o := Attempts(message, maxRetries, block, 0, None);
      && o.calls <= (if maxRetries > 0 then maxRetries else 0)
      && (forall j | 0 <= j < o.calls - 1 :: block(j).Err?)
      && (o.result.Ok? ==> 0 < o.calls && block(o.calls - 1) == Ok(o.result.value))
      && (o.result.Err? ==>
        && o.calls == (if maxRetries > 0 then maxRetries else 0)
        && (forall j | 0 <= j < o.calls :: block(j).Err?)
        && (o.calls == 0 ==> o.result.error == ConnectionError(message, None))
        && (o.calls > 0 ==> o.result.error == ConnectionError(message, Some(block(o.calls - 1).error))))
      && Backoffs(o.delays, if o.calls == 0 then 0 else o.calls - 1)
  {
    AttemptsCalls(message, maxRetries, block, 0, None);
    AttemptsError(message, maxRetries, block, 0, None);
    AttemptsDelays(message, maxRetries, block, 0, None);
  }

  /** With the default of three retries and every attempt failing, the
      block runs three times with pauses of two and then four seconds, and
      the error carries the third failure. */
  lemma DefaultRetriesAllFail<T, E>(operation: string, block: nat -> Result<T, E>)
    requires block(0).Err? && block(1).Err? && block(2).Err?
    ensures var o := Attempts(FailureMessage(operation, DefaultMaxRetries), DefaultMaxRetries, block, 0, None);
      && o.calls == 3
      && o.delays == [2000, 4000]
      && o.result == Err(ConnectionError(FailureMessage(operation, DefaultMaxRetries), Some(block(2).error)))
  {
    var message := FailureMessage(operation, DefaultMaxRetries);
    var o := Attempts(message, DefaultMaxRetries, block, 0, None);
    AttemptsCalls(message, DefaultMaxRetries, block, 0, None);
    AttemptsError(message, DefaultMaxRetries, block, 0, None);
    AttemptsDelays(message, DefaultMaxRetries, block, 0, None);
    assert o.calls == 3;
    assert BackoffDelay(1) == 2000 && BackoffDelay(2) == 4000;
  }
}
