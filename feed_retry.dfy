/**
 * The retry policy of src/data_manager.py, monitor_exchange_with_retry: up to max_retries
 * monitoring attempts, stopping at the first one that returns, with a capped exponential
 * wait after each failed attempt except the last.
 */
module FeedRetry {

  /** The retry count used when the caller gives none. */
  const DefaultMaxRetries: int := 5

  /** The wait after the first failure, in seconds. */
  const BaseWait: nat := 10

  /** The longest wait, in seconds (five minutes). */
  const MaxWait: nat := 300

  function Pow2(k: nat): (r: nat)
    ensures r >= 1
  {
    if k == 0 then 1 else 2 * Pow2(k - 1)
  }

  lemma {:induction false} Pow2Monotone(j: nat, k: nat)
    requires j <= k
    ensures Pow2(j) <= Pow2(k)
    decreases k
  {
    if j < k {
      Pow2Monotone(j, k - 1);
    }
  }

  /** The wait computed after failed attempt `attempt` (counted from 0): min(300, 2^attempt * 10). */
  function Backoff(attempt: nat): (w: nat)
    ensures w <= MaxWait
    ensures w <= BaseWait * Pow2(attempt)
    ensures w == MaxWait || w == BaseWait * Pow2(attempt)
  {
    var grown := Pow2(attempt) * BaseWait;
    if MaxWait <= grown then MaxWait else grown
  }

  /** Waits never shrink from one failure to the next. */
  lemma BackoffMonotone(j: nat, k: nat)
    requires j <= k
    ensures Backoff(j) <= Backoff(k)
  {
    Pow2Monotone(j, k);
  }

  /** From the sixth failure on (attempt index 5), every wait is the five-minute cap. */
  lemma BackoffCapped(k: nat)
    requires k >= 5
    ensures Backoff(k) == MaxWait
  {
    Pow2Monotone(5, k);
    assert Pow2(5) == 32;
  }

  /** The waits after failed attempts 0 .. n-1, in order. */
  function Schedule(n: nat): (r: seq<nat>)
    ensures |r| == n
    ensures forall k :: 0 <= k < n ==> r[k] == Backoff(k)
  {
    if n == 0 then [] else Schedule(n - 1) + [Backoff(n - 1)]
  }

  /** With the default of five attempts the sleeps are 10, 20, 40 and 80 seconds. */
  lemma DefaultSchedule()
    ensures Schedule(DefaultMaxRetries - 1) == [10, 20, 40, 80]
  {
    assert Pow2(1) == 2 && Pow2(2) == 4 && Pow2(3) == 8;
  }

  function Max(x: int, y: int): int {
    if x >= y then x else y
  }

  /**
   * monitor_exchange_with_retry.  `attemptOk(k)` says whether the monitoring attempt with
   * index k returns normally (true) or raises (false); it stands for the network.  The
   * outputs are the number of attempts made, whether the last one succeeded, and the
   * sleeps taken, in order.  Exceptions never leave the loop: the method always returns.
   */
  method MonitorWithRetry(maxRetries: int, attemptOk: nat -> bool)
    returns (attempts: nat, succeeded: bool, waits: seq<nat>)
    ensures attempts <= Max(maxRetries, 0)
    ensures forall k :: 0 <= k < attempts - 1 ==> !attemptOk(k)
    ensures succeeded <==> attempts > 0 && attemptOk(attempts - 1)
    ensures !succeeded ==> attempts == Max(maxRetries, 0)
    ensures waits == Schedule(if succeeded then attempts - 1 else Max(maxRetries - 1, 0))
  {
    attempts, succeeded, waits := 0, false, [];
    var attempt: nat := 0;
    while attempt < maxRetries
      invariant attempts == attempt <= Max(maxRetries, 0)
      invariant forall k :: 0 <= k < attempt ==> !attemptOk(k)
      invariant waits == Schedule(if attempt == maxRetries && attempt > 0 then attempt - 1 else attempt)
    {
      attempts := attempts + 1;
      if attemptOk(attempt) {
        succeeded := true;
        return;
      }
      var waitTime := Backoff(attempt);
      if attempt < maxRetries - 1 {
        waits := waits + [waitTime];
      }
      attempt := attempt + 1;
    }
  }
}
