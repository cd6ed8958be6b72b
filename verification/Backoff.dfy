/** The waiting loop of acquireRedisLock (internal/booking/service.go). Times
    are nanoseconds, counted from the start of the wait budget. */
module Backoff {

  const MILLISECOND := 1_000_000

  /** What SET NX says. */
  datatype SetReply = Acquired | Taken | Broken

  datatype LockResult = Locked | EventBusy | RedisFailed

  /** The backoff doubles until it has passed 50 ms. */
  function NextBackoff(b: nat): nat {
    if b < 50 * MILLISECOND then 2 * b else b
  }

  /** The backoff of the i-th wait, counting from 0. */
  function BackoffAt(i: nat): nat {
    if i == 0 then 2 * MILLISECOND else NextBackoff(BackoffAt(i - 1))
  }

  /** Half the backoff plus a jitter below the backoff. */
  function WaitTime(backoff: nat, jitter: nat): nat
    requires backoff > 0
  {
    backoff / 2 + jitter % backoff
  }

  function Pow2(n: nat): nat {
    if n == 0 then 1 else 2 * Pow2(n - 1)
  }

  /** The backoff is 2, 4, 8, 16, 32 and then 64 ms for ever. */
  lemma {:induction false} BackoffValues(i: nat)
    ensures BackoffAt(i) == (if i <= 5 then Pow2(i + 1) else 64) * MILLISECOND
    ensures BackoffAt(i) in {2 * MILLISECOND, 4 * MILLISECOND, 8 * MILLISECOND, 16 * MILLISECOND, 32 * MILLISECOND, 64 * MILLISECOND}
  {
    assert Pow2(1) == 2 && Pow2(2) == 4 && Pow2(3) == 8;
    assert Pow2(4) == 16 && Pow2(5) == 32 && Pow2(6) == 64;
    if i > 0 {
      BackoffValues(i - 1);
    }
  }

  /** Every wait lies in [backoff/2, 3*backoff/2), whatever the jitter. */
  lemma WaitBounds(i: nat, jitter: nat)
    ensures BackoffAt(i) > 0
    ensures BackoffAt(i) <= 2 * WaitTime(BackoffAt(i), jitter) < 3 * BackoffAt(i)
  {
    BackoffValues(i);
  }

  /** Every number of nanoseconds in that range is the wait for exactly one
      jitter below the backoff. */
  lemma EveryWaitFromOneJitter(i: nat, wait: nat)
    requires BackoffAt(i) / 2 <= wait < BackoffAt(i) / 2 + BackoffAt(i)
    ensures BackoffAt(i) > 0 && exists jitter :: 0 <= jitter < BackoffAt(i) && WaitTime(BackoffAt(i), jitter) == wait
    ensures forall j, k :: 0 <= j < k < BackoffAt(i) ==> WaitTime(BackoffAt(i), j) != WaitTime(BackoffAt(i), k)
  {
    var b := BackoffAt(i);
    BackoffValues(i);
    forall j | 0 <= j < b
      ensures WaitTime(b, j) == b / 2 + j
    {
      SmallRemainder(j, b);
    }
    assert WaitTime(b, wait - b / 2) == wait;
  }

  lemma SmallRemainder(j: nat, b: nat)
    requires j < b
    ensures j % b == j
  {
  }

  /** The time that `m` SET NX and the full waits after them take. */
  function Spent(m: nat, latency: nat -> nat, jitter: nat -> nat): nat {
    if m == 0 then 0
    else
      BackoffValues(m - 1);
      Spent(m - 1, latency, jitter) + latency(m - 1) + WaitTime(BackoffAt(m - 1), jitter(m - 1))
  }

  /** The deadline comes before the end of the i-th wait: it has passed when the
      wait begins, or it falls into it, or it coincides with its end and is
      noticed first. */
  ghost predicate TimesOut(i: nat, budget: nat, latency: nat -> nat, jitter: nat -> nat, timerFirst: nat -> bool) {
    || Spent(i, latency, jitter) + latency(i) >= budget
    || Spent(i + 1, latency, jitter) > budget
    || (Spent(i + 1, latency, jitter) == budget && !timerFirst(i))
  }

  /** It is over exactly then: a retry happens only at a time within the budget,
      and every time strictly within it is used. */
  lemma DeadlineDecides(i: nat, budget: nat, latency: nat -> nat, jitter: nat -> nat, timerFirst: nat -> bool)
    ensures Spent(i + 1, latency, jitter) < budget ==> !TimesOut(i, budget, latency, jitter, timerFirst)
    ensures Spent(i + 1, latency, jitter) > budget ==> TimesOut(i, budget, latency, jitter, timerFirst)
    ensures Spent(i + 1, latency, jitter) == budget ==>
              (TimesOut(i, budget, latency, jitter, timerFirst) <==> !timerFirst(i))
    ensures Spent(i, latency, jitter) + latency(i) < Spent(i + 1, latency, jitter)
  {
    WaitBounds(i, jitter(i));
  }

  /** The least time that `m` completed waits take. */
  function LeastWait(m: nat): nat {
    if m == 0 then 0 else LeastWait(m - 1) + BackoffAt(m - 1) / 2
  }

  /** 2^m - 1 ms up to five waits, then 32 ms more with each. */
  lemma {:induction false} LeastWaitValues(m: nat)
    ensures LeastWait(m) == (if m <= 5 then Pow2(m) - 1 else 31 + 32 * (m - 5)) * MILLISECOND
  {
    assert Pow2(1) == 2 && Pow2(2) == 4 && Pow2(3) == 8;
    assert Pow2(4) == 16 && Pow2(5) == 32;
    if m > 0 {
      LeastWaitValues(m - 1);
      BackoffValues(m - 1);
    }
  }

  /** The loop. `reply(i)` and `latency(i)` are the answer to the i-th SET NX and
      the time it took, `jitter(i)` the random number of the i-th wait, and
      `timerFirst(i)` decides when the timer and the deadline fire together.
      `elapsed` is the time at which it returns. */
  method AcquireRedisLock(budget: nat, reply: nat -> SetReply, latency: nat -> nat, jitter: nat -> nat,
                          timerFirst: nat -> bool)
    returns (r: LockResult, attempts: nat, elapsed: nat)
    ensures attempts >= 1
    ensures forall k :: 0 <= k < attempts - 1 ==> reply(k) == Taken
    ensures r == Locked <==> reply(attempts - 1) == Acquired
    ensures r == RedisFailed <==> reply(attempts - 1) == Broken
    ensures forall k :: 0 <= k < attempts - 1 ==> !TimesOut(k, budget, latency, jitter, timerFirst)
    ensures r == EventBusy <==> reply(attempts - 1) == Taken
    ensures r == EventBusy ==> TimesOut(attempts - 1, budget, latency, jitter, timerFirst)
    ensures var answered := Spent(attempts - 1, latency, jitter) + latency(attempts - 1);
            elapsed == if r == EventBusy && answered < budget then budget else answered
    ensures LeastWait(attempts - 1) <= budget && LeastWait(attempts - 1) <= elapsed
  {
    var backoff, waits := 2 * MILLISECOND, 0;
    attempts, elapsed := 0, 0;
    while true
      invariant attempts == waits && backoff == BackoffAt(waits)
      invariant LeastWait(waits) <= elapsed && LeastWait(waits) <= budget
      invariant waits > 0 ==> elapsed <= budget
      invariant elapsed == Spent(waits, latency, jitter)
      invariant forall k :: 0 <= k < waits ==> reply(k) == Taken && !TimesOut(k, budget, latency, jitter, timerFirst)
      decreases if waits == 0 then budget + 1 else budget - elapsed
    {
      var acquired := reply(waits);
      elapsed := elapsed + latency(waits);
      attempts := attempts + 1;
      if acquired == Broken {
        return RedisFailed, attempts, elapsed;
      }
      if acquired == Acquired {
        return Locked, attempts, elapsed;
      }
      WaitBounds(waits, jitter(waits));
      var t := WaitTime(backoff, jitter(waits));
      if elapsed >= budget {
        return EventBusy, attempts, elapsed;
      }
      if elapsed + t > budget || (elapsed + t == budget && !timerFirst(waits)) {
        return EventBusy, attempts, budget;
      }
      elapsed := elapsed + t;
      if backoff < 50 * MILLISECOND {
        backoff := backoff * 2;
      }
      waits := waits + 1;
    }
  }

  /** So a budget allows only so many SET NX: one more with each doubling up to
      31 ms, and then one more for each 32 ms. */
  lemma AttemptsAreBounded(budget: nat, attempts: nat)
    requires attempts >= 1 && LeastWait(attempts - 1) <= budget
    ensures if attempts <= 6 then Pow2(attempts - 1) - 1 <= budget / MILLISECOND
            else 31 + 32 * (attempts - 6) <= budget / MILLISECOND
  {
    LeastWaitValues(attempts - 1);
  }
}
