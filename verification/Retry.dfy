/** The exponential backoff curve, its total, its overflow guard, and the retry loop that spends it. */
module Retry {
  import opened Int64
  import opened MessageOptions
  import opened Sequences
  import opened Wrappers

  function Pow(b: nat, n: nat): nat {
    if n == 0 then 1 else b * Pow(b, n - 1)
  }

  /** baseDelay * exponent^attempt, capped at maxDelay. */
  function CalculateDelay(p: RetryPolicy, attempt: nat): int
    requires p.exponent >= 0
  {
    var delay := p.baseDelay * Pow(p.exponent, attempt);
    if delay >= p.maxDelay then p.maxDelay else delay
  }

  /** The sum of the first n delays. */
  function Sum(p: RetryPolicy, n: nat): int
    requires p.exponent >= 0
  {
    if n == 0 then 0 else Sum(p, n - 1) + CalculateDelay(p, n - 1)
  }

  /** The field checks of Validate, before its overflow guard. */
  predicate WellFormed(p: RetryPolicy) {
    && p.maxRetries >= 1 && p.maxDelays >= 0
    && p.baseDelay > 0 && p.maxDelay > 0 && p.maxDelay >= p.baseDelay
    && p.exponent >= 1
  }

  /** How many delays a run of the retry loop can request. */
  function Delays(p: RetryPolicy): nat {
    if p.maxRetries <= 1 then 0 else p.maxRetries - 1
  }

  lemma {:induction false} PowGrows(b: nat, n: nat)
    requires b >= 1
    ensures 1 <= Pow(b, n) <= Pow(b, n + 1)
    ensures b == 1 ==> Pow(b, n) == 1
  {
    if n > 0 {
      PowGrows(b, n - 1);
    }
    Scale(Pow(b, n), 1, b);
  }

  lemma Scale(a: int, x: int, y: int)
    requires a >= 0 && x <= y
    ensures a * x <= a * y
  {
  }

  lemma DelayGrows(p: RetryPolicy, a: nat)
    requires WellFormed(p)
    ensures 0 < CalculateDelay(p, a) <= CalculateDelay(p, a + 1) <= p.maxDelay
    ensures p.exponent == 1 ==> CalculateDelay(p, a + 1) == CalculateDelay(p, a)
  {
    PowGrows(p.exponent, a);
    PowGrows(p.exponent, a + 1);
    Scale(p.baseDelay, 1, Pow(p.exponent, a));
    Scale(p.baseDelay, Pow(p.exponent, a), Pow(p.exponent, a + 1));
  }

  /** The curve, step by step: it starts at the base delay, and each delay is the one before times the exponent,
      capped. */
  lemma DelayCompounds(p: RetryPolicy, a: nat)
    requires WellFormed(p)
    ensures CalculateDelay(p, 0) == p.baseDelay
    ensures var next := CalculateDelay(p, a) * p.exponent;
            CalculateDelay(p, a + 1) == if next >= p.maxDelay then p.maxDelay else next
  {
    var d := p.baseDelay * Pow(p.exponent, a);
    assert p.baseDelay * Pow(p.exponent, a + 1) == d * p.exponent;
    Scale(p.maxDelay, 1, p.exponent);
    if d >= p.maxDelay {
      Scale(p.exponent, p.maxDelay, d);
    }
    assert Pow(p.exponent, 0) == 1;
  }

  /** From a constant or capped delay on, every delay is the same. */
  predicate Flat(p: RetryPolicy, a: nat)
    requires p.exponent >= 0
  {
    p.exponent == 1 || CalculateDelay(p, a) == p.maxDelay
  }

  lemma {:induction false} FlatStays(p: RetryPolicy, a: nat, b: nat)
    requires WellFormed(p) && Flat(p, a) && a <= b
    ensures CalculateDelay(p, b) == CalculateDelay(p, a)
  {
    if a < b {
      FlatStays(p, a, b - 1);
      DelayGrows(p, b - 1);
    }
  }

  lemma {:induction false} FlatTail(p: RetryPolicy, a: nat, n: nat)
    requires WellFormed(p) && Flat(p, a) && a <= n
    ensures Sum(p, n) == Sum(p, a) + CalculateDelay(p, a) * (n - a)
  {
    if a < n {
      FlatTail(p, a, n - 1);
      FlatStays(p, a, n - 1);
      assert CalculateDelay(p, a) * (n - 1 - a) + CalculateDelay(p, a) == CalculateDelay(p, a) * (n - a);
    }
  }

  lemma {:induction false} SumGrows(p: RetryPolicy, a: nat, n: nat)
    requires WellFormed(p) && a <= n
    ensures 0 <= Sum(p, a) <= Sum(p, n)
    decreases n
  {
    if a < n {
      SumGrows(p, a, n - 1);
      DelayGrows(p, n - 1);
    } else if n > 0 {
      SumGrows(p, a - 1, n - 1);
      DelayGrows(p, n - 1);
    }
  }

  /** The early exit at the capped tail computes the plain sum. */
  method CalculateTotalDelay(p: RetryPolicy) returns (total: int)
    requires WellFormed(p)
    ensures total == Sum(p, Delays(p))
  {
    total := 0;
    for attempt := 0 to p.maxRetries - 1
      invariant total == Sum(p, attempt)
    {
      var delay := CalculateDelay(p, attempt);
      if p.exponent == 1 || delay == p.maxDelay {
        FlatTail(p, attempt, p.maxRetries - 1);
        return total + delay * (p.maxRetries - 1 - attempt);
      }
      total := total + delay;
    }
  }

  /** Rejects exactly the malformed policies and those whose plain sum of delays is no int64. */
  method Validate(p: RetryPolicy) returns (ok: bool)
    ensures ok <==> WellFormed(p) && Sum(p, Delays(p)) <= MAX_INT64
  {
    if p.maxRetries < 1 || p.maxDelays < 0 {
      return false;
    }
    if p.baseDelay <= 0 || p.maxDelay <= 0 || p.maxDelay < p.baseDelay || p.exponent < 1 {
      return false;
    }
    var remaining := MAX_INT64;
    for attempt := 0 to p.maxRetries - 1
      invariant remaining == MAX_INT64 - Sum(p, attempt) && remaining >= 0
    {
      var delay := CalculateDelay(p, attempt);
      var flat := p.exponent == 1 || delay == p.maxDelay;
      var count := if flat then p.maxRetries - 1 - attempt else 1;
      DelayGrows(p, attempt);
      FitsExactly(delay, count, remaining);
      if flat {
        FlatTail(p, attempt, p.maxRetries - 1);
      }
      if delay > 0 && count > remaining / delay {
        SumGrows(p, attempt + 1, p.maxRetries - 1);
        return false;
      }
      remaining := remaining - delay * count;
      if count > 1 {
        return true;
      }
    }
    return true;
  }

  /** The division guard is exact. */
  lemma FitsExactly(delay: int, count: int, remaining: int)
    requires delay > 0 && count >= 0 && remaining >= 0
    ensures count > remaining / delay <==> delay * count > remaining
  {
    var q := remaining / delay;
    assert remaining == delay * q + remaining % delay;
    if count > q {
      Scale(delay, q + 1, count);
      assert delay * (q + 1) == delay * q + delay;
    } else {
      Scale(delay, count, q);
    }
  }

  // ---- The retry loop ----

  /** What the outside does: the outcome of each call, and whether the context is done before the call and
      during the sleep after it. */
  datatype World<E> = World(outcome: nat -> Option<E>, doneBefore: nat -> bool, doneAsleep: nat -> bool)

  /** An error the loop returns: a call's, or the context's. */
  datatype Returned<E> = FromCall(err: E) | FromContext

  /** The errors of the first n calls, in call order. */
  function CallErrors<E>(w: World<E>, n: nat): seq<Returned<E>>
    requires forall k :: 0 <= k < n ==> w.outcome(k).Some?
  {
    if n == 0 then [] else CallErrors(w, n - 1) + [FromCall(w.outcome(n - 1).value)]
  }

  /** What the loop returned: its joined errors, none of them being success, the calls made and sleeps begun. */
  datatype Spent<E> = Spent(errors: seq<Returned<E>>, calls: nat, sleeps: nat, slept: int)

  /** Every call before the last failed with a retryable error. */
  ghost predicate Retried<E>(w: World<E>, retryable: E -> bool, calls: nat) {
    forall k :: 0 <= k < calls ==> w.outcome(k).Some? && retryable(w.outcome(k).value)
  }

  /** Calls until success, a permanent error, cancellation, or the last allowed attempt. The errors returned are
      those of all calls in order, then the context's if that ended the loop; a success returns none of them. */
  method Wrap<E>(p: RetryPolicy, w: World<E>, retryable: E -> bool) returns (s: Spent<E>)
    requires WellFormed(p)
    ensures s.calls <= p.maxRetries && s.sleeps <= Delays(p) && s.sleeps <= s.calls
    ensures s.slept == Sum(p, s.sleeps) <= Sum(p, Delays(p))
    ensures Retried(w, retryable, if s.calls == 0 then 0 else s.calls - 1)
    ensures s.errors == [] <==> s.calls > 0 && w.outcome(s.calls - 1).None?
    ensures s.errors != [] ==>
              && (forall k :: 0 <= k < s.calls ==> w.outcome(k).Some?)
              && (s.errors == CallErrors(w, s.calls) || s.errors == CallErrors(w, s.calls) + [FromContext])
    ensures s.errors != [] && Last(s.errors).FromCall? ==>
              s.calls == p.maxRetries || !retryable(w.outcome(s.calls - 1).value)
    ensures s.errors != [] && Last(s.errors).FromContext? ==>
              if s.sleeps == s.calls && s.calls > 0 then w.doneAsleep(s.calls - 1) || w.doneBefore(s.calls)
              else s.calls == 0 && w.doneBefore(0)
  {
    var errors: seq<Returned<E>> := [];
    var slept := 0;
    for retry := 0 to p.maxRetries
      invariant retry <= Delays(p) && slept == Sum(p, retry)
      invariant Retried(w, retryable, retry)
      invariant errors == CallErrors(w, retry)
    {
      SumGrows(p, retry, Delays(p));
      if w.doneBefore(retry) {
        return Spent(errors + [FromContext], retry, retry, slept);
      }
      var err := w.outcome(retry);
      if err.None? {
        return Spent([], retry + 1, retry, slept);
      }
      errors := errors + [FromCall(err.value)];
      if !retryable(err.value) {
        return Spent(errors, retry + 1, retry, slept);
      }
      if retry == p.maxRetries - 1 {
        return Spent(errors, retry + 1, retry, slept);
      }
      SumGrows(p, retry + 1, Delays(p));
      slept := slept + CalculateDelay(p, retry);
      if w.doneAsleep(retry) {
        return Spent(errors + [FromContext], retry + 1, retry + 1, slept);
      }
    }
  }

  /** A validated policy bounds the time one wrapped call can sleep. */
  lemma SleepIsInt64(p: RetryPolicy, sleeps: nat)
    requires WellFormed(p) && Sum(p, Delays(p)) <= MAX_INT64 && sleeps <= Delays(p)
    ensures Sum(p, sleeps) <= MAX_INT64 && forall a: nat :: a < Delays(p) ==> CalculateDelay(p, a) <= MAX_INT64
  {
    SumGrows(p, sleeps, Delays(p));
    forall a: nat | a < Delays(p) ensures CalculateDelay(p, a) <= MAX_INT64 {
      SumGrows(p, a, a);
      SumGrows(p, a + 1, Delays(p));
    }
  }
}
