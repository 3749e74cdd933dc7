/**
  The retry loop that runs before the first byte of a response: transient failures are retried up to a
  budget, each wait between the server's own hint and a ceiling, and a rate limit is never retried here.
  Durations are seconds. The random jitter of each wait is any factor between 0.8 and 1.2.
 */
module SendRetry {
  import opened Prelude

  function RMin(a: real, b: real): real { if a <= b then a else b }

  function RMax(a: real, b: real): real { if a >= b then a else b }

  /** A `retry-after-ms` value that parses, and the two forms of `Retry-After` (section 7.1.3 of RFC 7231):
      seconds, or a date, here as its distance from now. */
  datatype RetryAfter = Seconds(n: nat) | Date(fromNow: real) | Unreadable

  datatype Answer =
    | Response(status: nat, afterMs: Option<real>, after: Option<RetryAfter>)
    | SendError(retryable: bool)

  predicate SuccessStatus(status: nat) { 200 <= status < 300 }

  predicate RetryableStatus(status: nat) { status in {429, 500, 502, 503, 504, 524, 529} }

  predicate RateLimitStatus(status: nat) { status in {429, 529} }

  /** Whether the answer is worth another request while the budget lasts. */
  predicate Transient(a: Answer)
  {
    match a
    case Response(status, _, _) => !SuccessStatus(status) && RetryableStatus(status) && !RateLimitStatus(status)
    case SendError(retryable) => retryable
  }

  /** A failure to send that may pass, or one of the five server errors that may. */
  predicate MayPass(a: Answer)
  {
    a == SendError(true) || (a.Response? && a.status in [500, 502, 503, 504, 524])
  }

  lemma TransientIs(a: Answer)
    ensures Transient(a) <==> MayPass(a)
  {
  }

  predicate Delivered(a: Answer)
  {
    a.Response? && SuccessStatus(a.status)
  }

  /** The wait the server asks for, capped. */
  function Hint(a: Answer, cap: real): (h: Option<real>)
    requires cap >= 0.0
    ensures h.Some? ==> 0.0 <= h.value <= cap
  {
    match a
    case SendError(_) => None
    case Response(_, Some(ms), _) => Some(RMin(RMax(ms, 0.0) / 1000.0, cap))
    case Response(_, None, Some(Seconds(n))) => Some(RMin(n as real, cap))
    case Response(_, None, Some(Date(d))) => Some(RMin(RMax(d, 0.0), cap))
    case Response(_, None, Some(Unreadable)) => None
    case Response(_, None, None) => None
  }

  const DURATION_MAX: real := 18446744073709551615.999999999

  function Doubled(base: real, times: nat): (d: real)
    requires base >= 0.0
    ensures d >= base
  {
    if times == 0 then base else 2.0 * Doubled(base, times - 1)
  }

  /** The backoff before jitter and cap: doubling, up to sixteen times. */
  function Exponential(base: real, attempt: nat): (d: real)
    requires base >= 0.0
    ensures d >= 0.0
  {
    RMin(Doubled(base, Min(attempt, 16)), DURATION_MAX)
  }

  lemma Scales(x: real, a: real, b: real)
    requires x >= 0.0 && a >= b
    ensures x * a >= x * b
  {
  }

  function TwoTo(n: nat): nat { if n == 0 then 1 else 2 * TwoTo(n - 1) }

  function Fold(base: real, times: nat): real { base * times as real }

  lemma {:induction false} DoubledIs(base: real, n: nat)
    requires base >= 0.0
    ensures Doubled(base, n) == Fold(base, TwoTo(n))
  {
    if n > 0 {
      DoubledIs(base, n - 1);
      assert TwoTo(n) as real == 2.0 * TwoTo(n - 1) as real;
    }
  }

  lemma TwoToSixteen()
    ensures TwoTo(16) == 65536
  {
    assert TwoTo(4) == 16 && TwoTo(8) == 256 && TwoTo(12) == 4096;
  }

  /** Before jitter and cap, attempt `n` waits the base times two to the `n`, and from the sixteenth on 65,536 times
      the base; never more than the longest duration there is. */
  lemma BackoffDoubles(base: real, attempt: nat, times: nat)
    requires base >= 0.0 && times == if attempt < 16 then TwoTo(attempt) else 65536
    ensures Exponential(base, attempt) == RMin(Fold(base, times), 18446744073709551615.999999999)
  {
    TwoToSixteen();
    var n := Min(attempt, 16);
    assert TwoTo(n) == times;
    DoubledIs(base, n);
  }

  predicate Jitter(factor: real) { 0.8 <= factor <= 1.2 }

  lemma JitterStaysNear(d: real, factor: real)
    requires d >= 0.0 && Jitter(factor)
    ensures 0.8 * d <= d * factor <= 1.2 * d
  {
    Scales(d, factor - 0.8, 0.0);
    Scales(d, 1.2 - factor, 0.0);
    assert d * (factor - 0.8) == d * factor - 0.8 * d;
    assert d * (1.2 - factor) == 1.2 * d - d * factor;
  }

  function Jittered(d: real, factor: real): (j: real)
    requires d >= 0.0 && Jitter(factor)
    ensures 0.8 * d <= j <= 1.2 * d
  {
    JitterStaysNear(d, factor);
    d * factor
  }

  /** The jittered backoff is more than a duration can hold, where the source panics. */
  predicate Overflows(base: real, attempt: nat, factor: real)
    requires base >= 0.0 && Jitter(factor)
  {
    Jittered(Exponential(base, attempt), factor) > DURATION_MAX
  }

  /** Unless the jittered backoff overflows, the wait lies between the larger of the hint and the least
      jittered backoff, and the ceiling; without a hint it is within the jitter of the capped backoff, and a
      hint above the backoff is taken as it is. */
  function Backoff(attempt: nat, hint: Option<real>, base: real, cap: real, factor: real): (wait: Option<real>)
    requires base >= 0.0 && cap >= 0.0 && Jitter(factor)
    requires hint.Some? ==> 0.0 <= hint.value <= cap
    ensures wait.None? <==> Overflows(base, attempt, factor)
    ensures wait.Some? ==> RMin(0.8 * Exponential(base, attempt), cap) <= wait.value <= cap
    ensures wait.Some? && hint.Some? ==> hint.value <= wait.value
    ensures wait.Some? && hint.None? ==> wait.value <= RMin(1.2 * Exponential(base, attempt), cap)
    ensures wait.Some? && hint.Some? && hint.value >= 1.2 * Exponential(base, attempt) ==> wait == hint
  {
    var jittered := Jittered(Exponential(base, attempt), factor);
    if jittered > DURATION_MAX then None
    else
      var exp := RMin(jittered, cap);
      match hint
      case Some(h) => Some(RMin(RMax(h, exp), cap))
      case None => Some(exp)
  }

  lemma DoublingGrows(base: real, m: nat, n: nat)
    requires base >= 0.0 && m <= n
    ensures Doubled(base, m) <= Doubled(base, n)
    decreases n
  {
    if m < n {
      DoublingGrows(base, m, n - 1);
    }
  }

  /** Saturating the doubling does not save the jitter after it: no attempt can overflow, whatever the jitter,
      if and only if sixteen doublings and a fifth more still fit. */
  lemma NoOverflowExactlyWhen(base: real)
    requires base >= 0.0
    ensures (forall attempt: nat, factor :: Jitter(factor) ==> !Overflows(base, attempt, factor))
            <==> 1.2 * Doubled(base, 16) <= DURATION_MAX
  {
    if 1.2 * Doubled(base, 16) <= DURATION_MAX {
      forall attempt: nat, factor | Jitter(factor) ensures !Overflows(base, attempt, factor) {
        DoublingGrows(base, Min(attempt, 16), 16);
        assert Exponential(base, attempt) <= Doubled(base, 16);
      }
    } else {
      assert Jitter(1.2) && Overflows(base, 16, 1.2);
    }
  }

  /** A first retry that overflows: the longest base there is. */
  lemma LongestBaseOverflows()
    ensures Overflows(DURATION_MAX, 0, 1.2)
  {
  }

  /** What an answer asks for, in seconds: its own header in milliseconds before all, then whole seconds or the time
      to a date; nothing that has passed already. */
  predicate AsksFor(a: Answer, seconds: real)
  {
    a.Response? &&
    match a.afterMs
    case Some(ms) => seconds == if ms < 0.0 then 0.0 else ms / 1000.0
    case None =>
      match a.after
      case Some(Seconds(n)) => seconds == n as real
      case Some(Date(fromNow)) => seconds == if fromNow < 0.0 then 0.0 else fromNow
      case _ => false
  }

  /** A wait the server asks for is waited exactly, unless the jittered backoff is longer, which is then waited; an
      answer that asks for none waits the jittered backoff; and nothing waits past the ceiling. */
  lemma AskedWaitIsWaited(a: Answer, attempt: nat, base: real, cap: real, factor: real, seconds: real)
    requires base >= 0.0 && cap >= 0.0 && Jitter(factor) && !Overflows(base, attempt, factor)
    ensures var jittered := Exponential(base, attempt) * factor;
            && (AsksFor(a, seconds) && seconds >= jittered ==>
                  Backoff(attempt, Hint(a, cap), base, cap, factor) == Some(RMin(seconds, cap)))
            && (AsksFor(a, seconds) && seconds <= jittered ==>
                  Backoff(attempt, Hint(a, cap), base, cap, factor) == Some(RMin(jittered, cap)))
            && (Hint(a, cap).None? ==>
                  Backoff(attempt, None, base, cap, factor) == Some(RMin(jittered, cap)))
    ensures Hint(a, cap).None? <==> a.SendError? || (a.afterMs.None? && (a.after.None? || a.after.value.Unreadable?))
  {
  }

  datatype Report = Report(attempt: nat, wait: real)

  function TotalWait(reports: seq<Report>): real
  {
    if reports == [] then 0.0 else TotalWait(reports[..|reports| - 1]) + reports[|reports| - 1].wait
  }

  lemma {:induction false} TotalIsBounded(reports: seq<Report>, cap: real, budget: nat)
    requires cap >= 0.0 && |reports| <= budget && forall i :: 0 <= i < |reports| ==> reports[i].wait <= cap
    ensures TotalWait(reports) <= budget as real * cap
  {
    if reports == [] {
      Scales(cap, budget as real, 0.0);
    } else {
      var last := |reports| - 1;
      TotalIsBounded(reports[..last], cap, budget - 1);
      assert budget as real * cap == (budget - 1) as real * cap + cap;
    }
  }

  datatype End = Success | GivenUp | Panicked

  /** Against any server: the requests go on exactly while answers are transient, the budget lasts and no
      backoff overflows, all with the same body; every retry is reported in order with its wait; the last
      answer decides; and the waits together stay within the budget times the ceiling. */
  method SendWithRetry<Body(==)>(body: Body, answers: nat -> Answer, factors: nat -> real,
                                 maxRetries: nat, base: real, cap: real)
    returns (end: End, last: Answer, requests: seq<Body>, reports: seq<Report>)
    requires base >= 0.0 && cap >= 0.0
    requires forall i: nat :: Jitter(factors(i))
    ensures 1 <= |requests| <= maxRetries + 1
    ensures forall r :: r in requests ==> r == body
    ensures forall i :: 0 <= i < |requests| - 1 ==> MayPass(answers(i)) && !Overflows(base, i, factors(i))
    ensures var n := |requests| - 1;
            && last == answers(n)
            && (end == Success <==> last.Response? && 200 <= last.status < 300)
            && (end == Panicked <==> MayPass(last) && n < maxRetries && Overflows(base, n, factors(n)))
            && (end == GivenUp ==> !MayPass(last) || n == maxRetries)
    ensures forall i :: 0 <= i < |requests| && answers(i).Response? && answers(i).status in [429, 529] ==>
              i == |requests| - 1
    ensures |reports| == |requests| - 1
    ensures forall i :: 0 <= i < |reports| ==>
              && reports[i].attempt == i + 1
              && Some(reports[i].wait) == Backoff(i, Hint(answers(i), cap), base, cap, factors(i))
              && 0.0 <= reports[i].wait <= cap
    ensures TotalWait(reports) <= maxRetries as real * cap
  {
    var attempt := 0;
    requests, reports := [], [];
    while true
      invariant attempt <= maxRetries && |requests| == |reports| == attempt
      invariant forall r :: r in requests ==> r == body
      invariant forall i :: 0 <= i < attempt ==> MayPass(answers(i)) && !Overflows(base, i, factors(i))
      invariant forall i :: 0 <= i < attempt ==>
                  && reports[i].attempt == i + 1
                  && Some(reports[i].wait) == Backoff(i, Hint(answers(i), cap), base, cap, factors(i))
                  && 0.0 <= reports[i].wait <= cap
      decreases maxRetries - attempt
    {
      requests := requests + [body];
      last := answers(attempt);
      TransientIs(last);
      if Delivered(last) {
        end := Success;
        break;
      }
      if !Transient(last) || attempt >= maxRetries {
        end := GivenUp;
        break;
      }
      var wait := Backoff(attempt, Hint(last, cap), base, cap, factors(attempt));
      if wait.None? {
        end := Panicked;
        break;
      }
      attempt := attempt + 1;
      reports := reports + [Report(attempt, wait.value)];
    }
    TotalIsBounded(reports, cap, maxRetries);
  }
}
