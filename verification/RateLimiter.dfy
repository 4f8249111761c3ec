/**
 The fixed-window rate limiter (src/sky_rate_limit.cc).  Times are whole
 nanoseconds of the steady clock.  A call reads the clock up to three times,
 and its compare-and-exchange on the reset lock may fail spuriously; both are
 inputs of the model.
 */
module RateLimiter {
  import opened Wrappers

  const NANOS := 1_000_000_000

  /** The clock readings of one call in order, and whether its weak compare-and-exchange fails spuriously. */
  datatype Call = Call(t: int, again: int, last: int, spurious: bool)

  datatype Limiter = Limiter(rate: int, seconds: int, start: int, count: int, locked: bool)

  function Window(l: Limiter): int {
    l.seconds * NANOS
  }

  // ---------- The code ----------

  class FixedWindowRateLimiter {
    const rate: int
    const timeWindow: int
    var currentCount: int
    var startTime: int
    var resetLock: bool

    constructor (rate: int, seconds: int, now: int)
      ensures View() == Limiter(rate, if seconds < 1 then 1 else seconds, now, 0, false)
    {
      this.rate := rate;
      currentCount, resetLock := 0, false;
      if seconds < 1 {
        timeWindow := 1;
      } else {
        timeWindow := seconds;
      }
      startTime := now;
    }

    ghost function View(): Limiter
      reads this
    {
      Limiter(rate, timeWindow, startTime, currentCount, resetLock)
    }

    method Validate(c: Call) returns (admitted: bool)
      requires timeWindow >= 1
      modifies this
      ensures View() == Next(old(View()), c)
      ensures admitted == Admits(old(View()), c)
      ensures rate < 1 ==> admitted && View() == old(View())
    {
      if rate < 1 {
        return true;
      }
      var span := c.t - startTime;
      if span > timeWindow * NANOS {
        var exchanged := !resetLock && !c.spurious;
        if exchanged {
          resetLock := true;
          if c.again - startTime > timeWindow * NANOS {
            var timeSpan := span / NANOS;
            timeSpan := timeSpan - timeSpan % timeWindow;
            startTime := startTime + timeSpan * NANOS;
            span := c.last - startTime;
            currentCount := 0;
            resetLock := false;
          }
        }
      }
      currentCount := currentCount + 1;
      if currentCount > rate && span < timeWindow * NANOS {
        return false;
      }
      return true;
    }
  }

  // ---------- The same as a function of the state ----------

  /** Whether the call realigns the window. */
  predicate Resets(l: Limiter, c: Call) {
    c.t - l.start > Window(l) && !l.locked && !c.spurious && c.again - l.start > Window(l)
  }

  function Realigned(l: Limiter, c: Call): int
    requires l.seconds >= 1
  {
    l.start + ((c.t - l.start) / NANOS - (c.t - l.start) / NANOS % l.seconds) * NANOS
  }

  function Next(l: Limiter, c: Call): Limiter
    requires l.seconds >= 1
  {
    if l.rate < 1 then l
    else if Resets(l, c) then l.(start := Realigned(l, c), count := 1)
    else
      l.(count := l.count + 1,
         locked := l.locked || (c.t - l.start > Window(l) && !c.spurious))
  }

  predicate Admits(l: Limiter, c: Call)
    requires l.seconds >= 1
  {
    || l.rate < 1
    || Next(l, c).count <= l.rate
    || (if Resets(l, c) then c.last else c.t) - Next(l, c).start >= Window(l)
  }

  // ---------- Histories ----------

  /** Calls one after the other: the clock never runs backwards. */
  predicate Ordered(from: int, calls: seq<Call>)
    decreases |calls|
  {
    calls == [] ||
    (from <= calls[0].t <= calls[0].again <= calls[0].last && Ordered(calls[0].last, calls[1..]))
  }

  /** The limiter before call i, or after the last call. */
  function At(l: Limiter, calls: seq<Call>, i: nat): Limiter
    requires l.seconds >= 1 && i <= |calls|
    ensures At(l, calls, i).seconds == l.seconds && At(l, calls, i).rate == l.rate
  {
    if i == 0 then l else Next(At(l, calls, i - 1), calls[i - 1])
  }

  predicate Fresh(l: Limiter) {
    l.rate >= 1 && l.seconds >= 1 && l.count == 0 && !l.locked
  }

  lemma {:induction false} OrderedAt(from: int, calls: seq<Call>, i: nat)
    requires Ordered(from, calls) && i < |calls|
    ensures from <= calls[i].t <= calls[i].again <= calls[i].last
    ensures i > 0 ==> calls[i - 1].last <= calls[i].t
    decreases i
  {
    if i > 0 {
      OrderedAt(calls[0].last, calls[1..], i - 1);
    }
  }

  // ---------- Realignment ----------

  /** `a` and `b` lie a whole number of windows apart. */
  ghost predicate Aligned(a: int, b: int, w: int) {
    exists k: int :: a == b + k * w
  }

  lemma MultipleSign(k: int, w: int)
    requires w > 0
    ensures k >= 0 <==> k * w >= 0
  {
  }

  lemma AlignedTransitive(a: int, b: int, c: int, w: int)
    requires Aligned(a, b, w) && Aligned(b, c, w)
    ensures Aligned(a, c, w)
  {
    var j :| a == b + j * w;
    var k :| b == c + k * w;
    assert a == c + (j + k) * w;
  }

  /** A reset moves the start to the aligned window that contains the call. */
  lemma ResetRealigns(l: Limiter, c: Call)
    requires l.seconds >= 1 && Resets(l, c)
    ensures Aligned(Realigned(l, c), l.start, Window(l))
    ensures Realigned(l, c) <= c.t < Realigned(l, c) + Window(l)
    ensures l.start < Realigned(l, c)
  {
    var span := c.t - l.start;
    var q, w := span / NANOS, l.seconds;
    var m := q / w;
    assert q - q % w == m * w;
    assert (m * w) * NANOS == m * (w * NANOS);
    assert Realigned(l, c) == l.start + m * Window(l);
    assert q < m * w + w;
    assert span < (q + 1) * NANOS <= (m * w + w) * NANOS;
    assert span < Realigned(l, c) - l.start + Window(l);
    MultipleSign(m - 1, Window(l));
    assert (m - 1) * Window(l) == m * Window(l) - Window(l);
  }

  /** What holds between calls: the lock is free and the start is aligned with the first one, and not in the future. */
  lemma {:induction false} BetweenCalls(l: Limiter, calls: seq<Call>, i: nat)
    requires Fresh(l) && Ordered(l.start, calls) && i <= |calls|
    ensures var s := At(l, calls, i);
            && !s.locked && Aligned(s.start, l.start, Window(l)) && l.start <= s.start
            && (i < |calls| ==> s.start <= calls[i].t)
            && (i > 0 ==> s.start <= calls[i - 1].t)
  {
    if i == 0 {
      assert l.start == l.start + 0 * Window(l);
      if |calls| > 0 {
        OrderedAt(l.start, calls, 0);
      }
    } else {
      BetweenCalls(l, calls, i - 1);
      OrderedAt(l.start, calls, i - 1);
      var s := At(l, calls, i - 1);
      if Resets(s, calls[i - 1]) {
        ResetRealigns(s, calls[i - 1]);
        AlignedTransitive(Realigned(s, calls[i - 1]), s.start, l.start, Window(l));
      }
      if i < |calls| {
        OrderedAt(l.start, calls, i);
      }
    }
  }

  /**
   Exactly when the window moves: a call behind its end moves it to the aligned
   window that contains the call, unless the exchange fails; no other call does.
   */
  lemma WindowFollowsCalls(l: Limiter, calls: seq<Call>, i: nat)
    requires Fresh(l) && Ordered(l.start, calls) && i < |calls|
    ensures var s, t, c := At(l, calls, i), At(l, calls, i + 1), calls[i];
            if c.t > s.start + Window(l) && !c.spurious
            then t.start <= c.t < t.start + Window(l) && Aligned(t.start, l.start, Window(l)) && t.count == 1
            else t.start == s.start && t.count == s.count + 1
  {
    BetweenCalls(l, calls, i);
    BetweenCalls(l, calls, i + 1);
    OrderedAt(l.start, calls, i);
    if Resets(At(l, calls, i), calls[i]) {
      ResetRealigns(At(l, calls, i), calls[i]);
    }
  }

  // ---------- No limit ----------

  /** A rate below one, such as the default of -1, means no limit: every call of every history is admitted. */
  lemma {:induction false} UnlimitedAdmitsEverything(l: Limiter, calls: seq<Call>, i: nat)
    requires l.rate < 1 && l.seconds >= 1 && i <= |calls|
    ensures At(l, calls, i) == l
    ensures i < |calls| ==> Admits(At(l, calls, i), calls[i])
  {
    if i > 0 {
      UnlimitedAdmitsEverything(l, calls, i - 1);
    }
  }

  // ---------- Exact admission ----------

  /** How many of the first n calls were charged to the window that starts at `start`. */
  function Charged(l: Limiter, calls: seq<Call>, n: nat, start: int): nat
    requires l.seconds >= 1 && n <= |calls|
  {
    if n == 0 then 0
    else Charged(l, calls, n - 1, start) + if At(l, calls, n).start == start then 1 else 0
  }

  lemma {:induction false} NoneChargedAhead(l: Limiter, calls: seq<Call>, n: nat, start: int)
    requires Fresh(l) && Ordered(l.start, calls) && n <= |calls| && At(l, calls, n).start < start
    ensures Charged(l, calls, n, start) == 0
  {
    if n > 0 {
      StartOnlyGrows(l, calls, n - 1);
      NoneChargedAhead(l, calls, n - 1, start);
    }
  }

  lemma StartOnlyGrows(l: Limiter, calls: seq<Call>, i: nat)
    requires Fresh(l) && Ordered(l.start, calls) && i < |calls|
    ensures At(l, calls, i).start <= At(l, calls, i + 1).start
  {
  }

  /** The counter is the number of calls charged to the current window. */
  lemma {:induction false} CountIsCharged(l: Limiter, calls: seq<Call>, n: nat)
    requires Fresh(l) && Ordered(l.start, calls) && n <= |calls|
    ensures At(l, calls, n).count == Charged(l, calls, n, At(l, calls, n).start)
  {
    if n > 0 {
      CountIsCharged(l, calls, n - 1);
      var s := At(l, calls, n - 1);
      if Resets(s, calls[n - 1]) {
        ResetRealigns(s, calls[n - 1]);
        NoneChargedAhead(l, calls, n - 1, At(l, calls, n).start);
      }
    }
  }

  /**
   A call is refused exactly if it falls before the end of its window and at
   least `rate` earlier calls were charged to the same window.
   */
  lemma RefusedIff(l: Limiter, calls: seq<Call>, i: nat)
    requires Fresh(l) && Ordered(l.start, calls) && i < |calls|
    ensures var start := At(l, calls, i + 1).start;
            !Admits(At(l, calls, i), calls[i]) <==>
            calls[i].t < start + Window(l) && Charged(l, calls, i, start) >= l.rate
  {
    BetweenCalls(l, calls, i);
    var s := At(l, calls, i);
    CountIsCharged(l, calls, i);
    CountIsCharged(l, calls, i + 1);
    if Resets(s, calls[i]) {
      ResetRealigns(s, calls[i]);
      NoneChargedAhead(l, calls, i, At(l, calls, i + 1).start);
    }
  }

  // ---------- How many calls are admitted ----------

  predicate Within(t: int, lo: int, hi: int) {
    lo <= t < hi
  }

  /** How many of the first n calls are admitted at a time in [lo, hi). */
  function AdmittedIn(l: Limiter, calls: seq<Call>, n: nat, lo: int, hi: int): nat
    requires l.seconds >= 1 && n <= |calls|
  {
    if n == 0 then 0
    else AdmittedIn(l, calls, n - 1, lo, hi)
         + if Within(calls[n - 1].t, lo, hi) && Admits(At(l, calls, n - 1), calls[n - 1]) then 1 else 0
  }

  /** How many of the first n calls in [lo, hi) have a compare-and-exchange that fails spuriously. */
  function SpuriousIn(calls: seq<Call>, n: nat, lo: int, hi: int): nat
    requires n <= |calls|
  {
    if n == 0 then 0
    else SpuriousIn(calls, n - 1, lo, hi)
         + if Within(calls[n - 1].t, lo, hi) && calls[n - 1].spurious then 1 else 0
  }

  /** The admissions a window that starts at `at` may have seen when the limiter is in state `s`. */
  function Quota(s: Limiter, at: int): int {
    if s.start < at then 0 else if s.start == at then Min(s.count, s.rate) else s.rate
  }

  /** A call strictly inside a window finds or puts the start at that window, unless its exchange fails. */
  lemma CallInsideWindow(s: Limiter, c: Call, at: int)
    requires s.seconds >= 1 && !s.locked && s.start <= c.t <= c.again && !c.spurious
    requires Aligned(s.start, at, Window(s)) && at < c.t < at + Window(s)
    ensures if Resets(s, c) then s.start < at && Realigned(s, c) == at else s.start == at
  {
    var w := Window(s);
    if Resets(s, c) {
      ResetRealigns(s, c);
      AlignedTransitive(Realigned(s, c), s.start, at, w);
      SameWindow(Realigned(s, c), at, w);
    } else {
      SameWindow(s.start, at, w);
    }
  }

  lemma SameWindow(a: int, b: int, w: int)
    requires w > 0 && Aligned(a, b, w) && b - w < a < b + w
    ensures a == b
  {
  }

  lemma AlignedReverse(a: int, b: int, w: int)
    requires Aligned(a, b, w)
    ensures Aligned(b, a, w)
  {
    var k :| a == b + k * w;
    assert b == a + (-k) * w;
  }

  /** A part of an open window has seen at most the quota so far, and one more for each spurious failure. */
  lemma {:induction false} QuotaBound(l: Limiter, calls: seq<Call>, n: nat, at: int, lo: int, hi: int)
    requires Fresh(l) && Ordered(l.start, calls) && n <= |calls|
    requires Aligned(at, l.start, Window(l)) && at < lo && hi <= at + Window(l)
    ensures AdmittedIn(l, calls, n, lo, hi) <= Quota(At(l, calls, n), at) + SpuriousIn(calls, n, lo, hi)
    ensures At(l, calls, n).count >= 0
  {
    if n > 0 {
      QuotaBound(l, calls, n - 1, at, lo, hi);
      BetweenCalls(l, calls, n - 1);
      OrderedAt(l.start, calls, n - 1);
      var s, c := At(l, calls, n - 1), calls[n - 1];
      AlignedReverse(at, l.start, Window(l));
      AlignedTransitive(s.start, l.start, at, Window(l));
      if Within(c.t, lo, hi) && !c.spurious {
        CallInsideWindow(s, c, at);
      }
      QuotaStep(s, c, at, Within(c.t, lo, hi));
    }
  }

  lemma QuotaStep(s: Limiter, c: Call, at: int, inside: bool)
    requires s.rate >= 1 && s.seconds >= 1 && s.count >= 0 && !s.locked && s.start <= c.t <= c.again
    requires inside ==> at < c.t < at + Window(s)
    requires inside && !c.spurious ==>
               if Resets(s, c) then s.start < at && Realigned(s, c) == at else s.start == at
    ensures Next(s, c).count >= 0
    ensures Quota(s, at) + (if inside && Admits(s, c) then 1 else 0)
         <= Quota(Next(s, c), at) + (if inside && c.spurious then 1 else 0)
  {
  }

  /** Strictly inside one aligned window at most `rate` calls are admitted, and one more per spurious failure. */
  lemma AlignedWindowBound(l: Limiter, calls: seq<Call>, at: int)
    requires Fresh(l) && Ordered(l.start, calls) && Aligned(at, l.start, Window(l))
    ensures var lo, hi := at + 1, at + Window(l);
            AdmittedIn(l, calls, |calls|, lo, hi) <= l.rate + SpuriousIn(calls, |calls|, lo, hi)
  {
    QuotaBound(l, calls, |calls|, at, at + 1, at + Window(l));
  }

  /** The first window boundary at or after a time. */
  function NextBoundary(l: Limiter, from: int): int
    requires l.seconds >= 1
  {
    l.start + ((from - l.start + Window(l) - 1) / Window(l)) * Window(l)
  }

  lemma NextBoundaryIsNext(l: Limiter, from: int)
    requires l.seconds >= 1
    ensures from <= NextBoundary(l, from) < from + Window(l)
    ensures Aligned(NextBoundary(l, from), l.start, Window(l))
    ensures Aligned(NextBoundary(l, from) - Window(l), l.start, Window(l))
  {
    var w := Window(l);
    var x := from - l.start + w - 1;
    var k := x / w;
    assert k * w <= x < k * w + w;
    assert NextBoundary(l, from) == l.start + k * w;
    assert NextBoundary(l, from) - w == l.start + (k - 1) * w;
  }

  /**
   In any half-open interval of one window length, at most twice `rate` calls
   are admitted off the one window boundary it contains, and one more for each
   spurious failure.
   */
  lemma SlidingWindowBound(l: Limiter, calls: seq<Call>, from: int)
    requires Fresh(l) && Ordered(l.start, calls)
    ensures var b, n := NextBoundary(l, from), |calls|;
            && from <= b < from + Window(l)
            && AdmittedIn(l, calls, n, from, b) + AdmittedIn(l, calls, n, b + 1, from + Window(l))
               <= 2 * l.rate + SpuriousIn(calls, n, from, b) + SpuriousIn(calls, n, b + 1, from + Window(l))
  {
    NextBoundaryIsNext(l, from);
    var b, n := NextBoundary(l, from), |calls|;
    QuotaBound(l, calls, n, b - Window(l), from, b);
    QuotaBound(l, calls, n, b, b + 1, from + Window(l));
  }

  // ---------- Why boundaries are left out ----------

  /** n calls that all arrive exactly when the first window ends. */
  function BoundaryCalls(t: int, n: nat): seq<Call> {
    seq(n, _ => Call(t, t, t, false))
  }

  /** A call on the boundary neither resets the window nor is refused, so any number of them is admitted. */
  lemma {:induction false} BoundaryCallsAreAllAdmitted(l: Limiter, n: nat, i: nat)
    requires Fresh(l) && i <= n
    ensures var b := l.start + Window(l);
            && At(l, BoundaryCalls(b, n), i) == l.(count := i)
            && AdmittedIn(l, BoundaryCalls(b, n), i, b, b + 1) == i
  {
    if i > 0 {
      BoundaryCallsAreAllAdmitted(l, n, i - 1);
    }
  }

  /** The factor two is reached: with a rate of one, two calls a fifth of a second apart on both sides of a boundary. */
  lemma TwiceTheRateIsReached()
    ensures var l := Limiter(1, 1, 0, 0, false);
            var early, late := 950_000_000, 1_150_000_000;
            var calls := [Call(early, early, early, false), Call(late, late, late, false)];
            && Fresh(l) && Ordered(l.start, calls)
            && AdmittedIn(l, calls, 2, early, early + Window(l)) == 2
  {
    var l := Limiter(1, 1, 0, 0, false);
    var early, late := 950_000_000, 1_150_000_000;
    var calls := [Call(early, early, early, false), Call(late, late, late, false)];
    assert calls[1..] == [calls[1]] && calls[1..][1..] == [];
    assert Ordered(calls[0].last, calls[1..]);
    assert At(l, calls, 0) == l && Admits(l, calls[0]);
    assert At(l, calls, 1) == l.(count := 1);
    assert Resets(At(l, calls, 1), calls[1]);
    assert Next(At(l, calls, 1), calls[1]).count == 1;
    assert Admits(At(l, calls, 1), calls[1]);
    assert AdmittedIn(l, calls, 1, early, early + Window(l)) == 1;
  }
}
