/**
 The wake-up times of the cyclic test: an absolute deadline that moves along a grid of
 multiples of the interval, kept as seconds and nanoseconds.
 */
module Cyclictest {
  import opened CInt

  const NSEC_PER_SEC: int := 1_000_000_000
  const USEC_PER_SEC: int := 1_000_000

  datatype Timespec = Timespec(sec: int, nsec: int)

  function Nanos(t: Timespec): int { t.sec * NSEC_PER_SEC + t.nsec }

  predicate Normal(t: Timespec) { 0 <= t.nsec < NSEC_PER_SEC }

  method Tsnorm(t: Timespec) returns (t': Timespec)
    ensures Nanos(t') == Nanos(t) && t'.nsec < NSEC_PER_SEC
    ensures if t.nsec < 0 then t' == t else Normal(t')
  {
    t' := t;
    while t'.nsec >= NSEC_PER_SEC
      invariant Nanos(t') == Nanos(t)
      invariant if t.nsec < 0 then t' == t else t'.nsec >= 0
      decreases t'.nsec
    {
      t' := Timespec(t'.sec + 1, t'.nsec - NSEC_PER_SEC);
    }
  }

  predicate Tsgreater(a: Timespec, b: Timespec) {
    a.sec > b.sec || (a.sec == b.sec && a.nsec > b.nsec)
  }

  /** On normalised times the comparison of the fields is the comparison of the times. */
  lemma TsgreaterIsGreater(a: Timespec, b: Timespec)
    requires Normal(a) && Normal(b)
    ensures Tsgreater(a, b) <==> Nanos(a) > Nanos(b)
  {
  }

  // ---------------------------------------------------------------- the grid

  /** The k-th grid point. */
  function Grid(start: int, interval: int, k: nat): int { start + k * interval }

  lemma GridStep(start: int, interval: int, k: nat, n: nat)
    ensures Grid(start, interval, k + n) == Grid(start, interval, k) + n * interval
    ensures interval > 0 && n > 0 ==> Grid(start, interval, k) < Grid(start, interval, k + n)
  {
    assert (k + n) * interval == k * interval + n * interval;
    if interval > 0 && n > 0 {
      assert n * interval >= interval by { Positive(n - 1, interval); assert n * interval == (n - 1) * interval + interval; }
    }
  }

  lemma Positive(a: int, b: int)
    requires a >= 0 && b >= 0
    ensures a * b >= 0
  {
  }

  lemma Scaled(n: nat, t: Timespec)
    ensures Nanos(Timespec(n * t.sec, n * t.nsec)) == n * Nanos(t)
  {
    assert (n * t.sec) * NSEC_PER_SEC == n * (t.sec * NSEC_PER_SEC);
  }

  predicate IsInterval(t: Timespec) { Normal(t) && t.sec >= 0 && Nanos(t) > 0 }

  /** `next` moved on by n intervals, and normalised. */
  method Advance(next: Timespec, interval: Timespec, n: nat) returns (next': Timespec)
    requires Normal(next) && IsInterval(interval)
    ensures Normal(next') && Nanos(next') == Nanos(next) + n * Nanos(interval)
  {
    Scaled(n, interval);
    Positive(n, interval.nsec);
    next' := Tsnorm(Timespec(next.sec + n * interval.sec, next.nsec + n * interval.nsec));
  }

  /** The result is the first point of the grid from `next` on that is not before `now`. */
  method CatchUp(next: Timespec, interval: Timespec, now: Timespec) returns (next': Timespec, k: nat)
    requires Normal(next) && IsInterval(interval) && Normal(now)
    ensures Normal(next') && Nanos(next') == Grid(Nanos(next), Nanos(interval), k) >= Nanos(now)
    ensures forall j :: 0 <= j < k ==> Grid(Nanos(next), Nanos(interval), j) < Nanos(now)
  {
    next', k := next, 0;
    TsgreaterIsGreater(now, next');
    while Tsgreater(now, next')
      invariant Normal(next') && Nanos(next') == Grid(Nanos(next), Nanos(interval), k)
      invariant Tsgreater(now, next') <==> Nanos(now) > Nanos(next')
      invariant forall j :: 0 <= j < k ==> Grid(Nanos(next), Nanos(interval), j) < Nanos(now)
      decreases Nanos(now) - Nanos(next')
    {
      GridStep(Nanos(next), Nanos(interval), k, 1);
      next' := Advance(next', interval, 1);
      k := k + 1;
      TsgreaterIsGreater(now, next');
    }
  }

  /** The timer thread: it starts at `start`, wakes up at the times `nows`, and in the timer
      mode `overruns` periods were lost before each wake-up. Every deadline is normalised and
      on the grid; each is later than the one before and not before the wake-up, and it is the
      first such grid point behind the overruns. */
  method Deadlines(start: Timespec, interval: Timespec, nows: seq<Timespec>, overruns: seq<nat>)
    returns (nexts: seq<Timespec>, ks: seq<nat>)
    requires Normal(start) && IsInterval(interval) && |overruns| == |nows|
    requires forall i :: 0 <= i < |nows| ==> Normal(nows[i])
    ensures |nexts| == |ks| == |nows| + 1 && ks[0] == 1
    ensures forall i :: 0 <= i < |nexts| ==> Normal(nexts[i]) && Nanos(nexts[i]) == Grid(Nanos(start), Nanos(interval), ks[i])
    ensures forall i :: 0 <= i < |nows| ==> IsNextDeadline(Nanos(start), Nanos(interval), ks[i], ks[i + 1], Nanos(nows[i]), overruns[i])
  {
    var next := Advance(start, interval, 1);
    GridStep(Nanos(start), Nanos(interval), 0, 1);
    nexts, ks := [next], [1];
    for c := 0 to |nows|
      invariant |nexts| == |ks| == c + 1 && ks[0] == 1 && nexts[c] == next
      invariant forall i :: 0 <= i <= c ==> Normal(nexts[i]) && Nanos(nexts[i]) == Grid(Nanos(start), Nanos(interval), ks[i])
      invariant forall i :: 0 <= i < c ==> IsNextDeadline(Nanos(start), Nanos(interval), ks[i], ks[i + 1], Nanos(nows[i]), overruns[i])
    {
      var k;
      next, k := NextDeadline(start, interval, next, ks[c], nows[c], overruns[c]);
      nexts, ks := nexts + [next], ks + [k];
    }
  }

  /** k' is the least grid index beyond k and the lost periods that is not before `now`. */
  predicate IsNextDeadline(start: int, interval: int, k: nat, k': nat, now: int, overrun: nat) {
    && k + 1 + overrun <= k' && now <= Grid(start, interval, k')
    && forall j :: k + 1 + overrun <= j < k' ==> Grid(start, interval, j) < now
  }

  lemma GridFrom(start: int, interval: int, k: nat, j: nat)
    ensures Grid(Grid(start, interval, k), interval, j) == Grid(start, interval, k + j)
  {
    GridStep(start, interval, k, j);
  }

  method NextDeadline(ghost start: Timespec, interval: Timespec, next: Timespec, k: nat, now: Timespec, overrun: nat)
    returns (next': Timespec, k': nat)
    requires Normal(next) && IsInterval(interval) && Normal(now)
    requires Nanos(next) == Grid(Nanos(start), Nanos(interval), k)
    ensures Normal(next') && Nanos(next') == Grid(Nanos(start), Nanos(interval), k')
    ensures IsNextDeadline(Nanos(start), Nanos(interval), k, k', Nanos(now), overrun)
  {
    ghost var s, i := Nanos(start), Nanos(interval);
    var m := k + 1 + overrun;
    next' := Advance(next, interval, 1 + overrun);
    GridStep(s, i, k, 1 + overrun);
    ghost var from := Nanos(next');
    var more;
    next', more := CatchUp(next', interval, now);
    k' := m + more;
    GridFrom(s, i, m, more);
    forall j | m <= j < k' ensures Grid(s, i, j) < Nanos(now) {
      GridFrom(s, i, m, j - m);
      assert Grid(from, i, j - m) < Nanos(now);
    }
  }

  // ---------------------------------------------------------------- differences

  /** C division by a positive number. */
  function TruncDiv(x: int, n: int): int
    requires n > 0
  {
    if x >= 0 then x / n else -((-x) / n)
  }

  /** `(int) x - (int) y`: two conversions and a subtraction in int. Where the subtraction
      overflows, which C leaves undefined, this is the value of wrap-around arithmetic. */
  function IntDifference(x: int, y: int): int { ToInt(ToInt(x) - ToInt(y)) }

  /** The subtraction in int does not overflow. */
  predicate NoOverflow(x: int, y: int) { FitsInt(ToInt(x) - ToInt(y)) }

  function Calcdiff(t1: Timespec, t2: Timespec): int {
    USEC_PER_SEC * IntDifference(t1.sec, t2.sec) + TruncDiv(IntDifference(t1.nsec, t2.nsec), 1000)
  }

  function CalcdiffNs(t1: Timespec, t2: Timespec): int {
    NSEC_PER_SEC * IntDifference(t1.sec, t2.sec) + IntDifference(t1.nsec, t2.nsec)
  }

  /** With wrap-around the difference is right exactly when it fits an int. */
  lemma WrappedDifference(x: int, y: int)
    ensures IntDifference(x, y) == x - y <==> FitsInt(x - y)
  {
    Converted(x);
    Converted(y);
    if FitsInt(x - y) {
      SameConversion(ToInt(x) - ToInt(y), x - y, Window(y) - Window(x));
    }
  }

  /** Without overflow the difference is right exactly when both numbers lie in one window and
      their difference fits. */
  lemma DefinedDifference(x: int, y: int)
    ensures NoOverflow(x, y) && IntDifference(x, y) == x - y <==> Window(x) == Window(y) && FitsInt(x - y)
  {
    Converted(x);
    Converted(y);
    Converted(ToInt(x) - ToInt(y));
  }

  lemma NanosecondsFit(t1: Timespec, t2: Timespec)
    requires Normal(t1) && Normal(t2)
    ensures NoOverflow(t1.nsec, t2.nsec) && IntDifference(t1.nsec, t2.nsec) == t1.nsec - t2.nsec
  {
    Converted(t1.nsec);
    Converted(t2.nsec);
    WrappedDifference(t1.nsec, t2.nsec);
  }

  lemma WholeSeconds(d: int, e: int, n: int)
    ensures NSEC_PER_SEC * d + n == NSEC_PER_SEC * e + n <==> d == e
  {
  }

  /** The difference of two normalised times is exact, with wrap-around, if and only if the
      difference of the seconds fits an int; it is exact and no subtraction overflows if and
      only if the seconds also lie in one window of the conversion. */
  lemma NanosecondDifference(t1: Timespec, t2: Timespec)
    requires Normal(t1) && Normal(t2)
    ensures CalcdiffNs(t1, t2) == Nanos(t1) - Nanos(t2) <==> FitsInt(t1.sec - t2.sec)
    ensures NoOverflow(t1.sec, t2.sec) && NoOverflow(t1.nsec, t2.nsec) && CalcdiffNs(t1, t2) == Nanos(t1) - Nanos(t2)
       <==> Window(t1.sec) == Window(t2.sec) && FitsInt(t1.sec - t2.sec)
  {
    NanosecondsFit(t1, t2);
    WrappedDifference(t1.sec, t2.sec);
    DefinedDifference(t1.sec, t2.sec);
    WholeSeconds(IntDifference(t1.sec, t2.sec), t1.sec - t2.sec, t1.nsec - t2.nsec);
    assert Nanos(t1) - Nanos(t2) == NSEC_PER_SEC * (t1.sec - t2.sec) + (t1.nsec - t2.nsec);
  }

  lemma Truncated(x: int)
    ensures x >= 0 ==> 0 <= x - 1000 * TruncDiv(x, 1000) < 1000
    ensures x <= 0 ==> 0 <= 1000 * TruncDiv(x, 1000) - x < 1000
  {
  }

  /** The microsecond difference is the nanosecond one with its nanosecond part cut off towards
      zero: never larger in magnitude, and short of it by less than a microsecond. */
  lemma MicrosecondDifference(t1: Timespec, t2: Timespec)
    ensures -1000 < 1000 * Calcdiff(t1, t2) - CalcdiffNs(t1, t2) < 1000
    ensures var part := IntDifference(t1.nsec, t2.nsec);
            var cut := CalcdiffNs(t1, t2) - 1000 * Calcdiff(t1, t2);
            (part >= 0 ==> 0 <= cut <= part) && (part <= 0 ==> part <= cut <= 0)
  {
    Truncated(IntDifference(t1.nsec, t2.nsec));
  }

  /** Two seconds in one window whose difference does not fit: the subtraction overflows and
      wraps to one second less than nothing. Across the limit of int in 2038 the subtraction
      overflows too, but wrap-around gives the right second. */
  lemma DifferenceOverflows()
    ensures var late, early := Timespec(0x7FFF_FFFF, 0), Timespec(-0x8000_0000, 0);
            Window(late.sec) == Window(early.sec) && !NoOverflow(late.sec, early.sec) && CalcdiffNs(late, early) == -NSEC_PER_SEC
    ensures var after, before := Timespec(0x8000_0000, 0), Timespec(0x7FFF_FFFF, 0);
            !NoOverflow(after.sec, before.sec) && CalcdiffNs(after, before) == NSEC_PER_SEC
  {
    assert ToInt(0x7FFF_FFFF) == 0x7FFF_FFFF && ToInt(-0x8000_0000) == -0x8000_0000;
    assert ToInt(0x8000_0000) == -0x8000_0000;
  }
}
