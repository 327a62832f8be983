/** The I/O-wait alert: when to notify, and when to sample next. */
module Sysmon {
  import opened Estimators

  const UINT_RANGE: nat := 0x1_0000_0000

  /** Thresholds in percent and polling intervals in seconds. */
  datatype Limits = Limits(low: nat, high: nat, pollLow: nat, pollHigh: nat) {
    /** The range of intervals, as an unsigned difference. */
    function Range(): int {
      if pollHigh >= pollLow then pollHigh - pollLow else pollHigh - pollLow + UINT_RANGE
    }

    /** How much the interval has fallen at a level between the thresholds. */
    function Fall(level: nat): real
      requires low < level < high
    {
      (level - low) as real * (Range() as real / (high - low) as real)
    }

    /** Polling is slow up to the low threshold, fast from the high one on, and in proportion between. */
    function Delay(level: nat): int {
      if level <= low then pollHigh
      else if level >= high then pollLow
      else HalfUp(pollHigh as real - Fall(level))
    }

    /** An alert ends below the low threshold and begins at the high one. */
    function Alert(alert: bool, level: nat): bool {
      if alert then level >= low else level >= high
    }
  }

  lemma {:induction false} QuotientTimes(p: real, d: real)
    requires d > 0.0 && p >= 0.0
    ensures p / d >= 0.0 && (p / d) * d == p
  {
  }

  lemma {:induction false} FallsInRange(l: Limits, level: nat)
    requires l.low < level < l.high && l.pollLow <= l.pollHigh
    ensures 0.0 <= l.Fall(level) <= l.Range() as real
  {
    var d, p := (l.high - l.low) as real, l.Range() as real;
    var b, x := p / d, (level - l.low) as real;
    QuotientTimes(p, d);
    Scaled(b, x, d);
    assert l.Fall(level) == x * b == b * x;
  }

  lemma {:induction false} FallsFurther(l: Limits, a: nat, b: nat)
    requires l.low < a <= b < l.high && l.pollLow <= l.pollHigh
    ensures l.Fall(a) <= l.Fall(b)
  {
    var d, p := (l.high - l.low) as real, l.Range() as real;
    var c, x, y := p / d, (a - l.low) as real, (b - l.low) as real;
    QuotientTimes(p, d);
    Scaled(c, x, y);
    assert l.Fall(a) == x * c == c * x && l.Fall(b) == y * c == c * y;
  }

  lemma {:induction false} HalfUpOrders(x: real, y: real)
    requires x <= y
    ensures HalfUp(x) <= HalfUp(y)
  {
  }

  lemma {:induction false} HalfUpOfInt(n: int)
    ensures HalfUp(n as real) == n
  {
  }

  lemma {:induction false} DelayInRange(l: Limits, level: nat)
    requires l.pollLow <= l.pollHigh
    ensures l.pollLow <= l.Delay(level) <= l.pollHigh
  {
    if l.low < level < l.high {
      FallsInRange(l, level);
      HalfUpOrders(l.pollLow as real, l.pollHigh as real - l.Fall(level));
      HalfUpOrders(l.pollHigh as real - l.Fall(level), l.pollHigh as real);
      HalfUpOfInt(l.pollLow);
      HalfUpOfInt(l.pollHigh);
    }
  }

  lemma {:induction false} DelayFalls(l: Limits, a: nat, b: nat)
    requires l.low <= l.high && l.pollLow <= l.pollHigh && a <= b
    ensures l.Delay(b) <= l.Delay(a)
  {
    DelayInRange(l, a);
    DelayInRange(l, b);
    if l.low < a && b < l.high {
      FallsFurther(l, a, b);
      HalfUpOrders(l.pollHigh as real - l.Fall(b), l.pollHigh as real - l.Fall(a));
    }
  }

  /** More waiting never means slower polling. */
  ghost predicate Antitone(l: Limits) {
    forall a: nat, b: nat :: a <= b ==> l.Delay(b) <= l.Delay(a)
  }

  /**
   The delay is antitone if and only if the interval for low load is not the shorter one, and then
   it stays between the two intervals.
   */
  lemma {:induction false} DelayIsAntitone(l: Limits)
    requires l.low <= l.high
    ensures Antitone(l) <==> l.pollLow <= l.pollHigh
    ensures Antitone(l) ==> forall level: nat :: l.pollLow <= l.Delay(level) <= l.pollHigh
  {
    if l.pollLow <= l.pollHigh {
      forall a: nat, b: nat | a <= b
        ensures l.Delay(b) <= l.Delay(a)
      {
        DelayFalls(l, a, b);
      }
      forall level: nat
        ensures l.pollLow <= l.Delay(level) <= l.pollHigh
      {
        DelayInRange(l, level);
      }
    } else {
      assert l.Delay(l.low) == l.pollHigh && l.Delay(l.high + 1) == l.pollLow;
    }
  }

  /**
   Up to the low threshold polling takes the long interval and from the high one on the short one; in
   between the interval falls in proportion, rounded half up. Written without a division.
   */
  lemma {:induction false} DelayIsInterpolated(l: Limits, level: nat)
    requires l.low <= l.high && l.pollLow <= l.pollHigh
    ensures level <= l.low ==> l.Delay(level) == l.pollHigh
    ensures l.low < level && l.high <= level ==> l.Delay(level) == l.pollLow
    ensures l.low < level < l.high ==>
              var width, fallen := l.high - l.low, (level - l.low) * (l.pollHigh - l.pollLow);
              -width < 2 * (l.Delay(level) * width - (l.pollHigh * width - fallen)) <= width
  {
    if l.low < level < l.high {
      var width, fallen := l.high - l.low, (level - l.low) * (l.pollHigh - l.pollLow);
      var exact := l.pollHigh as real - l.Fall(level);
      hide Limits.Fall, HalfUp;
      FallTimesWidth(l, level);
      NearInUnits(exact, l.Delay(level), width, l.pollHigh, fallen);
    }
  }

  lemma {:induction false} FallTimesWidth(l: Limits, level: nat)
    requires l.low < level < l.high && l.pollLow <= l.pollHigh
    ensures l.Fall(level) * (l.high - l.low) as real == ((level - l.low) * (l.pollHigh - l.pollLow)) as real
  {
    var d, p, x := (l.high - l.low) as real, l.Range() as real, (level - l.low) as real;
    QuotientTimes(p, d);
    var b := p / d;
    assert l.Fall(level) == x * b;
    Associated(x, b, d);
    AsReal(level - l.low, l.pollHigh - l.pollLow);
  }

  lemma {:induction false} Associated(x: real, b: real, d: real)
    ensures (x * b) * d == x * (b * d)
  {
  }

  function Times(a: real, b: real): real { a * b }

  lemma {:induction false} TimesApart(a: real, b: real, w: real)
    ensures Times(a - b, w) == Times(a, w) - Times(b, w)
  {
  }

  lemma {:induction false} TimesOfInts(a: int, b: int)
    ensures Times(a as real, b as real) == (a * b) as real
  {
  }

  lemma {:induction false} TimesHalf(off: real, w: real)
    requires w > 0.0 && -0.5 < off <= 0.5
    ensures -0.5 * w < Times(off, w) <= 0.5 * w
  {
  }

  /** A number rounded half up, compared in units of 1/width. */
  lemma {:induction false} NearInUnits(exact: real, rounded: int, width: int, start: int, fallen: int)
    requires width > 0 && rounded == HalfUp(exact) && Times(start as real - exact, width as real) == fallen as real
    ensures -width < 2 * (rounded * width - (start * width - fallen)) <= width
  {
    hide Times, HalfUp;
    var w, r, s := width as real, rounded * width, start * width;
    HalfUpOff(exact);
    TimesHalf(rounded as real - exact, w);
    TimesApart(start as real, exact, w);
    TimesApart(rounded as real, exact, w);
    TimesOfInts(rounded, width);
    TimesOfInts(start, width);
    InUnits(width, (r - (s - fallen)) as real, r - (s - fallen));
  }

  lemma {:induction false} HalfUpOff(x: real)
    ensures -0.5 < HalfUp(x) as real - x <= 0.5
  {
  }

  lemma {:induction false} InUnits(width: int, off: real, n: int)
    requires off == n as real && -0.5 * width as real < off <= 0.5 * width as real
    ensures -width < 2 * n <= width
  {
  }

  function Alerts(l: Limits, levels: seq<nat>): bool {
    if levels == [] then false else l.Alert(Alerts(l, levels[..|levels| - 1]), levels[|levels| - 1])
  }

  /** The notifications of a run: every change of the alert. */
  function Notices(l: Limits, levels: seq<nat>): seq<bool> {
    if levels == [] then []
    else
      var init := levels[..|levels| - 1];
      Notices(l, init) + if Alerts(l, levels) != Alerts(l, init) then [Alerts(l, levels)] else []
  }

  /** The high threshold was reached at `k`, and the level has not been below the low one since. */
  ghost predicate HighSince(l: Limits, levels: seq<nat>, k: int) {
    0 <= k < |levels| && levels[k] >= l.high && forall j :: k < j < |levels| ==> levels[j] >= l.low
  }

  lemma {:induction false} HighSinceSnoc(l: Limits, levels: seq<nat>, level: nat, k: int)
    ensures HighSince(l, levels + [level], k) <==>
            (k == |levels| && level >= l.high) || (HighSince(l, levels, k) && level >= l.low)
  {
    var longer := levels + [level];
    assert longer[|levels|] == level;
    if HighSince(l, longer, k) && k < |levels| {
      forall j | k < j < |levels|
        ensures levels[j] >= l.low
      {
        assert longer[j] == levels[j];
      }
    }
  }

  /** The alert is on if and only if the high threshold was reached and the level not below the low one since. */
  lemma {:induction false} AlertIsSinceLastCrossing(l: Limits, levels: seq<nat>)
    requires l.low <= l.high
    ensures Alerts(l, levels) <==> exists k :: HighSince(l, levels, k)
  {
    hide HighSince;
    if levels == [] {
      NeverHigh(l);
    } else {
      var n := |levels| - 1;
      var init, last := levels[..n], levels[n];
      assert levels == init + [last];
      AlertIsSinceLastCrossing(l, init);
      forall k
        ensures HighSince(l, levels, k) <==> (k == n && last >= l.high) || (HighSince(l, init, k) && last >= l.low)
      {
        HighSinceSnoc(l, init, last, k);
      }
      assert HighSince(l, levels, n) <== last >= l.high;
    }
  }

  lemma {:induction false} NeverHigh(l: Limits)
    ensures forall k :: !HighSince(l, [], k)
  {
  }

  /** Notifications alternate, "high" first, and the last one says whether the alert is on. */
  lemma {:induction false} NoticesAlternate(l: Limits, levels: seq<nat>)
    ensures var notices := Notices(l, levels);
            && (forall i :: 0 <= i < |notices| ==> (notices[i] <==> i % 2 == 0))
            && (|notices| % 2 == 1 <==> Alerts(l, levels))
  {
    if levels != [] {
      NoticesAlternate(l, levels[..|levels| - 1]);
    }
  }

  class IoWait {
    const limits: Limits
    var alert: bool
    var notices: seq<bool>
    ghost var levels: seq<nat>

    ghost predicate Valid()
      reads this
    {
      alert == Alerts(limits, levels) && notices == Notices(limits, levels)
    }

    constructor (limits: Limits)
      ensures Valid() && levels == [] && this.limits == limits
    {
      this.limits, alert, notices, levels := limits, false, [], [];
    }

    /** Judge a new average (in parts of a thousand) and say when to sample next. */
    method Calculate(avg: nat) returns (delay: int)
      requires Valid()
      modifies this
      ensures Valid() && levels == old(levels) + [Wrapped(100 * avg) / 1000]
      ensures delay == limits.Delay(Wrapped(100 * avg) / 1000)
    {
      var level := Wrapped(100 * avg) / 1000;
      if alert {
        if level < limits.low {
          alert := false;
          notices := notices + [alert];
        }
      } else {
        if level >= limits.high {
          alert := true;
          notices := notices + [alert];
        }
      }
      assert (levels + [level])[..|levels|] == levels;
      levels := levels + [level];
      delay := limits.Delay(level);
    }
  }
}
