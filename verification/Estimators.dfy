/** Averages of load samples: the sliding window and the exponentially weighted average. */
module Estimators {
  /** The range of unsigned long. */
  const ULONG_RANGE: nat := 0x1_0000_0000_0000_0000

  function Sum(s: seq<nat>): nat {
    if s == [] then 0 else Sum(s[..|s| - 1]) + s[|s| - 1]
  }

  /** The samples a window of a given size still holds. */
  function Recent(samples: seq<nat>, size: nat): seq<nat> {
    if |samples| <= size then samples else samples[|samples| - size..]
  }

  function HalfUp(x: real): int {
    (x + 0.5).Floor
  }

  function Average(total: nat, count: nat): int
    requires count > 0
  {
    HalfUp(total as real / count as real)
  }

  /** The mean of the samples, rounded half up. */
  function Mean(s: seq<nat>): int
    requires s != []
  {
    Average(Sum(s), |s|)
  }

  lemma {:induction false} SumConcat(a: seq<nat>, b: seq<nat>)
    ensures Sum(a + b) == Sum(a) + Sum(b)
  {
    if b == [] {
      assert a + b == a;
    } else {
      assert (a + b)[..|a + b| - 1] == a + b[..|b| - 1];
      SumConcat(a, b[..|b| - 1]);
    }
  }

  /** A full window that moves on by one sample. */
  lemma {:induction false} WindowMoves(s: seq<nat>, item: nat)
    requires s != []
    ensures Sum(s[1..] + [item]) == Sum(s) - s[0] + item
  {
    assert s == [s[0]] + s[1..];
    SumConcat([s[0]], s[1..]);
    SumConcat(s[1..], [item]);
    assert Sum([s[0]]) == s[0] by { assert [s[0]][..0] == []; }
    assert Sum([item]) == item by { assert [item][..0] == []; }
  }

  /** They are the latest ones, as many as fit. */
  lemma {:induction false} RecentIsLatest(before: seq<nat>, window: seq<nat>, size: nat)
    requires |window| == size || (before == [] && |window| <= size)
    ensures Recent(before + window, size) == window
  {
  }

  lemma {:induction false} RecentSnoc(samples: seq<nat>, item: nat, size: nat)
    requires size > 0
    ensures Recent(samples + [item], size) ==
            if |samples| < size then samples + [item] else Recent(samples, size)[1..] + [item]
  {
  }

  /** Unsigned arithmetic is modulo the range. */
  function Wrapped(n: int): (r: nat)
    ensures r < ULONG_RANGE
  {
    n % ULONG_RANGE
  }

  lemma {:induction false} WrappedTurn(n: int)
    ensures Wrapped(n + ULONG_RANGE) == Wrapped(n)
  {
  }

  lemma {:induction false} WrappedTurns(n: int, k: nat)
    ensures Wrapped(n + k * ULONG_RANGE) == Wrapped(n)
    decreases k
  {
    if k > 0 {
      WrappedTurns(n, k - 1);
      WrappedTurn(n + (k - 1) * ULONG_RANGE);
    }
  }

  /** Sums may wrap around on the way. */
  lemma {:induction false} WrappedSum(n: int, d: int)
    ensures Wrapped(Wrapped(n) + d) == Wrapped(n + d)
  {
    var k := n / ULONG_RANGE;
    assert n == Wrapped(n) + k * ULONG_RANGE;
    if k >= 0 {
      WrappedTurns(Wrapped(n) + d, k);
    } else {
      WrappedTurns(n + d, -k);
    }
  }

  /** The total after a sample: the oldest has left a full window. */
  lemma {:induction false} TotalStep(samples: seq<nat>, size: nat, total: nat, item: nat)
    requires size > 0 && total == Wrapped(Sum(Recent(samples, size)))
    ensures var gone := if |samples| >= size then Recent(samples, size)[0] else 0;
            Wrapped(total - gone + item) == Wrapped(Sum(Recent(samples + [item], size)))
  {
    var window := Recent(samples, size);
    RecentSnoc(samples, item, size);
    if |samples| >= size {
      WindowMoves(window, item);
      WrappedSum(Sum(window), item - window[0]);
    } else {
      SumConcat(samples, [item]);
      assert Sum([item]) == item by { assert [item][..0] == []; }
      WrappedSum(Sum(samples), item);
    }
  }

  /** The next slot of a full window holds the oldest sample; before, slots are in order. */
  ghost predicate Laid(items: seq<nat>, idx: nat, ready: bool, samples: seq<nat>) {
    var laid :=
      && idx < |items|
      && (ready <==> |samples| >= |items|)
      && if ready then items[idx..] + items[..idx] == Recent(samples, |items|)
         else |samples| == idx && items[..idx] == samples;
    laid
  }

  lemma {:induction false} SlotFilled(items: seq<nat>, idx: nat, ready: bool, samples: seq<nat>, item: nat)
    requires Laid(items, idx, ready, samples)
    ensures var full := idx + 1 >= |items|;
            && Laid(items[idx := item], if full then 0 else idx + 1, ready || full, samples + [item])
            && (ready ==> items[idx] == Recent(samples, |items|)[0])
            && |Recent(samples + [item], |items|)| == if ready then |items| else idx + 1
  {
    RecentSnoc(samples, item, |items|);
    if ready {
      Rotated(items, idx, item);
      assert items[idx..] + items[..idx] == Recent(samples, |items|);
    } else {
      Extended(items, idx, item);
    }
  }

  /** Replacing the oldest of a full ring of slots turns the ring by one. */
  lemma {:induction false} Rotated(items: seq<nat>, idx: nat, item: nat)
    requires idx < |items|
    ensures var turned, at := items[idx := item], if idx + 1 >= |items| then 0 else idx + 1;
            && turned[at..] + turned[..at] == (items[idx..] + items[..idx])[1..] + [item]
            && (items[idx..] + items[..idx])[0] == items[idx]
  {
    assert items[idx..] == [items[idx]] + items[idx + 1..];
    assert (items[idx..] + items[..idx])[1..] == items[idx + 1..] + items[..idx];
  }

  lemma {:induction false} Extended(items: seq<nat>, idx: nat, item: nat)
    requires idx < |items|
    ensures items[idx := item][..idx + 1] == items[..idx] + [item]
    ensures idx + 1 >= |items| ==> items[idx := item][0..] + items[idx := item][..0] == items[..idx] + [item]
  {
  }

  /** The fields of a window. */
  datatype Slots = Slots(items: seq<nat>, idx: nat, ready: bool, total: nat)

  /** A sample takes the next slot, in a full window that of the oldest. */
  function Moved(w: Slots, item: nat): Slots
    requires w.idx < |w.items|
  {
    var full := w.idx + 1 >= |w.items|;
    Slots(w.items[w.idx := item], if full then 0 else w.idx + 1, w.ready || full,
          Wrapped(w.total - (if w.ready then w.items[w.idx] else 0) + item))
  }

  /** The slots hold the latest samples, and the total is their wrapped sum. */
  ghost predicate Holds(w: Slots, samples: seq<nat>) {
    Laid(w.items, w.idx, w.ready, samples) && w.total == Wrapped(Sum(Recent(samples, |w.items|)))
  }

  lemma {:induction false} WindowSlides(w: Slots, samples: seq<nat>, item: nat)
    requires Holds(w, samples)
    ensures var window := Recent(samples + [item], |w.items|);
            && Holds(Moved(w, item), samples + [item])
            && Moved(w, item).total == Wrapped(Sum(window))
            && |window| == if w.ready then |w.items| else w.idx + 1
  {
    hide Wrapped, Sum, Recent;
    TotalStep(samples, |w.items|, w.total, item);
    SlotFilled(w.items, w.idx, w.ready, samples, item);
    assert |w.items[w.idx := item]| == |w.items|;
  }

  class SlidingWindow {
    const size: nat
    const items: array<nat>
    var total: nat
    var ready: bool
    var idx: nat
    ghost var samples: seq<nat>      // every sample so far

    ghost function Value(): Slots
      reads this, items
    {
      Slots(items[..], idx, ready, total)
    }

    ghost predicate Valid()
      reads this, items
    {
      items.Length == size && Holds(Value(), samples)
    }

    constructor (size: nat)
      requires size > 0
      ensures Valid() && fresh(items) && samples == [] && this.size == size
    {
      this.size, items := size, new nat[size](_ => 0);
      total, ready, idx, samples := 0, false, 0, [];
    }

    /** Move the window on by one sample; `count` is how many it holds now. */
    method Slide(item: nat) returns (count: nat)
      requires items.Length == size && idx < size
      modifies this`total, this`idx, this`ready, items
      ensures Value() == Moved(old(Value()), item)
      ensures count == if old(ready) then size else old(idx) + 1
    {
      hide Wrapped;
      ghost var w := Value();
      if ready {
        WrappedSum(total - items[idx], item);
        total := Wrapped(total - items[idx]);
      }
      items[idx] := item;
      idx := idx + 1;
      total := Wrapped(total + item);
      count := if ready then size else idx;
      if idx >= size {
        ready, idx := true, 0;
      }
      assert items[..] == w.items[w.idx := item];
    }

    /** The average over the window, once the sample is in it. */
    method Update(item: nat) returns (avg: int)
      requires Valid()
      modifies this, items
      ensures Valid() && samples == old(samples) + [item]
      ensures avg == Average(Wrapped(Sum(Recent(samples, size))), |Recent(samples, size)|)
    {
      WindowSlides(Value(), samples, item);
      ghost var w := Moved(Value(), item);
      var count := Slide(item);
      samples := samples + [item];
      assert Value() == w;
      avg := Average(total, count);
    }
  }

  ghost predicate Within(s: seq<nat>, lo: nat, hi: nat) {
    forall i :: 0 <= i < |s| ==> lo <= s[i] <= hi
  }

  lemma {:induction false} SumWithin(s: seq<nat>, lo: nat, hi: nat)
    requires Within(s, lo, hi)
    ensures |s| * lo <= Sum(s) <= |s| * hi
  {
    if s != [] {
      SumWithin(s[..|s| - 1], lo, hi);
      assert |s| * lo == (|s| - 1) * lo + lo && |s| * hi == (|s| - 1) * hi + hi;
    }
  }

  lemma {:induction false} Multiplied(a: real, b: real, c: real)
    requires a < b && c > 0.0
    ensures a * c < b * c
  {
  }

  lemma {:induction false} AsReal(a: nat, b: nat)
    ensures (a * b) as real == a as real * b as real
  {
  }

  lemma {:induction false} QuotientWithin(sum: nat, count: nat, lo: nat, hi: nat)
    requires count > 0 && count * lo <= sum <= count * hi
    ensures lo as real <= sum as real / count as real <= hi as real
  {
    AsReal(count, lo);
    AsReal(count, hi);
    FactorWithin(sum as real / count as real, count as real, sum as real, lo as real, hi as real);
  }

  lemma {:induction false} FactorWithin(q: real, c: real, product: real, lo: real, hi: real)
    requires c > 0.0 && q * c == product && c * lo <= product <= c * hi
    ensures lo <= q <= hi
  {
    if q < lo {
      Multiplied(q, lo, c);
    } else if q > hi {
      Multiplied(hi, q, c);
    }
  }

  /**
   While the window's own sum fits, what a full or filling window returns is the mean of its samples
   rounded half up, whatever wrapped around before, and lies between the least and largest of them.
   */
  lemma {:induction false} WindowAverageIsMean(samples: seq<nat>, size: nat, lo: nat, hi: nat)
    requires size > 0 && samples != []
    requires var window := Recent(samples, size); Sum(window) < ULONG_RANGE && Within(window, lo, hi)
    ensures var window := Recent(samples, size);
            var avg := Average(Wrapped(Sum(window)), |window|);
            && avg == Mean(window) && lo <= avg <= hi
            && avg as real - 0.5 <= Sum(window) as real / |window| as real < avg as real + 0.5
  {
    var window := Recent(samples, size);
    WrappedSmall(Sum(window));
    SumWithin(window, lo, hi);
    QuotientWithin(Sum(window), |window|, lo, hi);
    HalfUpNear(Sum(window) as real / |window| as real, lo, hi);
  }

  lemma {:induction false} WrappedSmall(n: nat)
    requires n < ULONG_RANGE
    ensures Wrapped(n) == n
  {
  }

  lemma {:induction false} HalfUpNear(x: real, lo: int, hi: int)
    requires lo as real <= x <= hi as real
    ensures lo <= HalfUp(x) <= hi && HalfUp(x) as real - 0.5 <= x < HalfUp(x) as real + 0.5
  {
  }

  // --- the exponentially weighted average

  function Power(b: real, n: nat): real {
    if n == 0 then 1.0 else b * Power(b, n - 1)
  }

  /** What a sample still counts when n more have come: alpha times, and `keep` times for each of them. */
  function Share(alpha: real, keep: real, n: nat, x: nat): real {
    alpha * Power(keep, n) * x as real
  }

  /** The definition of the average: all shares together. */
  function Weighted(alpha: real, keep: real, s: seq<nat>): real {
    if s == [] then 0.0 else Share(alpha, keep, |s| - 1, s[0]) + Weighted(alpha, keep, s[1..])
  }

  function Blend(alpha: real, keep: real, x: real, y: real): real {
    alpha * x + keep * y
  }

  lemma {:induction false} Reordered(a: real, b: real, p: real, x: real)
    ensures a * (b * p) * x == b * (a * p * x)
  {
  }

  lemma {:induction false} ShareShrinks(alpha: real, keep: real, n: nat, x: nat)
    ensures Share(alpha, keep, n + 1, x) == keep * Share(alpha, keep, n, x)
  {
    Reordered(alpha, keep, Power(keep, n), x as real);
  }

  lemma {:induction false} Distributed(b: real, x: real, y: real)
    ensures b * (x + y) == b * x + b * y
  {
  }

  lemma {:induction false} BlendAdds(alpha: real, keep: real, last: real, first: real, rest: real)
    ensures keep * first + Blend(alpha, keep, last, rest) == Blend(alpha, keep, last, first + rest)
  {
    Distributed(keep, first, rest);
  }

  lemma {:induction false} FirstShare(alpha: real, keep: real, x: nat)
    ensures Weighted(alpha, keep, [x]) == Blend(alpha, keep, x as real, 0.0)
  {
    assert [x][1..] == [];
    assert Power(keep, 0) == 1.0;
    assert keep * 0.0 == 0.0;
  }

  /** One step of the average adds one sample to the definition. */
  lemma {:induction false} WeightedSnoc(alpha: real, keep: real, s: seq<nat>, x: nat)
    ensures Weighted(alpha, keep, s + [x]) == Blend(alpha, keep, x as real, Weighted(alpha, keep, s))
  {
    if s == [] {
      assert s + [x] == [x];
      FirstShare(alpha, keep, x);
    } else {
      WeightedSnoc(alpha, keep, s[1..], x);
      assert (s + [x])[1..] == s[1..] + [x];
      ShareShrinks(alpha, keep, |s| - 1, s[0]);
      BlendAdds(alpha, keep, x as real, Share(alpha, keep, |s| - 1, s[0]), Weighted(alpha, keep, s[1..]));
    }
  }

  lemma {:induction false} Whole(alpha: real, hi: real)
    ensures alpha * hi + (1.0 - alpha) * hi == hi
  {
  }

  lemma {:induction false} Scaled(b: real, x: real, hi: real)
    requires 0.0 <= b && 0.0 <= x <= hi
    ensures 0.0 <= b * x <= b * hi
  {
  }

  lemma {:induction false} BoundedSum(p: real, q: real, r: real, t: real, hi: real)
    requires 0.0 <= p <= r && 0.0 <= q <= t && r + t == hi
    ensures 0.0 <= p + q <= hi
  {
  }

  lemma {:induction false} Blended(alpha: real, x: real, y: real, hi: real)
    requires 0.0 <= alpha <= 1.0 && 0.0 <= x <= hi && 0.0 <= y <= hi
    ensures 0.0 <= Blend(alpha, 1.0 - alpha, x, y) <= hi
  {
    Scaled(alpha, x, hi);
    Scaled(1.0 - alpha, y, hi);
    Whole(alpha, hi);
    BoundedSum(alpha * x, (1.0 - alpha) * y, alpha * hi, (1.0 - alpha) * hi, hi);
  }

  /** The average never leaves the range of the samples, zero included. */
  lemma {:induction false} WeightedWithin(alpha: real, s: seq<nat>, hi: nat)
    requires 0.0 <= alpha <= 1.0 && Within(s, 0, hi)
    ensures 0.0 <= Weighted(alpha, 1.0 - alpha, s) <= hi as real
    decreases |s|
  {
    if s != [] {
      var init, last := s[..|s| - 1], s[|s| - 1];
      assert s == init + [last];
      WeightedWithin(alpha, init, hi);
      WeightedSnoc(alpha, 1.0 - alpha, init, last);
      Blended(alpha, last as real, Weighted(alpha, 1.0 - alpha, init), hi as real);
    }
  }

  /** The shares of samples that are all alike make up all of it but what the start value still counts. */
  lemma {:induction false} SharesAddUp(alpha: real, s: seq<nat>, x: nat)
    requires forall i :: 0 <= i < |s| ==> s[i] == x
    ensures Weighted(alpha, 1.0 - alpha, s) == x as real * (1.0 - Power(1.0 - alpha, |s|))
    decreases |s|
  {
    if s == [] {
      assert x as real * (1.0 - 1.0) == 0.0;
    } else {
      var init, keep := s[..|s| - 1], 1.0 - alpha;
      assert s == init + [x];
      SharesAddUp(alpha, init, x);
      WeightedSnoc(alpha, keep, init, x);
      OneMoreAlike(alpha, x as real, Power(keep, |init|));
    }
  }

  lemma {:induction false} OneMoreAlike(alpha: real, x: real, p: real)
    ensures Blend(alpha, 1.0 - alpha, x, x * (1.0 - p)) == x * (1.0 - (1.0 - alpha) * p)
  {
  }

  class WeightedAverage {
    const alpha: real
    var current: real
    ghost var samples: seq<nat>

    ghost predicate Valid()
      reads this
    {
      0.0 < alpha <= 1.0 && current == Weighted(alpha, 1.0 - alpha, samples)
    }

    constructor (nsample: nat)
      requires nsample > 0
      ensures Valid() && samples == [] && alpha * (nsample + 1) as real == 2.0
    {
      alpha, current, samples := 2.0 / (nsample as real + 1.0), 0.0, [];
    }

    /** The weighted average of all samples, rounded; it never exceeds the largest. */
    method Update(item: nat, ghost hi: nat) returns (avg: int)
      requires Valid()
      modifies this
      ensures Valid() && samples == old(samples) + [item]
      ensures avg == HalfUp(Weighted(alpha, 1.0 - alpha, samples))
      ensures Within(samples, 0, hi) ==> 0 <= avg <= hi
    {
      WeightedSnoc(alpha, 1.0 - alpha, samples, item);
      current := Blend(alpha, 1.0 - alpha, item as real, current);
      samples := samples + [item];
      avg := HalfUp(current);
      if Within(samples, 0, hi) {
        WeightedWithin(alpha, samples, hi);
      }
    }
  }
}
