/** The table of a function that passes the monotonicity check is monotone and in range. */
module CurveSoundness {
  import opened Wrappers
  import opened RpnTokens
  import opened RpnTrees
  import opened RpnEvaluator
  import opened RpnLexer
  import opened RpnParseMethod
  import opened RpnPrinter
  import opened RpnConservation
  import opened ResponseCurve

  /** A curve over integer ranges whose curve range is `parts` units long. */
  ghost predicate Suits(crv: RspCrv, imin: int, imax: int, omin: int, omax: int, parts: nat) {
    && imin < imax && omin <= omax && parts > 0
    && crv.imin == imin as real && crv.imax == imax as real
    && crv.omin == omin as real && crv.omax == omax as real
    && crv.cmax - crv.cmin == parts as real
    && crv.FCmin() != crv.FCmax()
  }

  /** The grid point of input `i`. */
  function Point(imin: int, parts: nat, i: int): nat
    requires imin <= i
  {
    (i - imin) * parts
  }

  lemma {:induction false} Cancel(a: real, d: real)
    requires d > 0.0
    ensures a * (1.0 / d) == a / d
  {
  }

  /** Every sampled point lies on the checked grid, and the grid ends at the curve's end. */
  lemma {:induction false} SamplesLieOnGrid(m: Libm, crv: RspCrv, imin: int, imax: int, omin: int, omax: int, parts: nat, i: int)
    requires Suits(crv, imin, imax, omin, omax, parts) && imin <= i <= imax
    ensures CheckStep(crv) > 0.0
    ensures crv.Argument(m, i as real) == Grid(crv.cmin, CheckStep(crv), Point(imin, parts, i))
    ensures Point(imin, parts, i) <= LastIndex(crv.cmin, crv.cmax, CheckStep(crv)) == Point(imin, parts, imax)
  {
    var d, k := (imax - imin) as real, (i - imin) as real;
    assert m.Divide(i as real - crv.imin, crv.imax - crv.imin) == k / d;
    assert Point(imin, parts, i) as real == k * parts as real;
    assert k / d * parts as real == k * parts as real * (1.0 / d);
    assert parts as real / (1.0 / d) == parts as real * d == Point(imin, parts, imax) as real;
    assert (i - imin) * parts <= (imax - imin) * parts;
  }

  lemma {:induction false} RisingOrders(fn: real -> real, grid: nat -> real, n: int, j: nat, k: nat)
    requires j <= k <= n
    ensures Rising(fn, grid, n) ==> fn(grid(j)) <= fn(grid(k))
    ensures Falling(fn, grid, n) ==> fn(grid(j)) >= fn(grid(k))
    decreases k - j
  {
    if j < k {
      RisingOrders(fn, grid, n, j, k - 1);
    }
  }

  /** A quotient with a nonzero divisor keeps order, or reverses it with the divisor's sign. */
  lemma {:induction false} Scale(a: real, b: real, span: real)
    requires (span > 0.0 && a <= b) || (span < 0.0 && a >= b)
    ensures a / span <= b / span
  {
    var qa, qb := a / span, b / span;
    assert (qb - qa) * span == b - a;
  }

  /** Scaling a value between two ends, rising or falling. */
  lemma {:induction false} Normalise(lo: real, a: real, b: real, hi: real)
    requires lo != hi && (lo <= a <= b <= hi || lo >= a >= b >= hi)
    ensures 0.0 <= (a - lo) / (hi - lo) <= (b - lo) / (hi - lo) <= 1.0
  {
    Scale(0.0, a - lo, hi - lo);
    Scale(a - lo, b - lo, hi - lo);
    Scale(b - lo, hi - lo, hi - lo);
  }

  /** The samples run from one end of the curve to the other, up or down. */
  lemma {:induction false} SamplesRun(m: Libm, crv: RspCrv, imin: int, imax: int, omin: int, omax: int, parts: nat, i: int, j: int)
    requires Suits(crv, imin, imax, omin, omax, parts) && PassesCheck(crv) && imin <= i <= j <= imax
    ensures var a, b := crv.fn(crv.Argument(m, i as real)), crv.fn(crv.Argument(m, j as real));
            crv.FCmin() <= a <= b <= crv.FCmax() || crv.FCmin() >= a >= b >= crv.FCmax()
  {
    var step, n := CheckStep(crv), Point(imin, parts, imax);
    var grid := GridOf(crv.cmin, step);
    var pi, pj := Point(imin, parts, i), Point(imin, parts, j);
    SamplesLieOnGrid(m, crv, imin, imax, omin, omax, parts, i);
    SamplesLieOnGrid(m, crv, imin, imax, omin, omax, parts, j);
    SamplesLieOnGrid(m, crv, imin, imax, omin, omax, parts, imax);
    GridEnds(crv, imin, imax, omin, omax, parts);
    assert pi <= pj by { assert (i - imin) * parts <= (j - imin) * parts; }
    RisingOrders(crv.fn, grid, n, 0, pi);
    RisingOrders(crv.fn, grid, n, pi, pj);
    RisingOrders(crv.fn, grid, n, pj, n);
  }

  /** The scaled samples climb from 0 to 1, whether the curve rises or falls. */
  lemma {:induction false} NormalisedClimbs(m: Libm, crv: RspCrv, imin: int, imax: int, omin: int, omax: int, parts: nat, i: int, j: int)
    requires Suits(crv, imin, imax, omin, omax, parts) && PassesCheck(crv) && imin <= i <= j <= imax
    ensures 0.0 <= crv.Normalised(m, i as real) <= crv.Normalised(m, j as real) <= 1.0
  {
    SamplesRun(m, crv, imin, imax, omin, omax, parts, i, j);
    Normalise(crv.FCmin(), crv.fn(crv.Argument(m, i as real)), crv.fn(crv.Argument(m, j as real)), crv.FCmax());
  }

  lemma {:induction false} GridEnds(crv: RspCrv, imin: int, imax: int, omin: int, omax: int, parts: nat)
    requires Suits(crv, imin, imax, omin, omax, parts)
    ensures Grid(crv.cmin, CheckStep(crv), 0) == crv.cmin
    ensures Grid(crv.cmin, CheckStep(crv), Point(imin, parts, imax)) == crv.cmax
  {
    var d := (imax - imin) as real;
    assert Point(imin, parts, imax) as real == d * parts as real;
    Cancel(d * parts as real, d);
    assert d * parts as real / d == parts as real;
  }

  lemma {:induction false} Stretch(base: real, d: real, a: real, b: real)
    requires d >= 0.0 && 0.0 <= a <= b <= 1.0
    ensures base <= base + d * a <= base + d * b <= base + d
  {
    assert 0.0 <= d * a <= d * b <= d * 1.0;
  }

  lemma {:induction false} CalcClimbs(m: Libm, crv: RspCrv, imin: int, imax: int, omin: int, omax: int, parts: nat, i: int, j: int)
    requires Suits(crv, imin, imax, omin, omax, parts) && PassesCheck(crv) && imin <= i <= j <= imax
    ensures omin as real <= crv.Calc(m, i as real) <= crv.Calc(m, j as real) <= omax as real
  {
    NormalisedClimbs(m, crv, imin, imax, omin, omax, parts, i, j);
    var d, yi, yj := (omax - omin) as real, crv.Normalised(m, i as real), crv.Normalised(m, j as real);
    assert crv.Calc(m, i as real) == omin as real + d * yi;
    assert crv.Calc(m, j as real) == omin as real + d * yj;
    Stretch(omin as real, d, yi, yj);
    assert omin as real + d == omax as real;
  }

  /** Rounding: monotone, never below an integer bound, and below `hi` as stated. */
  lemma {:induction false} Rounding(v: real, w: real, lo: int, hi: int)
    requires lo as real <= v <= w <= hi as real
    ensures lo <= Truncate(v + 0.5) <= Truncate(w + 0.5)
    ensures Truncate(w + 0.5) <= hi <==> hi >= 0 || w <= hi as real - 0.5
    ensures Truncate(w + 0.5) <= hi + 1
  {
  }

  /** Truncation toward zero does not lift the last interior sample above a negative omax. */
  predicate StaysBelow(m: Libm, crv: RspCrv, imin: int, imax: int, omax: int) {
    omax >= 0 || imax == imin + 1 || crv.Calc(m, (imax - 1) as real) <= omax as real - 0.5
  }

  /**
   The table climbs from omin to omax, so that it is in range and curve_map is monotone,
   exactly when omax is not negative or the last interior sample stays half a unit below it.
   */
  lemma {:induction false} TableIsSound(m: Libm, crv: RspCrv, imin: int, imax: int, omin: int, omax: int, parts: nat)
    requires Suits(crv, imin, imax, omin, omax, parts) && PassesCheck(crv)
    ensures TableOf(m, crv, imin, imax, omin, omax).Climbs(omin, omax) <==> StaysBelow(m, crv, imin, imax, omax)
  {
    if StaysBelow(m, crv, imin, imax, omax) {
      TableClimbs(m, crv, imin, imax, omin, omax, parts);
    } else {
      var t, k := TableOf(m, crv, imin, imax, omin, omax), imax - 1 - imin;
      var last := crv.Calc(m, (imax - 1) as real);
      CalcClimbs(m, crv, imin, imax, omin, omax, parts, imax - 1, imax - 1);
      Rounding(last, last, omin, omax);
      assert t.out[k] == Entry(m, crv, imin, imax, omin, omax, imin + k);
      assert t.out[k + 1] == Entry(m, crv, imin, imax, omin, omax, imin + (k + 1)) == omax;
    }
  }

  lemma {:induction false} ArgumentsMeetEnds(m: Libm, crv: RspCrv, imin: int, imax: int, omin: int, omax: int, parts: nat)
    requires Suits(crv, imin, imax, omin, omax, parts)
    ensures crv.Argument(m, imin as real) == crv.cmin && crv.Argument(m, imax as real) == crv.cmax
  {
    SamplesLieOnGrid(m, crv, imin, imax, omin, omax, parts, imin);
    SamplesLieOnGrid(m, crv, imin, imax, omin, omax, parts, imax);
    GridEnds(crv, imin, imax, omin, omax, parts);
    assert Point(imin, parts, imin) == 0;
  }

  lemma {:induction false} ScaledEnds(base: real, d: real, span: real)
    requires span != 0.0
    ensures base + d * (0.0 / span) == base && base + d * (span / span) == base + d
  {
  }

  /** The fixed ends of the table are the values of the curve there. */
  lemma {:induction false} CalcMeetsEnds(m: Libm, crv: RspCrv, imin: int, imax: int, omin: int, omax: int, parts: nat)
    requires Suits(crv, imin, imax, omin, omax, parts)
    ensures crv.Calc(m, imin as real) == omin as real && crv.Calc(m, imax as real) == omax as real
  {
    ArgumentsMeetEnds(m, crv, imin, imax, omin, omax, parts);
    ScaledEnds(crv.omin, crv.omax - crv.omin, crv.FCmax() - crv.FCmin());
    assert crv.Normalised(m, imin as real) == 0.0 / (crv.FCmax() - crv.FCmin());
    assert crv.Normalised(m, imax as real) == (crv.FCmax() - crv.FCmin()) / (crv.FCmax() - crv.FCmin());
  }

  /** Interior entries are rounded half up, except that below -1/2 truncation lifts them by one. */
  lemma {:induction false} EntriesRound(m: Libm, crv: RspCrv, imin: int, imax: int, omin: int, omax: int, i: int)
    requires imin < i < imax
    ensures var v, entry := crv.Calc(m, i as real), Entry(m, crv, imin, imax, omin, omax, i) as real;
            if v >= -0.5 then entry - 0.5 <= v < entry + 0.5 else entry - 1.5 < v <= entry - 0.5
  {
  }

  lemma {:induction false} TableClimbs(m: Libm, crv: RspCrv, imin: int, imax: int, omin: int, omax: int, parts: nat)
    requires Suits(crv, imin, imax, omin, omax, parts) && PassesCheck(crv)
    requires StaysBelow(m, crv, imin, imax, omax)
    ensures TableOf(m, crv, imin, imax, omin, omax).Climbs(omin, omax)
  {
    var t := TableOf(m, crv, imin, imax, omin, omax);
    forall i, j | 0 <= i <= j < |t.out|
      ensures t.out[i] <= t.out[j]
    {
      EntriesClimb(m, crv, imin, imax, omin, omax, parts, imin + i, imin + j);
    }
    assert t.out[0] == Entry(m, crv, imin, imax, omin, omax, imin + 0);
    var last := imax - imin;
    assert t.out[last] == Entry(m, crv, imin, imax, omin, omax, imin + last);
  }

  /** Two entries are in order unless the second is the end of the table and too low. */
  lemma {:induction false} EntriesClimb(m: Libm, crv: RspCrv, imin: int, imax: int, omin: int, omax: int, parts: nat, i: int, j: int)
    requires Suits(crv, imin, imax, omin, omax, parts) && PassesCheck(crv) && imin <= i <= j <= imax
    requires StaysBelow(m, crv, imin, imax, omax)
    ensures omin <= Entry(m, crv, imin, imax, omin, omax, i) <= Entry(m, crv, imin, imax, omin, omax, j) <= omax
  {
    CalcClimbs(m, crv, imin, imax, omin, omax, parts, i, j);
    Rounding(crv.Calc(m, i as real), crv.Calc(m, j as real), omin, omax);
    if i < imax {
      CalcClimbs(m, crv, imin, imax, omin, omax, parts, i, imax - 1);
      Rounding(crv.Calc(m, i as real), crv.Calc(m, (imax - 1) as real), omin, omax);
    }
    if j < imax {
      CalcClimbs(m, crv, imin, imax, omin, omax, parts, j, imax - 1);
      Rounding(crv.Calc(m, j as real), crv.Calc(m, (imax - 1) as real), omin, omax);
    }
  }

  /** Whatever the sign of omax, no interior entry exceeds it by more than one. */
  lemma {:induction false} EntriesNearRange(m: Libm, crv: RspCrv, imin: int, imax: int, omin: int, omax: int, parts: nat, i: int)
    requires Suits(crv, imin, imax, omin, omax, parts) && PassesCheck(crv) && imin < i < imax
    ensures omin <= Entry(m, crv, imin, imax, omin, omax, i) <= omax + 1
  {
    CalcClimbs(m, crv, imin, imax, omin, omax, parts, i, i);
    Rounding(crv.Calc(m, i as real), crv.Calc(m, i as real), omin, omax);
  }

  /** And omax + 1 is reached: the curve x on [0, 1], from 0..4 onto -2..-1. */
  lemma {:induction false} NegativeRangeOverflows(m: Libm)
    ensures var crv := RspCrv(x => x, 0.0, 1.0, 0.0, 4.0, -2.0, -1.0);
            && Suits(crv, 0, 4, -2, -1, 1) && PassesCheck(crv)
            && Entry(m, crv, 0, 4, -2, -1, 3) == 0
  {
    var crv := RspCrv(x => x, 0.0, 1.0, 0.0, 4.0, -2.0, -1.0);
    var grid := GridOf(0.0, 0.25);
    forall k: nat
      ensures crv.fn(grid(k)) <= crv.fn(grid(k + 1))
    {
      GridStep(0.0, 0.25, k);
    }
    assert Rising(crv.fn, grid, LastIndex(0.0, 1.0, 0.25));
    assert crv.Argument(m, 3.0) == 0.75;
    assert crv.Normalised(m, 3.0) == 0.75;
    assert crv.Calc(m, 3.0) == -1.25;
  }

  /** The point of the curve range that divides it as the input divides the input range. */
  function PointOf(crv: RspCrv, input: real): real
    requires crv.imin < crv.imax
  {
    crv.cmin + (input - crv.imin) / (crv.imax - crv.imin) * (crv.cmax - crv.cmin)
  }

  /** The curve at an input between the ends, scaled from the curve's values there to the output range. */
  function ScaledValue(crv: RspCrv, input: real): real
    requires crv.imin < crv.imax && crv.fn(crv.cmin) != crv.fn(crv.cmax)
  {
    crv.omin + (crv.omax - crv.omin) * PartOf(crv, crv.fn(PointOf(crv, input)))
  }

  /** How far a value is on the way from the curve's first value to its last. */
  function PartOf(crv: RspCrv, y: real): real
    requires crv.fn(crv.cmin) != crv.fn(crv.cmax)
  {
    (y - crv.fn(crv.cmin)) / (crv.fn(crv.cmax) - crv.fn(crv.cmin))
  }

  /**
   The table from end to end: the ends of the input range map to those of the output range, and an
   input between them to the curve's value there, scaled to the output range, up to half a unit.
   Where that value is below -1/2 the table is up to a unit and a half above it instead.
   */
  lemma {:induction false} InputsMapToScaledValues(m: Libm, crv: RspCrv, imin: int, imax: int, omin: int, omax: int, x: int)
    requires imin < imax && crv.fn(crv.cmin) != crv.fn(crv.cmax)
    requires crv.imin == imin as real && crv.imax == imax as real
    ensures var t := TableOf(m, crv, imin, imax, omin, omax);
            && (x <= imin ==> t.Map(x) == omin == t.out[0])
            && (x >= imax ==> t.Map(x) == omax == t.out[|t.out| - 1])
            && (imin < x < imax ==>
                  var scaled := ScaledValue(crv, x as real);
                  && t.Map(x) == t.out[x - imin]
                  && (scaled >= -0.5 ==> scaled - 0.5 < t.Map(x) as real <= scaled + 0.5)
                  && (scaled < -0.5 ==> scaled + 0.5 <= t.Map(x) as real < scaled + 1.5))
  {
    hide Truncate, Table.Map, RspCrv.Calc, ScaledValue;
    var t := TableOf(m, crv, imin, imax, omin, omax);
    MapIsLookup(t, x);
    assert t.out[0] == Entry(m, crv, imin, imax, omin, omax, imin + 0);
    assert t.out[imax - imin] == Entry(m, crv, imin, imax, omin, omax, imin + (imax - imin));
    if imin < x < imax {
      assert t.out[x - imin] == Entry(m, crv, imin, imax, omin, omax, imin + (x - imin));
      CalcIsScaled(m, crv, x as real);
      TruncateRounds(crv.Calc(m, x as real));
    }
  }

  lemma {:induction false} CalcIsScaled(m: Libm, crv: RspCrv, input: real)
    requires crv.imin < input < crv.imax && crv.fn(crv.cmin) != crv.fn(crv.cmax)
    ensures crv.Calc(m, input) == ScaledValue(crv, input)
  {
    ArgumentIs(m, crv, input);
    NormalisedIs(m, crv, input);
    hide RspCrv.Normalised, RspCrv.Argument, PointOf, PartOf;
  }

  lemma {:induction false} ArgumentIs(m: Libm, crv: RspCrv, input: real)
    requires crv.imin < crv.imax
    ensures crv.Argument(m, input) == PointOf(crv, input)
  {
    assert m.Divide(input - crv.imin, crv.imax - crv.imin) == (input - crv.imin) / (crv.imax - crv.imin);
  }

  lemma {:induction false} NormalisedIs(m: Libm, crv: RspCrv, input: real)
    requires crv.fn(crv.cmin) != crv.fn(crv.cmax)
    ensures crv.Normalised(m, input) == PartOf(crv, crv.fn(crv.Argument(m, input)))
  {
    hide RspCrv.Argument;
  }

  /** Half a unit added in front of a truncation. */
  lemma {:induction false} TruncateRounds(v: real)
    ensures v >= -0.5 ==> v - 0.5 < Truncate(v + 0.5) as real <= v + 0.5
    ensures v < -0.5 ==> v + 0.5 <= Truncate(v + 0.5) as real < v + 1.5
  {
  }

  /** The curve named by a text: what is registered under it, and otherwise the tree it spells. */
  lemma {:induction false} TextsAreCurves(m: Libm, strtod: Strtod, registered: map<string, real -> real>, s: Infix)
    requires InBounds(strtod) && ReadsDecimals(strtod)
    requires Printable(s) && EnoughParens(s)
    requires Depth(s) <= RPN_LIMIT && |Postfix(Tree(s))| < RPN_LIMIT
    ensures forall t :: t in Spell(s) ==> Writable(t)
    ensures var text := Print(Spell(s));
            match CurveFunction(m, strtod, registered, text)
            case None => false
            case Some(fn) =>
              if text in registered then fn == registered[text] else forall x :: fn(x) == Value(m, Tree(s), x)
  {
    PrintedTreesRoundTrip(m, strtod, s);
    PostfixComputes(Tree(s));
    BodyOfTerminated(Postfix(Tree(s)));
  }

  /** A text that compiles but has no value stands for zero. */
  lemma {:induction false} TextsWithoutValue(m: Libm, strtod: Strtod, registered: map<string, real -> real>, text: string, rpn: seq<Token>)
    requires InBounds(strtod) && text !in registered && ParseText(strtod, text) == Some(rpn + [End]) && Computes(rpn)
    ensures match CurveFunction(m, strtod, registered, text)
            case None => false
            case Some(fn) => forall x :: fn(x) == match RpnEvaluator.Calc(m, rpn, x, [])
                                                  case Normal(v) => v
                                                  case Abnormal(_) => 0.0
  {
    BodyOfTerminated(rpn);
  }

  /** The k-th point of the check: one part of the curve range for each unit of the input range. */
  function CheckPoint(crv: RspCrv, k: nat): real
    requires crv.imin != crv.imax
  {
    crv.cmin + k as real * (1.0 / (crv.imax - crv.imin))
  }

  /** Between any two of its points within the curve range the curve goes one way. */
  ghost predicate OneWay(crv: RspCrv, up: bool)
    requires crv.imin != crv.imax
  {
    forall j: nat, k: nat :: j <= k && CheckPoint(crv, k) <= crv.cmax ==>
      if up then crv.fn(CheckPoint(crv, j)) <= crv.fn(CheckPoint(crv, k))
      else crv.fn(CheckPoint(crv, j)) >= crv.fn(CheckPoint(crv, k))
  }

  /** The check accepts exactly the curves that rise or fall between all points of the check, and all with a single input. */
  lemma {:induction false} PassesIffOneWay(crv: RspCrv)
    requires crv.imin <= crv.imax
    ensures PassesCheck(crv) <==> crv.imin == crv.imax || OneWay(crv, true) || OneWay(crv, false)
  {
    if crv.imin < crv.imax {
      var step := CheckStep(crv);
      StepIsPositive(crv);
      var grid, n := GridOf(crv.cmin, step), LastIndex(crv.cmin, crv.cmax, step);
      forall k: nat
        ensures grid(k) == CheckPoint(crv, k) && (CheckPoint(crv, k) <= crv.cmax <==> k <= n)
      {
        GridIndex(crv.cmin, crv.cmax, step, k);
      }
      OneWayIs(crv, grid, n);
    }
  }

  lemma {:induction false} StepIsPositive(crv: RspCrv)
    requires crv.imin < crv.imax
    ensures CheckStep(crv) > 0.0
  {
  }

  lemma {:induction false} OneWayIs(crv: RspCrv, grid: nat -> real, n: int)
    requires crv.imin < crv.imax
    requires forall k: nat :: grid(k) == CheckPoint(crv, k) && (CheckPoint(crv, k) <= crv.cmax <==> k <= n)
    ensures OneWay(crv, true) <==> Rising(crv.fn, grid, n)
    ensures OneWay(crv, false) <==> Falling(crv.fn, grid, n)
  {
    hide CheckPoint;
    forall j: nat, k: nat | j <= k && CheckPoint(crv, k) <= crv.cmax
      ensures Rising(crv.fn, grid, n) ==> crv.fn(CheckPoint(crv, j)) <= crv.fn(CheckPoint(crv, k))
      ensures Falling(crv.fn, grid, n) ==> crv.fn(CheckPoint(crv, j)) >= crv.fn(CheckPoint(crv, k))
    {
      RisingOrders(crv.fn, grid, n, j, k);
    }
    forall k: nat | k + 1 <= n
      ensures OneWay(crv, true) ==> crv.fn(grid(k)) <= crv.fn(grid(k + 1))
      ensures OneWay(crv, false) ==> crv.fn(grid(k)) >= crv.fn(grid(k + 1))
    {
      assert CheckPoint(crv, k + 1) <= crv.cmax;
    }
  }

  /** A climbing table makes curve_map monotone on all integers, with values in range. */
  lemma {:induction false} MapIsMonotone(t: Table, lo: int, hi: int, x: int, y: int)
    requires t.Valid() && t.Climbs(lo, hi) && x <= y
    ensures lo <= t.Map(x) <= t.Map(y) <= hi
    ensures t.Map(t.Clamp(x)) == t.Map(x) && t.min <= t.Clamp(x) <= t.Clamp(y) <= t.max
  {
  }
}
