/**
 Response curves: a function is checked for monotonicity on a grid, sampled, scaled and
 rounded into an integer table, which then maps clamped integers to integers.
 */
module ResponseCurve {
  import opened Wrappers
  import opened RpnTokens
  import opened RpnEvaluator
  import opened RpnLexer
  import opened RpnParser
  import opened RpnParseMethod
  import opened RpnConservation

  datatype RspCrv = RspCrv(
    fn: real -> real,
    cmin: real, cmax: real,   // part of the curve to use
    imin: real, imax: real,   // input range
    omin: real, omax: real)   // output range
  {
    function FCmin(): real { fn(cmin) }

    function FCmax(): real { fn(cmax) }

    /** The curve's argument for an input within range. */
    function Argument(m: Libm, input: real): real {
      cmin + m.Divide(input - imin, imax - imin) * (cmax - cmin)
    }

    /** The curve's value there, scaled so that the ends of the curve are 0 and 1. */
    function Normalised(m: Libm, input: real): real {
      m.Divide(fn(Argument(m, input)) - FCmin(), FCmax() - FCmin())
    }

    function Calc(m: Libm, input: real): real {
      var clamped := if input < imin then imin else if input > imax then imax else input;
      omin + (omax - omin) * Normalised(m, clamped)
    }
  }

  /** The grid check_monotonic visits: `min`, `min + step`, and so on up to `max`. */
  function Grid(min: real, step: real, k: nat): real {
    min + k as real * step
  }

  /** Index of the last grid point that is not beyond `max`. */
  function LastIndex(min: real, max: real, step: real): int
    requires step > 0.0
  {
    ((max - min) / step).Floor
  }

  /** Along the grid points `0..n` the function only rises (falls). */
  ghost predicate Rising(fn: real -> real, grid: nat -> real, n: int) {
    forall k: nat :: k + 1 <= n ==> fn(grid(k)) <= fn(grid(k + 1))
  }

  ghost predicate Falling(fn: real -> real, grid: nat -> real, n: int) {
    forall k: nat :: k + 1 <= n ==> fn(grid(k)) >= fn(grid(k + 1))
  }

  function GridOf(min: real, step: real): nat -> real {
    (k: nat) => Grid(min, step, k)
  }

  lemma {:induction false} GridStep(min: real, step: real, k: nat)
    ensures Grid(min, step, k + 1) == Grid(min, step, k) + step
  {
    assert (k + 1) as real * step == k as real * step + step;
  }

  lemma {:induction false} GridIndex(min: real, max: real, step: real, k: nat)
    requires step > 0.0
    ensures Grid(min, step, k) <= max <==> k <= LastIndex(min, max, step)
  {
    var q := (max - min) / step;
    assert q * step == max - min;
    if k as real <= q {
      assert k as real * step <= q * step;
    } else {
      assert k as real * step > q * step;
    }
  }

  /** What the loop below needs to know of a grid with last index `n`. */
  ghost predicate IsGrid(grid: nat -> real, min: real, max: real, step: real, n: int) {
    && grid(0) == min
    && (forall k: nat :: grid(k + 1) == grid(k) + step)
    && (forall k: nat :: grid(k) <= max <==> k <= n)
  }

  lemma {:induction false} GridOfIsGrid(min: real, max: real, step: real)
    requires step > 0.0
    ensures IsGrid(GridOf(min, step), min, max, step, LastIndex(min, max, step))
  {
    var grid := GridOf(min, step);
    assert grid(0) == min + 0 as real * step == min;
    forall k: nat
      ensures grid(k + 1) == grid(k) + step && (grid(k) <= max <==> k <= LastIndex(min, max, step))
    {
      GridStep(min, step, k);
      GridIndex(min, max, step, k);
    }
  }

  /** The grid leaves the curve range, and the check of a monotonic function ends, exactly for a positive step. */
  lemma {:induction false} GridEndsIff(min: real, max: real, step: real)
    requires min <= max
    ensures (exists k: nat :: Grid(min, step, k) > max) <==> step > 0.0
  {
    if step > 0.0 {
      var n := LastIndex(min, max, step);
      var k: nat := if n < 0 then 0 else n + 1;
      GridIndex(min, max, step, k);
      assert Grid(min, step, k) > max;
    } else {
      forall k: nat
        ensures Grid(min, step, k) <= max
      {
        assert k as real * step <= 0.0;
      }
    }
  }

  /** One more grid point. */
  lemma {:induction false} RunsOn(fn: real -> real, grid: nat -> real, k: nat)
    ensures Rising(fn, grid, k + 1) <==> Rising(fn, grid, k) && fn(grid(k)) <= fn(grid(k + 1))
    ensures Falling(fn, grid, k + 1) <==> Falling(fn, grid, k) && fn(grid(k)) >= fn(grid(k + 1))
  {
  }

  lemma {:induction false} Shortened(fn: real -> real, grid: nat -> real, k: int, n: int)
    requires k <= n
    ensures Rising(fn, grid, n) ==> Rising(fn, grid, k)
    ensures Falling(fn, grid, n) ==> Falling(fn, grid, k)
  {
  }

  /** Accepts exactly the functions that only rise or only fall along the grid. */
  method CheckMonotonic(fn: real -> real, min: real, max: real, step: real, ghost grid: nat -> real, ghost n: int)
    returns (monotonic: bool)
    requires IsGrid(grid, min, max, step, n)
    ensures monotonic <==> Rising(fn, grid, n) || Falling(fn, grid, n)
  {
    var diff, prev, x := 0, fn(min), min + step;
    ghost var k := 0;
    assert x == grid(1);
    while x <= max
      invariant x == grid(k + 1) && prev == fn(grid(k)) && (k == 0 || k <= n)
      invariant Rising(fn, grid, k) <==> diff >= 0
      invariant Falling(fn, grid, k) <==> diff <= 0
      decreases n - k
    {
      var y := fn(x);
      RunsOn(fn, grid, k);
      if diff == 0 {
        if y < prev { diff := -1; } else if y > prev { diff := 1; }
      }
      if (diff < 0 && y > prev) || (diff > 0 && y < prev) {
        Shortened(fn, grid, k + 1, n);
        return false;
      }
      prev, x, k := y, x + step, k + 1;
    }
    return true;
  }

  /** The step of the check: one part of the curve range per part of the input range. */
  function CheckStep(crv: RspCrv): real
    requires crv.imin < crv.imax
  {
    1.0 / (crv.imax - crv.imin)
  }

  /** An input range of one point makes the step infinite, and then no second point is checked. */
  ghost predicate PassesCheck(crv: RspCrv) {
    crv.imin == crv.imax ||
    (crv.imin < crv.imax && CheckStep(crv) > 0.0 &&
     var step := CheckStep(crv);
     var n := LastIndex(crv.cmin, crv.cmax, step);
     Rising(crv.fn, GridOf(crv.cmin, step), n) || Falling(crv.fn, GridOf(crv.cmin, step), n))
  }

  method CheckCurve(crv: RspCrv) returns (ok: bool)
    requires crv.imin <= crv.imax
    ensures ok <==> PassesCheck(crv)
  {
    if crv.imin == crv.imax { return true; }
    var step := CheckStep(crv);
    GridOfIsGrid(crv.cmin, crv.cmax, step);
    ok := CheckMonotonic(crv.fn, crv.cmin, crv.cmax, step,
                         GridOf(crv.cmin, step), LastIndex(crv.cmin, crv.cmax, step));
  }

  /** rpn_calc returns 0.0 where it has no value. */
  function Returned(r: Outcome): real {
    match r
    case Normal(v) => v
    case Abnormal(_) => 0.0
  }

  /** rpn_calc with its compiled expression. */
  function RpnFunction(m: Libm, body: seq<Token>): real -> real {
    (x: real) => Returned(RpnEvaluator.Calc(m, body, x, []))
  }

  lemma {:induction false} ParsedTextEnds(strtod: Strtod, text: string)
    requires InBounds(strtod) && ParseText(strtod, text).Some?
    ensures End in ParseText(strtod, text).value
  {
    var toks := Lex(strtod, text, 0).toks;
    assert ParseText(strtod, text) == Compile(toks);
    var body := CompileConserves(toks);
    BodyOfTerminated(body);
  }

  lemma {:induction false} BodyOfPrefix(rpn: seq<Token>, buffer: seq<Token>)
    requires rpn <= buffer && End in rpn
    ensures Body(buffer) == Body(rpn)
    decreases |rpn|
  {
    if rpn[0] != End {
      BodyOfPrefix(rpn[1..], buffer[1..]);
    }
  }

  /** The curve function named or spelled by `text`: registered functions come first. */
  function CurveFunction(m: Libm, strtod: Strtod, registered: map<string, real -> real>, text: string)
    : Option<real -> real>
    requires InBounds(strtod)
  {
    if text in registered then Some(registered[text])
    else
      match ParseText(strtod, text)
      case None => None
      case Some(rpn) =>
        ParsedTextEnds(strtod, text);
        Some(RpnFunction(m, Body(rpn)))
  }

  /** The conversion (int)d truncates toward zero. */
  function Truncate(v: real): int {
    if v >= 0.0 then v.Floor else -((-v).Floor)
  }

  /** An integer table over `min..max`. */
  datatype Table = Table(min: int, max: int, out: seq<int>) {
    predicate Valid() {
      min <= max && |out| == max - min + 1
    }

    function Clamp(x: int): int {
      if x < min then min else if x > max then max else x
    }

    function Map(x: int): int
      requires Valid()
    {
      out[Clamp(x) - min]
    }

    /** Nondecreasing, from `lo` to `hi`. */
    ghost predicate Climbs(lo: int, hi: int)
      requires Valid()
    {
      && out[0] == lo && out[|out| - 1] == hi
      && forall i, j :: 0 <= i <= j < |out| ==> out[i] <= out[j]
    }
  }

  /** A table maps what it covers to the entry of that input, and all else like the nearer end. */
  lemma {:induction false} MapIsLookup(t: Table, x: int)
    requires t.Valid()
    ensures t.min <= x <= t.max ==> t.Map(x) == t.out[x - t.min] && t.Clamp(x) == x
    ensures x < t.min ==> t.Map(x) == t.out[0] && t.Clamp(x) == t.min
    ensures x > t.max ==> t.Map(x) == t.out[|t.out| - 1] && t.Clamp(x) == t.max
  {
  }

  function Entry(m: Libm, crv: RspCrv, imin: int, imax: int, omin: int, omax: int, i: int): int {
    if i == imax then omax
    else if i == imin then omin
    else Truncate(crv.Calc(m, i as real) + 0.5)
  }

  function TableOf(m: Libm, crv: RspCrv, imin: int, imax: int, omin: int, omax: int): (t: Table)
    requires imin <= imax
    ensures t.Valid()
  {
    Table(imin, imax, seq(imax - imin + 1, k requires 0 <= k => Entry(m, crv, imin, imax, omin, omax, imin + k)))
  }

  class Curve {
    const min: int
    const max: int
    const out: array<int>

    ghost predicate Valid() {
      min <= max && out.Length == max - min + 1
    }

    constructor (min: int, max: int)
      requires min <= max
      ensures Valid() && fresh(out) && this.min == min && this.max == max
    {
      this.min, this.max, out := min, max, new int[max - min + 1];
    }

    ghost function Contents(): Table
      reads out
    {
      Table(min, max, out[..])
    }
  }

  method RspcrvCreate(m: Libm, strtod: Strtod, registered: map<string, real -> real>, text: string,
                      cmin: real, cmax: real, imin: real, imax: real, omin: real, omax: real)
    returns (crv: Option<RspCrv>)
    requires InBounds(strtod) && imin <= imax
    ensures match CurveFunction(m, strtod, registered, text)
            case None => crv == None
            case Some(fn) =>
              var c := RspCrv(fn, cmin, cmax, imin, imax, omin, omax);
              crv == if PassesCheck(c) then Some(c) else None
  {
    var fn;
    if text in registered {
      fn := registered[text];
    } else {
      var rpn := RpnParse(strtod, text);
      if rpn == null { return None; }
      ParsedTextEnds(strtod, text);
      BodyOfPrefix(ParseText(strtod, text).value, rpn[..]);
      fn := RpnFunction(m, Body(rpn[..]));
    }
    var c := RspCrv(fn, cmin, cmax, imin, imax, omin, omax);
    var ok := CheckCurve(c);
    return if ok then Some(c) else None;
  }

  /** NULL when the function does not compile or fails the check, and otherwise its table. */
  method CurveCreate(m: Libm, strtod: Strtod, registered: map<string, real -> real>, text: string,
                     cmin: real, cmax: real, imin: int, imax: int, omin: int, omax: int)
    returns (result: Curve?)
    requires InBounds(strtod) && imin <= imax
    ensures match CurveFunction(m, strtod, registered, text)
            case None => result == null
            case Some(fn) =>
              var crv := RspCrv(fn, cmin, cmax, imin as real, imax as real, omin as real, omax as real);
              && (result != null <==> PassesCheck(crv))
              && (result != null ==>
                    fresh(result) && result.Valid() && result.Contents() == TableOf(m, crv, imin, imax, omin, omax))
  {
    var rsp := RspcrvCreate(m, strtod, registered, text, cmin, cmax, imin as real, imax as real, omin as real, omax as real);
    if rsp == None { return null; }
    result := new Curve(imin, imax);
    FillTable(m, rsp.value, result.out, imin, imax, omin, omax);
  }

  /** Sample the curve between the two fixed ends of the table. */
  method FillTable(m: Libm, crv: RspCrv, out: array<int>, imin: int, imax: int, omin: int, omax: int)
    requires imin <= imax && out.Length == imax - imin + 1
    modifies out
    ensures out[..] == TableOf(m, crv, imin, imax, omin, omax).out
  {
    out[0] := omin;
    var i := imin + 1;
    while i < imax
      invariant imin < i && (i <= imax || imin == imax)
      invariant out[0] == omin
      invariant forall k :: 0 < k < i - imin && k < out.Length ==> out[k] == Entry(m, crv, imin, imax, omin, omax, imin + k)
    {
      out[i - imin] := Truncate(crv.Calc(m, i as real) + 0.5);
      i := i + 1;
    }
    out[out.Length - 1] := omax;
    forall k | 0 <= k < out.Length
      ensures out[k] == Entry(m, crv, imin, imax, omin, omax, imin + k)
    {
    }
    assert |out[..]| == |TableOf(m, crv, imin, imax, omin, omax).out|;
  }

  /** Without a curve the input maps to itself; otherwise it is clamped and looked up. */
  method CurveMap(crv: Curve?, x: int) returns (y: int, clamped: int)
    requires crv != null ==> crv.Valid()
    ensures crv == null ==> y == x && clamped == x
    ensures crv != null ==> y == crv.Contents().Map(x) && clamped == crv.Contents().Clamp(x)
    ensures crv != null ==>
              && clamped == (if x < crv.min then crv.min else if x > crv.max then crv.max else x)
              && y == crv.out[clamped - crv.min]
  {
    clamped := x;
    if crv == null {
      y := x;
    } else {
      if x < crv.min { clamped := crv.min; } else if x > crv.max { clamped := crv.max; }
      y := crv.out[clamped - crv.min];
    }
  }
}
