/** The float64 values the pipeline's columns can hold. Finite values are kept as
    exact reals (no representation error); the non-finite values are kept
    because a division by a zero denominator produces them and `fillna(0)`
    replaces only NaN. */
module Floats {

  datatype Float = Finite(v: real) | PosInf | NegInf | NaN

  /** IEEE-754 quotient of two finite operands; a zero denominator is +0.0,
      which is what `fillna(0)` and integer-valued counting columns produce. */
  function Divide(n: real, d: real): (r: Float)
    ensures r.Finite? <==> d != 0.0
    ensures r.Finite? ==> r.v * d == n
    ensures r == PosInf <==> d == 0.0 && n > 0.0
    ensures r == NegInf <==> d == 0.0 && n < 0.0
    ensures r == NaN <==> d == 0.0 && n == 0.0
  {
    if d != 0.0 then Finite(n / d)
    else if n > 0.0 then PosInf
    else if n < 0.0 then NegInf
    else NaN
  }

  /** `Series.fillna(value)` on one cell: only NaN is replaced. */
  function FillNa(x: Float, value: real): Float {
    if x.NaN? then Finite(value) else x
  }

  /** IEEE-754 addition on the finite/infinite/NaN classes. */
  function Add(a: Float, b: Float): Float {
    match (a, b)
    case (NaN, _) => NaN
    case (_, NaN) => NaN
    case (PosInf, NegInf) => NaN
    case (NegInf, PosInf) => NaN
    case (PosInf, _) => PosInf
    case (_, PosInf) => PosInf
    case (NegInf, _) => NegInf
    case (_, NegInf) => NegInf
    case (Finite(x), Finite(y)) => Finite(x + y)
  }

  /** The exact sum of a sequence of reals, left to right. */
  function Sum(xs: seq<real>): real {
    if |xs| == 0 then 0.0 else Sum(xs[..|xs| - 1]) + xs[|xs| - 1]
  }

  /** The float sum of a column, left to right, starting from 0.0. */
  function FSum(xs: seq<Float>): Float {
    if |xs| == 0 then Finite(0.0) else Add(FSum(xs[..|xs| - 1]), xs[|xs| - 1])
  }

  /** The finite parts of a column whose cells are all finite. */
  function Values(xs: seq<Float>): (vs: seq<real>)
    requires forall i :: 0 <= i < |xs| ==> xs[i].Finite?
    ensures |vs| == |xs|
    ensures forall i :: 0 <= i < |xs| ==> xs[i] == Finite(vs[i])
  {
    seq(|xs|, i requires 0 <= i < |xs| => xs[i].v)
  }

  /** A float sum is finite exactly when every term is, and then it is the
      exact sum of the terms. */
  lemma {:induction false} FSumFinite(xs: seq<Float>)
    ensures FSum(xs).Finite? <==> forall i :: 0 <= i < |xs| ==> xs[i].Finite?
    ensures FSum(xs).Finite? ==> FSum(xs) == Finite(Sum(Values(xs)))
  {
    if |xs| > 0 {
      var init := xs[..|xs| - 1];
      FSumFinite(init);
      assert forall i :: 0 <= i < |init| ==> init[i] == xs[i];
      if FSum(xs).Finite? {
        assert Values(xs)[..|xs| - 1] == Values(init);
      }
    }
  }

  /** Division of a float by a positive count, as `mean` does after summing. */
  function DivCount(x: Float, n: nat): Float
    requires n > 0
  {
    match x
    case Finite(v) => Finite(v / n as real)
    case _ => x
  }

  /** `Series.mean()` of a non-empty column: the float sum over the row count. */
  function FMean(xs: seq<Float>): (m: Float)
    requires |xs| > 0
    ensures m.Finite? <==> forall i :: 0 <= i < |xs| ==> xs[i].Finite?
    ensures m.Finite? ==> m.v * |xs| as real == Sum(Values(xs))
  {
    FSumFinite(xs);
    DivCount(FSum(xs), |xs|)
  }

  /** `>=` between two float cells: false when either side is NaN, otherwise
      the order of the extended reals. */
  predicate AtLeast(a: Float, b: Float) {
    match (a, b)
    case (NaN, _) => false
    case (_, NaN) => false
    case (PosInf, _) => true
    case (_, NegInf) => true
    case (NegInf, _) => false
    case (_, PosInf) => false
    case (Finite(x), Finite(y)) => x >= y
  }

  /** Nearest integer to `y`, ties to the even neighbour (NumPy's rounding). */
  function RoundHalfEven(y: real): (k: int)
    ensures -0.5 <= k as real - y <= 0.5
  {
    var f := y.Floor;
    var frac := y - f as real;
    if frac < 0.5 then f
    else if frac > 0.5 then f + 1
    else if f % 2 == 0 then f
    else f + 1
  }

  /** True when `x` is a whole number of hundredths. */
  predicate IsCents(x: real) {
    (x * 100.0).Floor as real == x * 100.0
  }

  /** `round(2)` of a finite cell: the nearest hundredth, ties to even. */
  function Round2(x: real): (r: real)
    ensures IsCents(r)
    ensures -0.005 <= r - x <= 0.005
    ensures IsCents(x) ==> r == x
  {
    var k := RoundHalfEven(x * 100.0);
    assert (k as real / 100.0) * 100.0 == k as real;
    k as real / 100.0
  }

  /** `round(2)` of a float cell: infinities and NaN are left as they are. */
  function FRound2(x: Float): (r: Float)
    ensures r.Finite? <==> x.Finite?
    ensures x.Finite? ==> -0.005 <= r.v - x.v <= 0.005
    ensures !x.Finite? ==> r == x
  {
    match x
    case Finite(v) => Finite(Round2(v))
    case _ => x
  }
}
