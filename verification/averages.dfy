/** Means of real columns and the facts about them that relate a mean of
    per-game rates to a ratio of totals. */
module Averages {
  import opened Floats

  /** The arithmetic mean of a non-empty column, as `mean()` computes it on
      exact reals. */
  function Mean(xs: seq<real>): real
    requires |xs| > 0
  {
    Sum(xs) / |xs| as real
  }

  /** Scaling every entry scales the sum. */
  lemma {:induction false} SumScaled(xs: seq<real>, ys: seq<real>, g: real)
    requires |xs| == |ys|
    requires forall i :: 0 <= i < |xs| ==> xs[i] * g == ys[i]
    ensures Sum(xs) * g == Sum(ys)
  {
    if |xs| > 0 {
      var k := |xs| - 1;
      SumScaled(xs[..k], ys[..k], g);
      assert xs[k] * g == ys[k];
    }
  }

  /** A constant column sums to its length times the constant. */
  lemma {:induction false} SumConstant(xs: seq<real>, g: real)
    requires forall i :: 0 <= i < |xs| ==> xs[i] == g
    ensures Sum(xs) == |xs| as real * g
  {
    if |xs| > 0 {
      SumConstant(xs[..|xs| - 1], g);
    }
  }

  /** A common non-zero factor cancels from a quotient. */
  lemma CancelFactor(p: real, t: real, m: real, n: real, g: real)
    requires m == n && n != 0.0 && g != 0.0
    requires p * g == t
    ensures t / (m * g) == p / n
  {
  }

  /** The mean of rates equals the ratio of totals when every rate is its
      total over one common, non-zero game count. */
  lemma MeanOfEqualGames(rates: seq<real>, points: seq<real>, games: seq<real>, g: real)
    requires 0 < |rates| == |points| == |games| && g > 0.0
    requires forall i :: 0 <= i < |rates| ==> rates[i] * g == points[i]
    requires forall i :: 0 <= i < |games| ==> games[i] == g
    ensures Sum(games) == |games| as real * g
    ensures Mean(rates) == Sum(points) / Sum(games)
  {
    SumScaled(rates, points, g);
    SumConstant(games, g);
    CancelSums(rates, points, games, Sum(rates), Sum(points), g);
    MeanOverGames(rates, points, games, g);
  }

  /** CancelFactor on the sums; p and t name them as plain reals so that the
      non-linear step does not meet the recursive Sum. */
  lemma CancelSums(rates: seq<real>, points: seq<real>, games: seq<real>, p: real, t: real, g: real)
    requires 0 < |rates| == |games| && g != 0.0
    requires p == Sum(rates) && t == Sum(points) && Sum(rates) * g == Sum(points)
    ensures Sum(points) / (|games| as real * g) == Sum(rates) / (|rates| as real)
  {
    CancelFactor(p, t, |games| as real, |rates| as real, g);
  }

  /** The cancelled quotient is the mean over the games total. */
  lemma MeanOverGames(rates: seq<real>, points: seq<real>, games: seq<real>, g: real)
    requires 0 < |rates| == |games| && g != 0.0
    requires Sum(games) == |games| as real * g
    requires Sum(points) / (|games| as real * g) == Sum(rates) / (|rates| as real)
    ensures Mean(rates) == Sum(points) / Sum(games)
  {
  }

  /** The sum of a two-entry column. */
  lemma SumTwo(xs: seq<real>)
    requires |xs| == 2
    ensures Sum(xs) == xs[0] + xs[1]
  {
    assert Sum(xs[..1]) == xs[0] by {
      assert xs[..1][..0] == [];
    }
  }
}
