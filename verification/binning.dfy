/** `pd.cut` with explicit bin edges, and the scoring-tier bins built on it. */
module Binning {
  import opened Wrappers
  import opened Records

  predicate Increasing(edges: seq<real>) {
    forall i, j :: 0 <= i < j < |edges| ==> edges[i] < edges[j]
  }

  /** `pd.cut(x, bins=edges, labels=labels)` with its defaults `right=True` and
      `include_lowest=False`: bin `i` is the half-open interval
      `(edges[i], edges[i+1]]`; a value outside every bin gets no label. */
  function Cut<L>(x: real, edges: seq<real>, labels: seq<L>): (r: Option<L>)
    requires |edges| >= 2 && |labels| == |edges| - 1 && Increasing(edges)
    ensures r.Some? <==> edges[0] < x <= edges[|edges| - 1]
    ensures forall i :: 0 <= i < |labels| && edges[i] < x <= edges[i + 1] ==> r == Some(labels[i])
    decreases |edges|
  {
    if edges[0] < x <= edges[1] then Some(labels[0])
    else if |edges| == 2 then None
    else
      var r := Cut(x, edges[1..], labels[1..]);
      assert forall i :: 1 <= i < |labels| ==> labels[i] == labels[1..][i - 1];
      assert forall i :: 1 <= i < |edges| ==> edges[i] == edges[1..][i - 1];
      r
  }

  const TierEdges: seq<real> := [0.0, 10.0, 15.0, 20.0, 25.0, 50.0]
  const TierLabels: seq<Tier> := [Bench, RolePlayer, Starter, Star, Superstar]

  /** The scoring tier of a points-per-game value: right edges inclusive, left
      edges exclusive (including the first), nothing outside (0, 50]. */
  function ScoringTier(ppg: real): (r: Option<Tier>)
    ensures r == Some(Bench) <==> 0.0 < ppg <= 10.0
    ensures r == Some(RolePlayer) <==> 10.0 < ppg <= 15.0
    ensures r == Some(Starter) <==> 15.0 < ppg <= 20.0
    ensures r == Some(Star) <==> 20.0 < ppg <= 25.0
    ensures r == Some(Superstar) <==> 25.0 < ppg <= 50.0
    ensures r == None <==> ppg <= 0.0 || ppg > 50.0
  {
    var r := Cut(ppg, TierEdges, TierLabels);
    assert TierLabels[0] == Bench && TierLabels[1] == RolePlayer && TierLabels[2] == Starter;
    assert TierLabels[3] == Star && TierLabels[4] == Superstar;
    r
  }

  /** The edge cases: 10 is still Bench, anything above it is Role Player, 20
      is Starter, and 0 is no tier at all rather than Bench. */
  lemma TierBoundaries()
    ensures ScoringTier(10.0) == Some(Bench)
    ensures ScoringTier(10.01) == Some(RolePlayer)
    ensures ScoringTier(20.0) == Some(Starter)
    ensures ScoringTier(0.0) == None && ScoringTier(50.5) == None
  {
  }
}
