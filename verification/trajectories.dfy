/** `analyze_performance_outliers`: the Efficiency Paradox pick, and the
    career-trajectory labels from the first and last two seasons of players
    with at least five seasons. The quantile cutoffs are parameters. */
module Trajectories {
  import opened Wrappers
  import opened Floats
  import opened Text
  import opened Records
  import opened Career
  import opened Archetypes

  // ---------------------------------------------------------------------------
  // sort_values('SEASON_ID')

  predicate SortedBySeason(xs: seq<MetricRow>) {
    forall i, j :: 0 <= i < j < |xs| ==> AtMost(xs[i].s.season, xs[j].s.season)
  }

  function InsertBySeason(m: MetricRow, xs: seq<MetricRow>): (r: seq<MetricRow>)
    requires SortedBySeason(xs)
    ensures SortedBySeason(r)
    ensures multiset(r) == multiset(xs) + multiset{m}
  {
    if |xs| == 0 then [m]
    else if AtMost(m.s.season, xs[0].s.season) then
      assert forall j :: 0 <= j < |xs| ==> AtMost(m.s.season, xs[j].s.season) by {
        forall j | 0 <= j < |xs| ensures AtMost(m.s.season, xs[j].s.season) {
          AtMostTransitive(m.s.season, xs[0].s.season, xs[j].s.season);
        }
      }
      [m] + xs
    else
      var rest := InsertBySeason(m, xs[1..]);
      assert xs == [xs[0]] + xs[1..];
      LessTotal(m.s.season, xs[0].s.season);
      HeadBelowRest(m, xs, rest);
      [xs[0]] + rest
  }

  /** The head of a sorted list is at most every row of the tail with a
      later row inserted. */
  lemma HeadBelowRest(m: MetricRow, xs: seq<MetricRow>, rest: seq<MetricRow>)
    requires |xs| > 0 && SortedBySeason(xs)
    requires AtMost(xs[0].s.season, m.s.season)
    requires multiset(rest) == multiset(xs[1..]) + multiset{m}
    ensures forall k :: 0 <= k < |rest| ==> AtMost(xs[0].s.season, rest[k].s.season)
  {
    forall k | 0 <= k < |rest| ensures AtMost(xs[0].s.season, rest[k].s.season) {
      assert rest[k] in multiset(rest);
      if rest[k] != m {
        assert rest[k] in multiset(xs[1..]);
        var j :| 0 <= j < |xs[1..]| && xs[1..][j] == rest[k];
        assert xs[j + 1] == rest[k];
      }
    }
  }

  /** A stable sort of a player's rows by SEASON_ID. */
  function SortBySeason(xs: seq<MetricRow>): (r: seq<MetricRow>)
    ensures SortedBySeason(r)
    ensures multiset(r) == multiset(xs)
    ensures |r| == |xs|
  {
    if |xs| == 0 then []
    else
      assert xs == [xs[0]] + xs[1..];
      InsertBySeason(xs[0], SortBySeason(xs[1..]))
  }

  // ---------------------------------------------------------------------------
  // Trajectory labels

  datatype Trajectory = LateBloomer | EarlyPeak

  /** `head(2)['PPG'].mean()`. */
  function EarlyAverage(ppgs: seq<real>): real
    requires |ppgs| >= 2
  {
    (ppgs[0] + ppgs[1]) / 2.0
  }

  /** `tail(2)['PPG'].mean()`. */
  function LateAverage(ppgs: seq<real>): real
    requires |ppgs| >= 2
  {
    (ppgs[|ppgs| - 2] + ppgs[|ppgs| - 1]) / 2.0
  }

  const MinSeasons := 5
  const Growth := 1.2

  /** The label of a player's PPG sequence in season order, None when the
      player is unclassified. */
  function Classify(ppgs: seq<real>): (t: Option<Trajectory>)
    ensures t.Some? ==> |ppgs| >= MinSeasons
    ensures |ppgs| >= MinSeasons && LateAverage(ppgs) > EarlyAverage(ppgs) * Growth ==> t == Some(LateBloomer)
    ensures t == Some(LateBloomer) ==> LateAverage(ppgs) > EarlyAverage(ppgs) * Growth
    ensures t == Some(EarlyPeak) ==> EarlyAverage(ppgs) > LateAverage(ppgs) * Growth
    ensures |ppgs| >= MinSeasons && t.None? ==>
      LateAverage(ppgs) <= EarlyAverage(ppgs) * Growth && EarlyAverage(ppgs) <= LateAverage(ppgs) * Growth
  {
    if |ppgs| < MinSeasons then None
    else
      var early := EarlyAverage(ppgs);
      var late := LateAverage(ppgs);
      if late > early * Growth then Some(LateBloomer)
      else if early > late * Growth then Some(EarlyPeak)
      else None
  }

  /** For non-negative averages the two growth conditions exclude each other,
      so the order of the two tests does not matter. */
  lemma GrowthConditionsExclusive(early: real, late: real)
    requires early >= 0.0 && late >= 0.0
    ensures !(late > early * Growth && early > late * Growth)
  {
  }

  /** With negative averages both conditions can hold at once; the program
      then reports Late Bloomer because that test comes first. */
  lemma NegativeAveragesSatisfyBoth()
    ensures var early, late := -10.0, -11.0; late > early * Growth && early > late * Growth
  {
  }

  /** Only the first two and the last two seasons matter. */
  lemma ClassifyUsesEnds(p: seq<real>, q: seq<real>)
    requires |p| == |q| && |p| >= 2
    requires p[0] == q[0] && p[1] == q[1] && p[|p| - 2] == q[|q| - 2] && p[|p| - 1] == q[|q| - 1]
    ensures Classify(p) == Classify(q)
  {
  }

  function Scale(p: seq<real>, k: real): (q: seq<real>)
    ensures |q| == |p| && forall i :: 0 <= i < |p| ==> q[i] == p[i] * k
  {
    seq(|p|, i requires 0 <= i < |p| => p[i] * k)
  }

  /** The thresholds are relative: scaling every PPG by the same positive factor
      keeps the label. */
  lemma ClassifyScaleInvariant(p: seq<real>, k: real)
    requires k > 0.0
    ensures Classify(Scale(p, k)) == Classify(p)
  {
    var q := Scale(p, k);
    if |p| >= MinSeasons {
      assert EarlyAverage(q) == EarlyAverage(p) * k;
      assert LateAverage(q) == LateAverage(p) * k;
      assert LateAverage(q) > EarlyAverage(q) * Growth <==> LateAverage(p) > EarlyAverage(p) * Growth;
      assert EarlyAverage(q) > LateAverage(q) * Growth <==> EarlyAverage(p) > LateAverage(p) * Growth;
    }
  }

  function PpgColumn(rows: seq<MetricRow>): (c: seq<real>)
    ensures |c| == |rows| && forall i :: 0 <= i < |rows| ==> c[i] == rows[i].pg.ppg
  {
    seq(|rows|, i requires 0 <= i < |rows| => rows[i].pg.ppg)
  }

  /** `t` is the label of some ordering of the rows `pr` by SEASON_ID. The
      order among rows with equal SEASON_ID is left open. */
  ghost predicate LabelInSeasonOrder(pr: seq<MetricRow>, t: Option<Trajectory>) {
    exists s :: SortedBySeason(s) && multiset(s) == multiset(pr) && t == Classify(PpgColumn(s))
  }

  /** A player's label from the player's rows sorted by season. */
  function PlayerTrajectory(rows: seq<MetricRow>, name: string): (t: Option<Trajectory>)
    ensures t.Some? ==> |PlayerRows(rows, name)| >= MinSeasons
    ensures LabelInSeasonOrder(PlayerRows(rows, name), t)
  {
    var sorted := SortBySeason(PlayerRows(rows, name));
    assert SortedBySeason(sorted) && multiset(sorted) == multiset(PlayerRows(rows, name));
    Classify(PpgColumn(sorted))
  }

  // ---------------------------------------------------------------------------
  // unique() and the first late bloomer

  /** `Series.unique()`: the distinct values in order of first appearance. */
  function Unique(xs: seq<string>): (u: seq<string>)
    ensures forall x :: x in u <==> x in xs
    ensures forall i, j :: 0 <= i < j < |u| ==> u[i] != u[j]
  {
    if |xs| == 0 then []
    else
      var init := xs[..|xs| - 1];
      var last := xs[|xs| - 1];
      var u := Unique(init);
      assert xs == init + [last];
      if last in u then u else u + [last]
  }

  function Keep(xs: seq<string>, p: string -> bool): (r: seq<string>)
    ensures forall x :: x in r <==> x in xs && p(x)
  {
    if |xs| == 0 then []
    else
      var rest := Keep(xs[1..], p);
      assert forall x :: x in xs <==> x == xs[0] || x in xs[1..];
      (if p(xs[0]) then [xs[0]] else []) + rest
  }

  lemma {:induction false} KeepAppend(xs: seq<string>, x: string, p: string -> bool)
    ensures Keep(xs + [x], p) == Keep(xs, p) + (if p(x) then [x] else [])
  {
    if |xs| == 0 {
      assert [x][1..] == [];
    } else {
      assert (xs + [x])[1..] == xs[1..] + [x];
      KeepAppend(xs[1..], x, p);
    }
  }

  /** `xs[i]` is the first value satisfying `p`. */
  predicate FirstSatisfying(xs: seq<string>, p: string -> bool, i: int) {
    0 <= i < |xs| && p(xs[i]) && forall j :: 0 <= j < i ==> !p(xs[j])
  }

  /** The first kept distinct value is the value of the first row that
      satisfies the condition; there is one exactly when some row does. */
  lemma {:induction false} FirstOfUniqueKept(xs: seq<string>, p: string -> bool)
    ensures |Keep(Unique(xs), p)| > 0 <==> exists i :: 0 <= i < |xs| && p(xs[i])
    ensures |Keep(Unique(xs), p)| > 0 ==> exists i :: FirstSatisfying(xs, p, i) && xs[i] == Keep(Unique(xs), p)[0]
  {
    if |xs| > 0 {
      var init := xs[..|xs| - 1];
      var last := xs[|xs| - 1];
      assert xs == init + [last];
      FirstOfUniqueKept(init, p);
      var u := Unique(init);
      var k := Keep(u, p);
      if last !in u {
        KeepAppend(u, last, p);
      }
      assert forall i :: 0 <= i < |init| ==> init[i] == xs[i];
      if |k| > 0 {
        var i :| FirstSatisfying(init, p, i) && init[i] == k[0];
        assert FirstSatisfying(xs, p, i);
      } else if p(last) {
        assert forall i :: 0 <= i < |init| ==> !p(init[i]);
        assert last !in init;
        assert FirstSatisfying(xs, p, |xs| - 1);
      } else {
        assert forall i :: 0 <= i < |init| ==> !p(init[i]);
      }
    }
  }

  function NamesOf(rows: seq<MetricRow>): (ns: seq<string>)
    ensures |ns| == |rows| && forall i :: 0 <= i < |rows| ==> ns[i] == rows[i].s.name
  {
    seq(|rows|, i requires 0 <= i < |rows| => rows[i].s.name)
  }

  predicate IsLateBloomer(rows: seq<MetricRow>, n: string) {
    PlayerTrajectory(rows, n) == Some(LateBloomer)
  }

  /** `late_bloomers`: the Late Bloomer entries of the trajectory dictionary,
      in the dictionary's insertion order, i.e. order of first appearance. */
  function LateBloomers(rows: seq<MetricRow>): seq<string> {
    Keep(Unique(NamesOf(rows)), (n: string) => IsLateBloomer(rows, n))
  }

  /** No row before row `i` belongs to a Late Bloomer. */
  predicate NoEarlierLateBloomer(rows: seq<MetricRow>, i: int) {
    forall j :: 0 <= j < i && j < |rows| ==> !IsLateBloomer(rows, rows[j].s.name)
  }

  /** `late_bloomers[0]`, when there is one: the player of the first row whose
      player is a Late Bloomer. */
  function FirstLateBloomer(rows: seq<MetricRow>): (r: Option<string>)
    ensures r.Some? <==> exists i :: 0 <= i < |rows| && IsLateBloomer(rows, rows[i].s.name)
    ensures r.Some? ==> IsLateBloomer(rows, r.value)
    ensures r.Some? ==>
      exists i :: 0 <= i < |rows| && rows[i].s.name == r.value && NoEarlierLateBloomer(rows, i)
  {
    var late := (n: string) => IsLateBloomer(rows, n);
    var names := NamesOf(rows);
    FirstOfUniqueKept(names, late);
    var lb := Keep(Unique(names), late);
    if |lb| > 0 then
      var i :| FirstSatisfying(names, late, i) && names[i] == lb[0];
      assert NoEarlierLateBloomer(rows, i);
      Some(lb[0])
    else
      assert forall i :: 0 <= i < |rows| ==> !late(names[i]);
      None
  }

  // ---------------------------------------------------------------------------
  // The insights

  /** `high_usage_efficient`: rows at or above both cutoffs. */
  function HighUsageEfficient(rows: seq<MetricRow>, usageCut: real, tsCut: Float): (g: seq<MetricRow>)
    ensures forall m :: m in g <==> m in rows && m.adv.usage >= usageCut && AtLeast(m.adv.ts, tsCut)
  {
    Where(rows, (m: MetricRow) => m.adv.usage >= usageCut && AtLeast(m.adv.ts, tsCut))
  }

  const EfficiencyParadoxLead := "**Efficiency Paradox:** "
  const EfficiencyParadoxTail := " defies conventional wisdom by maintaining elite shooting while carrying high offensive load"

  function EfficiencyParadoxInsight(name: string): string {
    EfficiencyParadoxLead + name + EfficiencyParadoxTail
  }

  const DevelopmentLead := "**Development Pattern:** "
  const DevelopmentTail := " exemplifies the 'late bloomer' archetype, showing significant improvement in later career phases"

  function DevelopmentInsight(name: string): string {
    DevelopmentLead + name + DevelopmentTail
  }

  function OutlierLines(paradox: Option<string>, bloomer: Option<string>): (lines: seq<string>)
    ensures |lines| == (if paradox.Some? then 1 else 0) + (if bloomer.Some? then 1 else 0)
    ensures paradox.Some? ==> lines[0] == EfficiencyParadoxInsight(paradox.value)
    ensures bloomer.Some? ==> lines[|lines| - 1] == DevelopmentInsight(bloomer.value)
  {
    match (paradox, bloomer)
    case (Some(p), Some(b)) => [EfficiencyParadoxInsight(p), DevelopmentInsight(b)]
    case (Some(p), None) => [EfficiencyParadoxInsight(p)]
    case (None, Some(b)) => [DevelopmentInsight(b)]
    case (None, None) => []
  }

  /** The outlier insights: the Efficiency Paradox one when some row is at or
      above both cutoffs, naming the player of the first most efficient such row; then the
      Development Pattern one when some player is a Late Bloomer. */
  function AnalyzePerformanceOutliers(rows: seq<MetricRow>, usageCut: real, tsCut: Float): (insights: seq<string>)
    ensures |insights| ==
      (if |HighUsageEfficient(rows, usageCut, tsCut)| > 0 then 1 else 0) +
      (if FirstLateBloomer(rows).Some? then 1 else 0)
    ensures |HighUsageEfficient(rows, usageCut, tsCut)| > 0 ==>
      var g := HighUsageEfficient(rows, usageCut, tsCut);
      exists i :: FirstMostEfficient(g, i) && insights[0] == EfficiencyParadoxInsight(g[i].s.name)
    ensures FirstLateBloomer(rows).Some? ==>
      insights[|insights| - 1] == DevelopmentInsight(FirstLateBloomer(rows).value)
  {
    var paradox := PickFrom(HighUsageEfficient(rows, usageCut, tsCut));
    OutlierLines(paradox, FirstLateBloomer(rows))
  }
}
