/** `analyze_player_archetypes`: label every row with a PRIMARY_SKILL, pick a
    representative player per skill, and phrase the Elite Shooter and
    Playmaker insights. The quantile cutoffs are parameters. */
module Archetypes {
  import opened Wrappers
  import opened Floats
  import opened Text
  import opened Records
  import opened Overrides
  import opened Career

  datatype Skill = Balanced | Scorer | Rebounder | Playmaker | EliteShooter

  /** The 80th percentiles of PPG, RPG and APG and the 90th of TS_PCT. */
  datatype SkillCutoffs = SkillCutoffs(ppg: real, rpg: real, apg: real, ts: Float)

  /** The four relabelling statements, in program order. */
  function SkillRules(m: MetricRow, c: SkillCutoffs): seq<(bool, Skill)> {
    [ (m.pg.ppg >= c.ppg, Scorer), (m.pg.rpg >= c.rpg, Rebounder),
      (m.pg.apg >= c.apg, Playmaker), (AtLeast(m.adv.ts, c.ts), EliteShooter) ]
  }

  /** A row's label: the later statements win, so the criteria act in the
      priority order Elite Shooter, Playmaker, Rebounder, Scorer. */
  function PrimarySkill(m: MetricRow, c: SkillCutoffs): (s: Skill)
    ensures s == EliteShooter <==> AtLeast(m.adv.ts, c.ts)
    ensures s == Playmaker <==> !AtLeast(m.adv.ts, c.ts) && m.pg.apg >= c.apg
    ensures s == Rebounder <==> !AtLeast(m.adv.ts, c.ts) && m.pg.apg < c.apg && m.pg.rpg >= c.rpg
    ensures s == Scorer <==>
      !AtLeast(m.adv.ts, c.ts) && m.pg.apg < c.apg && m.pg.rpg < c.rpg && m.pg.ppg >= c.ppg
    ensures s == Balanced <==>
      !AtLeast(m.adv.ts, c.ts) && m.pg.apg < c.apg && m.pg.rpg < c.rpg && m.pg.ppg < c.ppg
  {
    var rules := SkillRules(m, c);
    if AtLeast(m.adv.ts, c.ts) then
      assert LastHolding(rules, 3);
      Apply(Balanced, rules)
    else if m.pg.apg >= c.apg then
      assert LastHolding(rules, 2);
      Apply(Balanced, rules)
    else if m.pg.rpg >= c.rpg then
      assert LastHolding(rules, 1);
      Apply(Balanced, rules)
    else if m.pg.ppg >= c.ppg then
      assert LastHolding(rules, 0);
      Apply(Balanced, rules)
    else
      assert NoneHold(rules);
      Apply(Balanced, rules)
  }

  /** Boolean-mask row selection, `df[mask]`. */
  function Where(rows: seq<MetricRow>, p: MetricRow -> bool): (out: seq<MetricRow>)
    ensures |out| <= |rows|
    ensures forall m :: m in out <==> m in rows && p(m)
  {
    if |rows| == 0 then []
    else
      var rest := Where(rows[1..], p);
      assert forall m :: m in rows <==> m == rows[0] || m in rows[1..];
      (if p(rows[0]) then [rows[0]] else []) + rest
  }

  /** A selection works row by row and keeps the table order. */
  lemma {:induction false} WhereAppend(a: seq<MetricRow>, b: seq<MetricRow>, p: MetricRow -> bool)
    ensures Where(a + b, p) == Where(a, p) + Where(b, p)
  {
    if |a| > 0 {
      assert (a + b)[0] == a[0] && (a + b)[1..] == a[1..] + b;
      WhereAppend(a[1..], b, p);
    } else {
      assert a + b == b;
    }
  }

  /** `skill_players`: the rows labelled `skill`. */
  function SkillGroup(rows: seq<MetricRow>, c: SkillCutoffs, skill: Skill): (g: seq<MetricRow>)
    ensures forall m :: m in g <==> m in rows && PrimarySkill(m, c) == skill
  {
    Where(rows, (m: MetricRow) => PrimarySkill(m, c) == skill)
  }

  function SeasonsOf(rows: seq<MetricRow>): (ids: seq<string>)
    ensures |ids| == |rows|
    ensures forall i :: 0 <= i < |rows| ==> ids[i] == rows[i].s.season
  {
    seq(|rows|, i requires 0 <= i < |rows| => rows[i].s.season)
  }

  /** `groupby('PLAYER_NAME')['SEASON_ID'].max()` for one player: the player's
      greatest SEASON_ID in string order. */
  function LatestSeason(group: seq<MetricRow>, name: string): (id: string)
    requires HasPlayer(group, name)
    ensures exists m :: m in group && m.s.name == name && m.s.season == id
    ensures forall m :: m in group && m.s.name == name ==> AtMost(m.s.season, id)
  {
    var pr := PlayerRows(group, name);
    var ids := SeasonsOf(pr);
    var id := Greatest(ids);
    assert forall m :: m in pr ==> m.s.season in ids by {
      forall m | m in pr ensures m.s.season in ids {
        var i :| 0 <= i < |pr| && pr[i] == m;
        assert ids[i] == m.s.season;
      }
    }
    var i :| 0 <= i < |ids| && ids[i] == id;
    assert pr[i] in pr;
    id
  }

  /** The row is its own player's latest season within the group. */
  predicate IsLatest(group: seq<MetricRow>, m: MetricRow) {
    HasPlayer(group, m.s.name) && m.s.season == LatestSeason(group, m.s.name)
  }

  /** The set of every player's latest SEASON_ID, the argument of `isin`. */
  function LatestSeasons(group: seq<MetricRow>): (ids: set<string>)
    ensures forall n :: HasPlayer(group, n) ==> LatestSeason(group, n) in ids
    ensures forall id :: id in ids ==> exists n :: HasPlayer(group, n) && id == LatestSeason(group, n)
  {
    set n | n in NameSet(group) :: LatestSeason(group, n)
  }

  /** `skill_players[skill_players['SEASON_ID'].isin(latest_seasons)]`: rows
      whose season is the latest season of ANY player of the group. */
  function RepresentativeRowsAsWritten(group: seq<MetricRow>): (reps: seq<MetricRow>)
    ensures forall m :: m in reps <==> m in group && m.s.season in LatestSeasons(group)
  {
    Where(group, (m: MetricRow) => m.s.season in LatestSeasons(group))
  }

  /** Rows that are their own player's latest season. */
  function RepresentativeRows(group: seq<MetricRow>): (reps: seq<MetricRow>)
    ensures forall m :: m in reps <==> m in group && IsLatest(group, m)
    ensures |group| > 0 ==> |reps| > 0
  {
    var reps := Where(group, (m: MetricRow) => IsLatest(group, m));
    if |group| > 0 then
      var n := group[0].s.name;
      assert HasPlayer(group, n);
      var id := LatestSeason(group, n);
      var m :| m in group && m.s.name == n && m.s.season == id;
      assert m in reps;
      reps
    else reps
  }

  /** Every row the corrected selection keeps, the written one keeps too. */
  lemma LatestRowsAreAmongWritten(group: seq<MetricRow>)
    ensures forall m :: m in RepresentativeRows(group) ==> m in RepresentativeRowsAsWritten(group)
  {
  }

  /** `idxmax` of EFFICIENCY: the first row of maximal efficiency. */
  function ArgMaxEff(rows: seq<MetricRow>): (i: nat)
    requires |rows| > 0
    ensures i < |rows|
    ensures forall j :: 0 <= j < |rows| ==> rows[j].adv.eff <= rows[i].adv.eff
    ensures forall j :: 0 <= j < i ==> rows[j].adv.eff < rows[i].adv.eff
  {
    if |rows| == 1 then 0
    else
      var k := ArgMaxEff(rows[..|rows| - 1]);
      assert forall j :: 0 <= j < |rows| - 1 ==> rows[j] == rows[..|rows| - 1][j];
      if rows[|rows| - 1].adv.eff > rows[k].adv.eff then |rows| - 1 else k
  }

  /** `m` is one of `reps` and no row of `reps` is more efficient. */
  predicate MostEfficient(reps: seq<MetricRow>, m: MetricRow) {
    m in reps && forall m' :: m' in reps ==> m'.adv.eff <= m.adv.eff
  }

  /** Row `i` has maximal efficiency and every earlier row is strictly less
      efficient: the row `idxmax` returns. */
  predicate FirstMostEfficient(reps: seq<MetricRow>, i: int) {
    && 0 <= i < |reps|
    && (forall j :: 0 <= j < |reps| ==> reps[j].adv.eff <= reps[i].adv.eff)
    && (forall j :: 0 <= j < i ==> reps[j].adv.eff < reps[i].adv.eff)
  }

  /** `name` is the player of the row `idxmax` returns. */
  ghost predicate NamesFirstMostEfficient(reps: seq<MetricRow>, name: string) {
    exists i :: FirstMostEfficient(reps, i) && name == reps[i].s.name
  }

  /** The player of the first most efficient row, None for no rows. */
  function PickFrom(reps: seq<MetricRow>): (r: Option<string>)
    ensures r.Some? <==> |reps| > 0
    ensures r.Some? ==> NamesFirstMostEfficient(reps, r.value)
    ensures r.Some? ==> exists m :: MostEfficient(reps, m) && m.s.name == r.value
  {
    if |reps| == 0 then None
    else
      var i := ArgMaxEff(reps);
      assert MostEfficient(reps, reps[i]) by {
        forall m' | m' in reps ensures m'.adv.eff <= reps[i].adv.eff {
          var j :| 0 <= j < |reps| && reps[j] == m';
        }
      }
      assert FirstMostEfficient(reps, i);
      Some(reps[i].s.name)
  }

  /** The representative as the source picks it: the player of the first most
      efficient row among the rows `isin` keeps. */
  function PickAsWritten(group: seq<MetricRow>): (r: Option<string>)
    ensures r.Some? <==> |group| > 0
    ensures r.Some? ==> NamesFirstMostEfficient(RepresentativeRowsAsWritten(group), r.value)
    ensures r.Some? ==> exists m :: MostEfficient(RepresentativeRowsAsWritten(group), m) && m.s.name == r.value
  {
    LatestRowsAreAmongWritten(group);
    PickFrom(RepresentativeRowsAsWritten(group))
  }

  /** The representative as intended: the player of the first most efficient
      row among the players' own latest seasons, and None only for an empty
      group. */
  function Pick(group: seq<MetricRow>): (r: Option<string>)
    ensures r.Some? <==> |group| > 0
    ensures r.Some? ==> NamesFirstMostEfficient(RepresentativeRows(group), r.value)
    ensures r.Some? ==> exists m :: MostEfficient(RepresentativeRows(group), m) && m.s.name == r.value
  {
    PickFrom(RepresentativeRows(group))
  }

  lemma LatestOfTwo(g: seq<MetricRow>, n: string, older: string, newer: string)
    requires HasPlayer(g, n) && Less(older, newer)
    requires forall m :: m in g && m.s.name == n ==> m.s.season == older || m.s.season == newer
    requires exists m :: m in g && m.s.name == n && m.s.season == newer
    ensures LatestSeason(g, n) == newer
  {
    var id := LatestSeason(g, n);
    var w :| w in g && w.s.name == n && w.s.season == newer;
    assert AtMost(newer, id);
    if id == older {
      LessAsymmetric(older, newer);
    }
  }

  /** Three rows: player `a` in seasons `old` and `new`, player `b` in `old`. */
  predicate Scenario(a1: MetricRow, a2: MetricRow, b: MetricRow) {
    && a1.s.name == a2.s.name && a1.s.name != b.s.name
    && Less(a1.s.season, a2.s.season) && b.s.season == a1.s.season
  }

  lemma ScenarioLatest(a1: MetricRow, a2: MetricRow, b: MetricRow)
    requires Scenario(a1, a2, b)
    ensures forall m :: m in [a1, a2, b] <==> m == a1 || m == a2 || m == b
    ensures IsLatest([a1, a2, b], a2) && IsLatest([a1, a2, b], b) && !IsLatest([a1, a2, b], a1)
    ensures a1.s.season in LatestSeasons([a1, a2, b])
  {
    var g := [a1, a2, b];
    assert forall m :: m in g <==> m == a1 || m == a2 || m == b;
    assert HasPlayer(g, a1.s.name) by { assert g[0].s.name == a1.s.name; }
    assert HasPlayer(g, b.s.name) by { assert g[2].s.name == b.s.name; }
    LatestOfTwo(g, a1.s.name, a1.s.season, a2.s.season);
    LessAsymmetric(a1.s.season, a2.s.season);
  }

  lemma ScenarioAsWritten(a1: MetricRow, a2: MetricRow, b: MetricRow)
    requires Scenario(a1, a2, b)
    requires a1.adv.eff > b.adv.eff && a1.adv.eff > a2.adv.eff
    ensures PickAsWritten([a1, a2, b]) == Some(a1.s.name)
  {
    var g := [a1, a2, b];
    ScenarioLatest(a1, a2, b);
    var w := RepresentativeRowsAsWritten(g);
    assert a1 in w;
    var r := PickAsWritten(g);
    var m :| MostEfficient(w, m) && m.s.name == r.value;
    assert a1.adv.eff <= m.adv.eff;
    assert m in g;
    assert m == a1 || m == a2 || m == b;
    assert m == a1;
  }

  lemma ScenarioCorrected(a1: MetricRow, a2: MetricRow, b: MetricRow)
    requires Scenario(a1, a2, b)
    requires b.adv.eff > a2.adv.eff
    ensures Pick([a1, a2, b]) == Some(b.s.name)
  {
    var g := [a1, a2, b];
    ScenarioLatest(a1, a2, b);
    var reps := RepresentativeRows(g);
    assert b in reps && a1 !in reps;
    var r := Pick(g);
    var m :| MostEfficient(reps, m) && m.s.name == r.value;
    assert b.adv.eff <= m.adv.eff;
    assert m in g;
    assert m == a1 || m == a2 || m == b;
    assert m == b;
  }

  /** The written selection can choose a player on the strength of a season
      that is not that player's latest: A's older 2019-20 season shares its
      identifier with B's latest, so it is kept and wins on efficiency. */
  lemma UnionOfLatestAdmitsOlderSeason(a1: MetricRow, a2: MetricRow, b: MetricRow)
    requires a1.s.name == "A" && a1.s.season == "2019-20" && a1.adv.eff == 50.0
    requires a2.s.name == "A" && a2.s.season == "2020-21" && a2.adv.eff == 10.0
    requires b.s.name == "B" && b.s.season == "2019-20" && b.adv.eff == 20.0
    ensures !IsLatest([a1, a2, b], a1)
    ensures PickAsWritten([a1, a2, b]) == Some("A")
    ensures Pick([a1, a2, b]) == Some("B")
  {
    assert Less("2019-20", "2020-21") by {
      assert "2019-20"[1..] == "019-20" && "2020-21"[1..] == "020-21";
      assert "019-20"[1..] == "19-20" && "020-21"[1..] == "20-21";
    }
    assert Scenario(a1, a2, b);
    ScenarioLatest(a1, a2, b);
    ScenarioAsWritten(a1, a2, b);
    ScenarioCorrected(a1, a2, b);
  }

  predicate HasSkill(rows: seq<MetricRow>, c: SkillCutoffs, skill: Skill) {
    exists m :: m in rows && PrimarySkill(m, c) == skill
  }

  /** `archetypes[skill]` as the source computes it: present exactly when some
      row carries the label, and then the player of the first most efficient
      row that `isin(latest_seasons)` keeps. */
  function Representative(rows: seq<MetricRow>, c: SkillCutoffs, skill: Skill): (r: Option<string>)
    ensures r.Some? <==> HasSkill(rows, c, skill)
    ensures r.Some? ==> NamesFirstMostEfficient(RepresentativeRowsAsWritten(SkillGroup(rows, c, skill)), r.value)
  {
    var g := SkillGroup(rows, c, skill);
    assert |g| > 0 ==> g[0] in g;
    PickAsWritten(g)
  }

  /** `archetypes[skill]` as intended: the player of the first most efficient
      row among each player's own latest season. */
  function IntendedRepresentative(rows: seq<MetricRow>, c: SkillCutoffs, skill: Skill): (r: Option<string>)
    ensures r.Some? <==> HasSkill(rows, c, skill)
    ensures r.Some? ==> NamesFirstMostEfficient(RepresentativeRows(SkillGroup(rows, c, skill)), r.value)
  {
    var g := SkillGroup(rows, c, skill);
    assert |g| > 0 ==> g[0] in g;
    Pick(g)
  }

  const ModernEfficiencyLead := "**Modern Efficiency Revolution:** "
  const ModernEfficiencyTail := " represents the new NBA paradigm where shooting efficiency trumps volume"

  function ModernEfficiencyInsight(name: string): string {
    ModernEfficiencyLead + name + ModernEfficiencyTail
  }

  const PointForwardLead := "**Point-Forward Evolution:** "
  const PointForwardTail := " exemplifies how traditional position roles are dissolving in favor of versatile facilitators"

  function PointForwardInsight(name: string): string {
    PointForwardLead + name + PointForwardTail
  }

  /** The lines that are present, in order. */
  function Present<T>(first: Option<T>, second: Option<T>): (lines: seq<T>)
    ensures |lines| == (if first.Some? then 1 else 0) + (if second.Some? then 1 else 0)
    ensures first.Some? ==> lines[0] == first.value
    ensures second.Some? ==> lines[|lines| - 1] == second.value
  {
    (if first.Some? then [first.value] else []) + (if second.Some? then [second.value] else [])
  }

  /** The archetype insights: the Elite Shooter one, then the Playmaker one,
      each present exactly when some row carries that label. */
  function AnalyzePlayerArchetypes(rows: seq<MetricRow>, c: SkillCutoffs): (insights: seq<string>)
    ensures |insights| == (if HasSkill(rows, c, EliteShooter) then 1 else 0) + (if HasSkill(rows, c, Playmaker) then 1 else 0)
    ensures HasSkill(rows, c, EliteShooter) ==>
      insights[0] == ModernEfficiencyInsight(Representative(rows, c, EliteShooter).value)
    ensures HasSkill(rows, c, Playmaker) ==>
      insights[|insights| - 1] == PointForwardInsight(Representative(rows, c, Playmaker).value)
  {
    var shooter := Representative(rows, c, EliteShooter);
    var playmaker := Representative(rows, c, Playmaker);
    Present(if shooter.Some? then Some(ModernEfficiencyInsight(shooter.value)) else None,
            if playmaker.Some? then Some(PointForwardInsight(playmaker.value)) else None)
  }
}
