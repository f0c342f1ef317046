/** `main` of the processing step: clean, per-game rates, advanced metrics,
    tiers, then the career summary of the tiered table. */
module Pipeline {
  import opened Wrappers
  import opened Floats
  import opened Records
  import opened Cleaning
  import opened Metrics
  import opened Binning
  import opened Categories
  import opened Career
  import opened Averages

  datatype Processed = Processed(table: TierTable, career: seq<CareerRow>)

  /** The metric rows of the tiered table. The tier column is not part of
      this projection: `create_career_summary` does not read it. */
  function MetricsOf(rows: seq<TieredRow>): (ms: seq<MetricRow>)
    ensures |ms| == |rows| && forall i :: 0 <= i < |rows| ==> ms[i] == rows[i].m
  {
    seq(|rows|, i requires 0 <= i < |rows| => rows[i].m)
  }

  /** Some row of the raw table with a positive GP belongs to player `n`. */
  predicate Played(raw: seq<RawRow>, n: string) {
    exists r :: r in raw && Plays(r) && r.name == n
  }

  /** Steps 1-3: the cleaned rows with their rates and advanced metrics. */
  function MetricTable(raw: seq<RawRow>): (ms: seq<MetricRow>)
    ensures |ms| == |LoadAndClean(raw)|
    ensures forall i :: 0 <= i < |ms| ==> ms[i].s == LoadAndClean(raw)[i]
    ensures forall i :: 0 <= i < |ms| ==> OwnMetrics(ms[i])
  {
    var clean := LoadAndClean(raw);
    var ms := CalculateAdvancedMetrics(CalculatePerGameStats(clean));
    MetricStages(clean, ms);
    ms
  }

  /** Steps 2-3 on cleaned rows: each output row is its input row with the
      rates and advanced metrics of its own totals. */
  lemma MetricStages(clean: seq<Season>, ms: seq<MetricRow>)
    requires AllPlayed(clean) && ms == CalculateAdvancedMetrics(CalculatePerGameStats(clean))
    ensures |ms| == |clean|
    ensures forall i :: 0 <= i < |ms| ==> ms[i].s == clean[i] && OwnMetrics(ms[i])
  {
    var g := CalculatePerGameStats(clean);
    forall i | 0 <= i < |ms| ensures ms[i].s == g[i].s == clean[i] && ms[i].pg == g[i].pg {}
  }

  /** Steps 1-4 as `main` runs them, with the left merge. Every cleaned row
      appears and no other row does; when no two cleaned rows share a
      (PLAYER_NAME, SEASON_ID) key the table is the cleaned rows in order. */
  function ProcessedTable(raw: seq<RawRow>): (t: TierTable)
    ensures |t.rows| >= |LoadAndClean(raw)|
    ensures forall o :: o in t.rows ==> o.m in MetricTable(raw)
    ensures forall m :: m in MetricTable(raw) ==> exists o :: o in t.rows && o.m == m
    ensures UniqueKeys(MetricTable(raw)) ==> t == ProcessedTableCorrected(raw)
    ensures UniqueKeys(MetricTable(raw)) ==>
      |t.rows| == |LoadAndClean(raw)| && forall i :: 0 <= i < |t.rows| ==> t.rows[i].m.s == LoadAndClean(raw)[i]
    ensures t.hasTierColumn <==> AnyQualifies(MetricTable(raw))
    ensures forall o :: o in t.rows && KeyQualifies(MetricTable(raw), KeyOf(o.m)) ==>
      KeyBin(MetricTable(raw), KeyOf(o.m), o.tier)
    ensures forall o :: o in t.rows && !KeyQualifies(MetricTable(raw), KeyOf(o.m)) ==> o.tier == None
  {
    var ms := MetricTable(raw);
    if UniqueKeys(ms) then
      UniqueKeysMergeIsPositional(ms);
      AddPerformanceCategoriesAsWritten(ms)
    else AddPerformanceCategoriesAsWritten(ms)
  }

  /** Steps 1-4 with each row receiving its own tier in place. */
  function ProcessedTableCorrected(raw: seq<RawRow>): (t: TierTable)
    ensures |t.rows| == |LoadAndClean(raw)|
    ensures forall i :: 0 <= i < |t.rows| ==> t.rows[i].m.s == LoadAndClean(raw)[i]
    ensures forall i :: 0 <= i < |t.rows| ==> t.rows[i].m == MetricTable(raw)[i]
    ensures t.hasTierColumn <==> AnyQualifies(MetricTable(raw))
    ensures forall i :: 0 <= i < |t.rows| && Qualifies(t.rows[i].m) ==> t.rows[i].tier == ScoringTier(t.rows[i].m.pg.ppg)
    ensures forall i :: 0 <= i < |t.rows| && !Qualifies(t.rows[i].m) ==> t.rows[i].tier == None
  {
    AddPerformanceCategories(MetricTable(raw))
  }

  /** A table whose rows are the cleaned rows holds exactly the players who
      played. */
  lemma CleanedPlayers(raw: seq<RawRow>, ms: seq<MetricRow>)
    requires |ms| == |LoadAndClean(raw)|
    requires forall i :: 0 <= i < |ms| ==> ms[i].s == LoadAndClean(raw)[i]
    ensures forall n :: HasPlayer(ms, n) <==> Played(raw, n)
  {
    var clean := LoadAndClean(raw);
    forall n ensures HasPlayer(ms, n) <==> Played(raw, n) {
      if HasPlayer(ms, n) {
        var i :| 0 <= i < |ms| && ms[i].s.name == n;
        assert clean[i] in clean;
        var r :| r in raw && Plays(r) && clean[i] == Fill(r);
      }
      if Played(raw, n) {
        var r :| r in raw && Plays(r) && r.name == n;
        assert Fill(r) in clean;
        var i :| 0 <= i < |clean| && clean[i] == Fill(r);
        assert ms[i].s.name == n;
      }
    }
  }

  /** The whole processing step as `main` runs it. The career table has one
      row per player who played, sorted by name, each the aggregate of that
      player's rows of the processed table, and its SEASONS add up to the
      processed table's row count, duplicated merge rows included. */
  function ProcessPlayerStats(raw: seq<RawRow>): (p: Processed)
    ensures p.table == ProcessedTable(raw)
    ensures UniqueKeys(MetricTable(raw)) ==> |p.table.rows| == |LoadAndClean(raw)|
    ensures forall n :: n in Names(p.career) <==> Played(raw, n)
    ensures |p.career| == |NameSet(MetricsOf(p.table.rows))|
    ensures StrictlySorted(Names(p.career))
    ensures forall i :: 0 <= i < |p.career| ==>
      HasPlayer(MetricsOf(p.table.rows), p.career[i].name) &&
      p.career[i] == CareerOf(MetricsOf(p.table.rows), p.career[i].name)
    ensures TotalSeasons(p.career) == |p.table.rows|
  {
    var t := ProcessedTable(raw);
    var ms := MetricsOf(t.rows);
    CleanedPlayers(raw, MetricTable(raw));
    SamePlayers(t.rows, MetricTable(raw));
    SeasonsPartitionRows(ms);
    Processed(t, CreateCareerSummary(ms))
  }

  /** A merged table whose rows are exactly the rows of `base`, repeats
      aside, holds the same players. */
  lemma SamePlayers(ts: seq<TieredRow>, base: seq<MetricRow>)
    requires forall o :: o in ts ==> o.m in base
    requires forall m :: m in base ==> exists o :: o in ts && o.m == m
    ensures forall n :: HasPlayer(MetricsOf(ts), n) <==> HasPlayer(base, n)
  {
    var ms := MetricsOf(ts);
    forall n ensures HasPlayer(ms, n) <==> HasPlayer(base, n) {
      if HasPlayer(ms, n) {
        var i :| 0 <= i < |ms| && ms[i].s.name == n;
        assert ts[i] in ts;
        var j :| 0 <= j < |base| && base[j] == ms[i];
      }
      if HasPlayer(base, n) {
        var j :| 0 <= j < |base| && base[j].s.name == n;
        assert base[j] in base;
        var o :| o in ts && o.m == base[j];
        var i :| 0 <= i < |ts| && ts[i] == o;
        assert ms[i].s.name == n;
      }
    }
  }

  /** A player-season listed twice (as the per-team rows of a traded player
      can be) comes out of the merge four times. The career table counts four
      seasons, four games and four times the season's points. */
  lemma DuplicateSeasonCountedFourTimes(r: RawRow)
    requires r.gp == Some(1.0) && r.min == Some(30.0)
    ensures |ProcessPlayerStats([r, r]).table.rows| == 4
    ensures TotalSeasons(ProcessPlayerStats([r, r]).career) == 4
    ensures var c := ProcessPlayerStats([r, r]).career;
      && |c| == 1 && c[0].name == r.name && c[0].seasons == 4
      && c[0].totalGames == 4.0
      && -0.005 <= c[0].totalPts - 4.0 * Fill(r).t.pts <= 0.005
  {
    DuplicateTable(r);
    FourCopiesCareer(r, MetricTable([r, r])[0], ProcessPlayerStats([r, r]));
  }

  /** A playing row listed twice comes out of the merge as four copies of
      its metric row. */
  lemma DuplicateTable(r: RawRow)
    requires r.gp == Some(1.0) && r.min == Some(30.0)
    ensures |MetricTable([r, r])| == 2
    ensures var m := MetricTable([r, r])[0]; var t := ProcessedTable([r, r]);
      && m.s == Fill(r) && m.s.t.gp == 1.0
      && |t.rows| == 4 && forall o :: o in t.rows ==> o.m == m
  {
    var ms := MetricTable([r, r]);
    DuplicateMetricRows(r);
    assert ms == [ms[0], ms[0]];
    ProcessedIsAsWritten([r, r]);
    CopiesOfDuplicate(ms[0]);
  }

  /** The table as written is the merge of the metric rows. */
  lemma ProcessedIsAsWritten(raw: seq<RawRow>)
    ensures ProcessedTable(raw) == AddPerformanceCategoriesAsWritten(MetricTable(raw))
  {
  }

  /** A qualifying row listed twice comes out of the merge as four copies of
      itself. */
  lemma CopiesOfDuplicate(m: MetricRow)
    requires Qualifies(m)
    ensures var t := AddPerformanceCategoriesAsWritten([m, m]);
      |t.rows| == 4 && forall o :: o in t.rows ==> o.m == m
  {
    DuplicateKeysMultiplyRows(m);
  }

  /** A playing row listed twice gives two equal qualifying metric rows. */
  lemma DuplicateMetricRows(r: RawRow)
    requires r.gp == Some(1.0) && r.min == Some(30.0)
    ensures var ms := MetricTable([r, r]);
      && |ms| == 2 && ms[0] == ms[1] && ms[0].s == Fill(r) && ms[0].s.t.gp == 1.0 && Qualifies(ms[0])
  {
    CleanKeepsDuplicates(r);
    var clean := LoadAndClean([r, r]);
    assert clean == [Fill(r), Fill(r)];
    var g := CalculatePerGameStats(clean);
    assert g[0] == g[1];
    var ms := CalculateAdvancedMetrics(g);
    assert ms[0] == MetricRow(g[0].s, g[0].pg, AdvancedOf(g[0].s.t));
    assert ms[1] == MetricRow(g[1].s, g[1].pg, AdvancedOf(g[1].s.t));
    assert MetricTable([r, r]) == ms;
  }

  /** The career table of four copies of one row: one player, whose totals
      are four times the row's. */
  lemma FourCopiesCareer(r: RawRow, m: MetricRow, p: Processed)
    requires m.s == Fill(r) && m.s.t.gp == 1.0
    requires |p.table.rows| == 4 && forall o :: o in p.table.rows ==> o.m == m
    requires |p.career| == |NameSet(MetricsOf(p.table.rows))|
    requires forall i :: 0 <= i < |p.career| ==>
      HasPlayer(MetricsOf(p.table.rows), p.career[i].name) &&
      p.career[i] == CareerOf(MetricsOf(p.table.rows), p.career[i].name)
    ensures |p.career| == 1 && p.career[0].name == r.name && p.career[0].seasons == 4
    ensures p.career[0].totalGames == 4.0
    ensures -0.005 <= p.career[0].totalPts - 4.0 * Fill(r).t.pts <= 0.005
  {
    var m4 := MetricsOf(p.table.rows);
    CopiesOfOne(p.table.rows, m);
    OneName(m4, r.name);
    var c := p.career[0];
    assert HasPlayer(m4, c.name);
    OnePlayerRows(m4, r.name);
    AggregateOfCopies(r.name, m4, m);
  }

  /** The metric rows of a merged table whose rows all carry `m`. */
  lemma CopiesOfOne(ts: seq<TieredRow>, m: MetricRow)
    requires forall o :: o in ts ==> o.m == m
    ensures forall i :: 0 <= i < |MetricsOf(ts)| ==> MetricsOf(ts)[i] == m
  {
    forall i | 0 <= i < |ts| ensures MetricsOf(ts)[i] == m { assert ts[i] in ts; }
  }

  /** A non-empty table of one player's rows has that one name. */
  lemma OneName(ms: seq<MetricRow>, n: string)
    requires |ms| > 0 && forall i :: 0 <= i < |ms| ==> ms[i].s.name == n
    ensures NameSet(ms) == {n}
  {
    assert n in NameSet(ms) by { assert ms[0].s.name == n; }
  }

  /** The aggregate of four copies of a one-game row. */
  lemma AggregateOfCopies(name: string, pr: seq<MetricRow>, m: MetricRow)
    requires |pr| == 4 && m.s.t.gp == 1.0 && forall i :: 0 <= i < |pr| ==> pr[i] == m
    ensures Aggregate(name, pr).totalGames == 4.0
    ensures -0.005 <= Aggregate(name, pr).totalPts - 4.0 * m.s.t.pts <= 0.005
  {
    SumsOfCopies(pr, m);
    assert IsCents(4.0) by { assert (4.0 * 100.0).Floor == 400; }
    assert Aggregate(name, pr).totalGames == Round2(4.0);
  }

  /** The GP and PTS sums of four copies of a one-game row. */
  lemma SumsOfCopies(pr: seq<MetricRow>, m: MetricRow)
    requires |pr| == 4 && m.s.t.gp == 1.0 && forall i :: 0 <= i < |pr| ==> pr[i] == m
    ensures Sum(Column(pr, GP)) == 4.0 && Sum(Column(pr, PTS)) == 4.0 * m.s.t.pts
  {
    var games, points := Column(pr, GP), Column(pr, PTS);
    assert forall i :: 0 <= i < |pr| ==> games[i] == 1.0 && points[i] == m.s.t.pts;
    SumConstant(games, 1.0);
    SumConstant(points, m.s.t.pts);
  }

  /** One complete season: 20 points on 10 field-goal and 4 free-throw
      attempts in one 30-minute game. PPG is 20, TS_PCT 20 / 23.52, EFFICIENCY
      32 - 4 = 28, and the row is a Starter (PPG 20 is the top of (15, 20]). */
  lemma SingleSeasonScenario(r: RawRow)
    requires r.gp == Some(1.0) && r.min == Some(30.0) && r.pts == Some(20.0)
    requires r.reb == Some(5.0) && r.ast == Some(5.0) && r.stl == Some(1.0) && r.blk == Some(1.0)
    requires r.fgm == Some(8.0) && r.fga == Some(10.0) && r.ftm == Some(4.0) && r.fta == Some(4.0)
    requires r.tov == Some(2.0)
    ensures var t := ProcessedTable([r]);
      && |t.rows| == 1 && t.hasTierColumn
      && t.rows[0].m.pg.ppg == 20.0 && t.rows[0].m.pg.mpg == 30.0
      && t.rows[0].m.adv.ts == Finite(20.0 / 23.52) && t.rows[0].m.adv.eff == 28.0
      && t.rows[0].tier == Some(Starter)
  {
    CleanSingle(r);
    var s := Fill(r);
    assert LoadAndClean([r]) == [s];
    var g := CalculatePerGameStats([s]);
    assert g[0].pg.ppg == 20.0 && g[0].pg.mpg == 30.0;
    var m := CalculateAdvancedMetrics(g);
    assert ShootingAttempts(s.t) == 23.52;
    assert m[0].adv.ts == Finite(20.0 / 23.52);
    assert Production(s.t) == 32.0 && Waste(s.t) == 4.0;
    assert m[0].adv.eff == 28.0;
    assert Qualifies(m[0]);
    assert AnyQualifies(m);
    assert UniqueKeys(m);
    var t := AddPerformanceCategories(m);
    assert t.rows[0].tier == ScoringTier(20.0);
  }
}
