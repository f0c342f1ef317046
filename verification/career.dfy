/** `create_career_summary`: group the per-season table by PLAYER_NAME (groups
    come out in name order) and aggregate each group, rounding to 2 decimals. */
module Career {
  import opened Floats
  import opened Averages
  import opened Text
  import opened Records

  /** Some row of the table belongs to player `n`. */
  predicate HasPlayer(rows: seq<MetricRow>, n: string) {
    exists i :: 0 <= i < |rows| && rows[i].s.name == n
  }

  /** The distinct player names of a table. */
  function NameSet(rows: seq<MetricRow>): (names: set<string>)
    ensures forall n :: n in names <==> HasPlayer(rows, n)
  {
    set i | 0 <= i < |rows| :: rows[i].s.name
  }

  lemma HasPlayerSplit(rows: seq<MetricRow>, n: string)
    requires |rows| > 0
    ensures HasPlayer(rows, n) <==> rows[0].s.name == n || HasPlayer(rows[1..], n)
  {
    if HasPlayer(rows[1..], n) {
      var i :| 0 <= i < |rows[1..]| && rows[1..][i].s.name == n;
      assert rows[i + 1].s.name == n;
    }
    if HasPlayer(rows, n) && rows[0].s.name != n {
      var i :| 0 <= i < |rows| && rows[i].s.name == n;
      assert rows[1..][i - 1].s.name == n;
    }
  }

  /** A player's rows, in table order. */
  function PlayerRows(rows: seq<MetricRow>, name: string): (pr: seq<MetricRow>)
    ensures |pr| <= |rows|
    ensures forall m :: m in pr <==> m in rows && m.s.name == name
    ensures |pr| > 0 <==> HasPlayer(rows, name)
  {
    if |rows| == 0 then []
    else
      var rest := PlayerRows(rows[1..], name);
      assert forall m :: m in rows <==> m == rows[0] || m in rows[1..];
      HasPlayerSplit(rows, name);
      (if rows[0].s.name == name then [rows[0]] else []) + rest
  }

  /** A table that holds only player `n` is all of `n`'s rows. */
  lemma {:induction false} OnePlayerRows(rows: seq<MetricRow>, n: string)
    requires forall i :: 0 <= i < |rows| ==> rows[i].s.name == n
    ensures PlayerRows(rows, n) == rows
  {
    if |rows| > 0 {
      OnePlayerRows(rows[1..], n);
      assert rows == [rows[0]] + rows[1..];
    }
  }

  predicate StrictlySorted(xs: seq<string>) {
    forall i, j :: 0 <= i < j < |xs| ==> Less(xs[i], xs[j])
  }

  /** Insert a name into a strictly sorted list of names, keeping it so. */
  function InsertName(n: string, xs: seq<string>): (r: seq<string>)
    requires StrictlySorted(xs)
    ensures StrictlySorted(r)
    ensures forall x :: x in r <==> x == n || x in xs
  {
    if |xs| == 0 then [n]
    else if n == xs[0] then xs
    else if Less(n, xs[0]) then
      assert forall j :: 0 <= j < |xs| ==> Less(n, xs[j]) by {
        forall j | 0 <= j < |xs|
          ensures Less(n, xs[j])
        {
          if j > 0 {
            LessTransitive(n, xs[0], xs[j]);
          }
        }
      }
      [n] + xs
    else
      var tail := InsertName(n, xs[1..]);
      LessTotal(n, xs[0]);
      assert forall x :: x in xs <==> x == xs[0] || x in xs[1..];
      assert forall x :: x in tail ==> Less(xs[0], x);
      [xs[0]] + tail
  }

  /** The group keys of `groupby('PLAYER_NAME')`: every distinct name once, in
      ascending order. */
  function GroupKeys(rows: seq<MetricRow>): (names: seq<string>)
    ensures StrictlySorted(names)
    ensures forall n :: n in names <==> HasPlayer(rows, n)
  {
    if |rows| == 0 then []
    else
      var rest := GroupKeys(rows[1..]);
      assert forall n :: HasPlayer(rows, n) <==> n == rows[0].s.name || HasPlayer(rows[1..], n) by {
        forall n
          ensures HasPlayer(rows, n) <==> n == rows[0].s.name || HasPlayer(rows[1..], n)
        {
          HasPlayerSplit(rows, n);
        }
      }
      InsertName(rows[0].s.name, rest)
  }

  /** A strictly sorted list holds each of its elements once. */
  lemma {:induction false} SortedListSize(xs: seq<string>)
    requires StrictlySorted(xs)
    ensures |set x | x in xs| == |xs|
  {
    if |xs| > 0 {
      SortedListSize(xs[1..]);
      LessIrreflexive(xs[0]);
      assert xs[0] !in xs[1..] by {
        forall j | 0 <= j < |xs[1..]|
          ensures xs[1..][j] != xs[0]
        {
          assert Less(xs[0], xs[j + 1]);
        }
      }
      assert (set x | x in xs) == (set x | x in xs[1..]) + {xs[0]};
    }
  }

  /** The numeric columns the summary aggregates (TS_PCT apart, being a float
      that can be infinite). */
  datatype Stat = GP | PTS | PPG | RPG | APG | EFF

  function StatOf(m: MetricRow, f: Stat): real {
    match f
    case GP => m.s.t.gp
    case PTS => m.s.t.pts
    case PPG => m.pg.ppg
    case RPG => m.pg.rpg
    case APG => m.pg.apg
    case EFF => m.adv.eff
  }

  function Column(rows: seq<MetricRow>, f: Stat): (c: seq<real>)
    ensures |c| == |rows|
  {
    seq(|rows|, i requires 0 <= i < |rows| => StatOf(rows[i], f))
  }

  function TsColumn(rows: seq<MetricRow>): (c: seq<Float>)
    ensures |c| == |rows|
    ensures forall i :: 0 <= i < |rows| ==> c[i] == rows[i].adv.ts
  {
    seq(|rows|, i requires 0 <= i < |rows| => rows[i].adv.ts)
  }

  /** One group's aggregates: row count, sums of GP and PTS, unweighted means
      of PPG, RPG, APG, TS_PCT and EFFICIENCY, all rounded to 2 decimals. */
  function Aggregate(name: string, pr: seq<MetricRow>): (c: CareerRow)
    requires |pr| > 0
    ensures c.name == name && c.seasons == |pr|
    ensures IsCents(c.totalGames) && -0.005 <= c.totalGames - Sum(Column(pr, GP)) <= 0.005
    ensures IsCents(c.totalPts) && -0.005 <= c.totalPts - Sum(Column(pr, PTS)) <= 0.005
    ensures IsCents(c.ppg) && -0.005 <= c.ppg - Mean(Column(pr, PPG)) <= 0.005
    ensures IsCents(c.rpg) && -0.005 <= c.rpg - Mean(Column(pr, RPG)) <= 0.005
    ensures IsCents(c.apg) && -0.005 <= c.apg - Mean(Column(pr, APG)) <= 0.005
    ensures IsCents(c.eff) && -0.005 <= c.eff - Mean(Column(pr, EFF)) <= 0.005
    ensures c.ts.Finite? <==> forall i :: 0 <= i < |pr| ==> pr[i].adv.ts.Finite?
    ensures c.ts.Finite? ==> -0.005 <= c.ts.v - FMean(TsColumn(pr)).v <= 0.005
    ensures !c.ts.Finite? ==> c.ts == FMean(TsColumn(pr))
  {
    CareerRow(name, |pr|,
      Round2(Sum(Column(pr, GP))), Round2(Sum(Column(pr, PTS))),
      Round2(Mean(Column(pr, PPG))), Round2(Mean(Column(pr, RPG))),
      Round2(Mean(Column(pr, APG))), FRound2(FMean(TsColumn(pr))),
      Round2(Mean(Column(pr, EFF))))
  }

  /** The summary row of one player. */
  function CareerOf(rows: seq<MetricRow>, name: string): (c: CareerRow)
    requires HasPlayer(rows, name)
    ensures c.name == name && c.seasons == |PlayerRows(rows, name)| && c.seasons >= 1
    ensures c == Aggregate(name, PlayerRows(rows, name))
  {
    Aggregate(name, PlayerRows(rows, name))
  }

  function Summaries(rows: seq<MetricRow>, names: seq<string>): (out: seq<CareerRow>)
    requires forall n :: n in names ==> HasPlayer(rows, n)
    ensures |out| == |names|
    ensures forall i :: 0 <= i < |names| ==> out[i].name == names[i]
    ensures forall i :: 0 <= i < |names| ==> out[i] == CareerOf(rows, names[i])
  {
    seq(|names|, i requires 0 <= i < |names| => CareerOf(rows, names[i]))
  }

  /** The PLAYER_NAME index of a career table. */
  function Names(out: seq<CareerRow>): (ns: seq<string>)
    ensures |ns| == |out|
    ensures forall i :: 0 <= i < |out| ==> ns[i] == out[i].name
  {
    seq(|out|, i requires 0 <= i < |out| => out[i].name)
  }

  /** The career table: exactly one row per distinct player, in name order,
      each row the aggregate of that player's seasons. */
  function CreateCareerSummary(rows: seq<MetricRow>): (out: seq<CareerRow>)
    ensures |out| == |NameSet(rows)|
    ensures StrictlySorted(Names(out))
    ensures forall n :: n in Names(out) <==> HasPlayer(rows, n)
    ensures forall i :: 0 <= i < |out| ==> HasPlayer(rows, out[i].name) && out[i] == CareerOf(rows, out[i].name)
  {
    var names := GroupKeys(rows);
    GroupCount(rows);
    var out := Summaries(rows, names);
    assert Names(out) == names;
    out
  }

  /** There are as many group keys as distinct names. */
  lemma GroupCount(rows: seq<MetricRow>)
    ensures |GroupKeys(rows)| == |NameSet(rows)|
  {
    var names := GroupKeys(rows);
    SortedListSize(names);
    assert (set x | x in names) == NameSet(rows);
  }

  function TotalSeasons(out: seq<CareerRow>): nat {
    if |out| == 0 then 0 else out[0].seasons + TotalSeasons(out[1..])
  }

  function CountIn(names: seq<string>, rows: seq<MetricRow>): nat {
    if |names| == 0 then 0 else |PlayerRows(rows, names[0])| + CountIn(names[1..], rows)
  }

  lemma {:induction false} CountInSplit(names: seq<string>, rows: seq<MetricRow>)
    requires |rows| > 0
    ensures CountIn(names, rows) == CountIn(names, rows[1..]) + CountIn(names, [rows[0]])
  {
    if |names| > 0 {
      CountInSplit(names[1..], rows);
      assert [rows[0]][1..] == [];
    }
  }

  lemma {:induction false} CountInOne(names: seq<string>, r: MetricRow)
    requires forall i, j :: 0 <= i < j < |names| ==> names[i] != names[j]
    ensures CountIn(names, [r]) == if r.s.name in names then 1 else 0
  {
    assert [r][1..] == [];
    if |names| > 0 {
      CountInOne(names[1..], r);
      if r.s.name == names[0] {
        assert r.s.name !in names[1..] by {
          forall j | 0 <= j < |names[1..]|
            ensures names[1..][j] != names[0]
          {
            assert names[j + 1] != names[0];
          }
        }
      } else {
        assert r.s.name in names <==> r.s.name in names[1..];
      }
    }
  }

  lemma {:induction false} CountInCovers(names: seq<string>, rows: seq<MetricRow>)
    requires forall i, j :: 0 <= i < j < |names| ==> names[i] != names[j]
    requires forall i :: 0 <= i < |rows| ==> rows[i].s.name in names
    ensures CountIn(names, rows) == |rows|
  {
    if |rows| == 0 {
      CountInEmpty(names, rows);
    } else {
      CountInSplit(names, rows);
      CountInOne(names, rows[0]);
      CountInCovers(names, rows[1..]);
    }
  }

  lemma {:induction false} CountInEmpty(names: seq<string>, rows: seq<MetricRow>)
    requires |rows| == 0
    ensures CountIn(names, rows) == 0
  {
    if |names| > 0 {
      CountInEmpty(names[1..], rows);
    }
  }

  lemma {:induction false} TotalSeasonsCount(rows: seq<MetricRow>, names: seq<string>)
    requires forall n :: n in names ==> HasPlayer(rows, n)
    ensures TotalSeasons(Summaries(rows, names)) == CountIn(names, rows)
  {
    if |names| > 0 {
      TotalSeasonsCount(rows, names[1..]);
      assert Summaries(rows, names)[1..] == Summaries(rows, names[1..]);
    }
  }

  /** Every season row lands in exactly one group: the SEASONS column sums to
      the number of rows. */
  lemma SeasonsPartitionRows(rows: seq<MetricRow>)
    ensures TotalSeasons(CreateCareerSummary(rows)) == |rows|
  {
    var names := GroupKeys(rows);
    assert forall i, j :: 0 <= i < j < |names| ==> names[i] != names[j] by {
      forall i, j | 0 <= i < j < |names|
        ensures names[i] != names[j]
      {
        LessAsymmetric(names[i], names[j]);
      }
    }
    assert forall i :: 0 <= i < |rows| ==> HasPlayer(rows, rows[i].s.name);
    CountInCovers(names, rows);
    TotalSeasonsCount(rows, names);
    assert CreateCareerSummary(rows) == Summaries(rows, names);
  }

  /** CAREER_PPG averages the seasons' PPG without weighting by games. The two
      agree with TOTAL_PTS / TOTAL_GAMES when every season has the same GP. */
  lemma EqualGamesMeanIsRatio(pr: seq<MetricRow>)
    requires |pr| > 0 && pr[0].s.t.gp > 0.0
    requires forall i :: 0 <= i < |pr| ==> pr[i].s.t.gp == pr[0].s.t.gp
    requires forall i :: 0 <= i < |pr| ==> pr[i].pg.ppg * pr[i].s.t.gp == pr[i].s.t.pts
    ensures Sum(Column(pr, GP)) == |pr| as real * pr[0].s.t.gp
    ensures Mean(Column(pr, PPG)) == Sum(Column(pr, PTS)) / Sum(Column(pr, GP))
  {
    var rates, points, games := Column(pr, PPG), Column(pr, PTS), Column(pr, GP);
    ColumnsOfEqualGames(pr, pr[0].s.t.gp);
    MeanOfEqualGames(rates, points, games, pr[0].s.t.gp);
  }

  /** With a common GP the PPG column scales to the PTS column and the GP
      column is constant. */
  lemma ColumnsOfEqualGames(pr: seq<MetricRow>, g: real)
    requires forall i :: 0 <= i < |pr| ==> pr[i].s.t.gp == g
    requires forall i :: 0 <= i < |pr| ==> pr[i].pg.ppg * pr[i].s.t.gp == pr[i].s.t.pts
    ensures forall i :: 0 <= i < |pr| ==> Column(pr, PPG)[i] * g == Column(pr, PTS)[i]
    ensures forall i :: 0 <= i < |pr| ==> Column(pr, GP)[i] == g
  {
  }

  /** With unequal games the mean of rates is not the ratio of totals: seasons
      of 10 and 20 games with 100 and 300 points give CAREER_PPG 12.5, while
      TOTAL_PTS / TOTAL_GAMES is 400 / 30. */
  lemma CareerMeanIsUnweighted(a: MetricRow, b: MetricRow)
    requires a.s.name == b.s.name
    requires a.s.t.gp == 10.0 && a.s.t.pts == 100.0 && a.pg.ppg == 10.0
    requires b.s.t.gp == 20.0 && b.s.t.pts == 300.0 && b.pg.ppg == 15.0
    ensures HasPlayer([a, b], a.s.name)
    ensures var c := CareerOf([a, b], a.s.name);
      c.seasons == 2 && c.totalGames == 30.0 && c.totalPts == 400.0 && c.ppg == 12.5 &&
      c.totalPts / c.totalGames != c.ppg
  {
    var rows := [a, b];
    assert rows[0].s.name == a.s.name;
    assert rows[1..] == [b] && [b][1..] == [];
    assert PlayerRows(rows, a.s.name) == rows;
    var c := CareerOf(rows, a.s.name);
    assert c.totalGames == 30.0 by {
      SumTwo(Column(rows, GP));
      assert IsCents(30.0);
    }
    assert c.totalPts == 400.0 by {
      SumTwo(Column(rows, PTS));
      assert IsCents(400.0);
    }
    assert c.ppg == 12.5 by {
      SumTwo(Column(rows, PPG));
      assert IsCents(12.5);
    }
  }

}
