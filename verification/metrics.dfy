/** `calculate_per_game_stats` and `calculate_advanced_metrics`: columns that
    are pure functions of the totals on the same row. */
module Metrics {
  import opened Floats
  import opened Records
  import opened Cleaning

  /** The free-throw weight in the true-shooting and usage formulas (0.44). */
  const FreeThrowWeight: real := 11.0 / 25.0

  /** `rate` is `total` per game: multiplying back by GP recovers the total. */
  predicate PerGameOf(rate: real, total: real, gp: real) {
    rate * gp == total
  }

  /** The six rates of one row, each a total divided by GP. */
  function Rates(t: Totals): (pg: PerGame)
    requires t.gp > 0.0
    ensures PerGameOf(pg.ppg, t.pts, t.gp) && PerGameOf(pg.rpg, t.reb, t.gp)
    ensures PerGameOf(pg.apg, t.ast, t.gp) && PerGameOf(pg.spg, t.stl, t.gp)
    ensures PerGameOf(pg.bpg, t.blk, t.gp) && PerGameOf(pg.mpg, t.min, t.gp)
  {
    PerGame(t.pts / t.gp, t.reb / t.gp, t.ast / t.gp, t.stl / t.gp, t.blk / t.gp, t.min / t.gp)
  }

  /** The per-game stage keeps every row, in order, and adds its six rates. */
  function CalculatePerGameStats(rows: seq<Season>): (out: seq<GameRow>)
    requires AllPlayed(rows)
    ensures |out| == |rows|
    ensures forall i :: 0 <= i < |rows| ==> out[i].s == rows[i]
    ensures forall i :: 0 <= i < |rows| ==> out[i].pg.ppg * rows[i].t.gp == rows[i].t.pts
    ensures forall i :: 0 <= i < |rows| ==> out[i].pg.mpg * rows[i].t.gp == rows[i].t.min
    ensures forall i :: 0 <= i < |rows| ==> out[i].pg == Rates(rows[i].t)
  {
    seq(|rows|, i requires 0 <= i < |rows| => GameRow(rows[i], Rates(rows[i].t)))
  }

  /** The denominator of TS_PCT: twice the true shooting attempts. */
  function ShootingAttempts(t: Totals): real {
    2.0 * (t.fga + FreeThrowWeight * t.fta)
  }

  /** TS_PCT with its `fillna(0)`: the quotient when there were attempts, 0 for
      0/0, and an infinity (not zeroed) for points without attempts. */
  function TrueShooting(t: Totals): (ts: Float)
    ensures ShootingAttempts(t) != 0.0 ==> ts.Finite? && ts.v * ShootingAttempts(t) == t.pts
    ensures ShootingAttempts(t) == 0.0 && t.pts == 0.0 ==> ts == Finite(0.0)
    ensures ShootingAttempts(t) == 0.0 && t.pts > 0.0 ==> ts == PosInf
    ensures ShootingAttempts(t) == 0.0 && t.pts < 0.0 ==> ts == NegInf
  {
    FillNa(Divide(t.pts, ShootingAttempts(t)), 0.0)
  }

  /** With non-negative attempt counts the TS_PCT denominator is zero exactly
      when no field goal and no free throw was attempted, so such a row with
      no points has TS_PCT exactly 0. */
  lemma NoAttemptsMeansZeroShooting(t: Totals)
    requires t.fga >= 0.0 && t.fta >= 0.0
    ensures ShootingAttempts(t) == 0.0 <==> t.fga == 0.0 && t.fta == 0.0
    ensures t.fga == 0.0 && t.fta == 0.0 && t.pts == 0.0 ==> TrueShooting(t) == Finite(0.0)
  {
  }

  /** The box-score production of a row (points, rebounds, assists, steals,
      blocks). */
  function Production(t: Totals): real {
    t.pts + t.reb + t.ast + t.stl + t.blk
  }

  /** Missed field goals, missed free throws and turnovers. */
  function Waste(t: Totals): real {
    (t.fga - t.fgm) + (t.fta - t.ftm) + t.tov
  }

  /** EFFICIENCY: production minus waste, with no floor. */
  function Efficiency(t: Totals): (e: real)
    ensures e + Waste(t) == Production(t)
  {
    Production(t) - Waste(t)
  }

  /** EFFICIENCY is not clamped at 0: a scoreless one-game season with two
      missed shots and a turnover rates -3. */
  lemma EfficiencyCanBeNegative() returns (t: Totals)
    ensures t.gp > 0.0 && Efficiency(t) < 0.0
  {
    t := Totals(1.0, 12.0, 0.0, 0.0, 0.0, 0.0, 0.0, 0.0, 2.0, 0.0, 0.0, 1.0);
    assert Production(t) == 0.0 && Waste(t) == 3.0;
  }

  /** EFF_PER_MIN with its `fillna(0)`: the quotient when minutes were played,
      0 when both efficiency and minutes are 0, and an infinity of the sign of
      the efficiency otherwise (not zeroed). */
  function EfficiencyPerMinute(t: Totals): (r: Float)
    ensures t.min != 0.0 ==> r.Finite? && r.v * t.min == Efficiency(t)
    ensures t.min == 0.0 && Efficiency(t) == 0.0 ==> r == Finite(0.0)
    ensures t.min == 0.0 && Efficiency(t) > 0.0 ==> r == PosInf
    ensures t.min == 0.0 && Efficiency(t) < 0.0 ==> r == NegInf
  {
    FillNa(Divide(Efficiency(t), t.min), 0.0)
  }

  /** USAGE_EST: shooting possessions plus turnovers, per game. */
  function UsageEstimate(t: Totals): (u: real)
    requires t.gp > 0.0
    ensures u * t.gp == t.fga + FreeThrowWeight * t.fta + t.tov
  {
    (t.fga + t.fta * FreeThrowWeight + t.tov) / t.gp
  }

  function AdvancedOf(t: Totals): Advanced
    requires t.gp > 0.0
  {
    Advanced(TrueShooting(t), Efficiency(t), EfficiencyPerMinute(t), UsageEstimate(t))
  }

  /** A metric row of a played season whose rates and advanced metrics are
      those of its own totals. */
  predicate OwnMetrics(m: MetricRow) {
    && m.s.t.gp > 0.0
    && m.pg == Rates(m.s.t)
    && m.adv.ts == TrueShooting(m.s.t)
    && m.adv.effPerMin == EfficiencyPerMinute(m.s.t)
    && m.adv.eff + Waste(m.s.t) == Production(m.s.t)
    && m.adv.usage * m.s.t.gp == m.s.t.fga + FreeThrowWeight * m.s.t.fta + m.s.t.tov
  }

  /** Games played is positive on every row of a per-game table. */
  predicate GamesPositive(rows: seq<GameRow>) {
    forall i :: 0 <= i < |rows| ==> rows[i].s.t.gp > 0.0
  }

  /** The advanced stage keeps every row and its rates, and adds the four
      metrics, each computed from that row's totals alone. */
  function CalculateAdvancedMetrics(rows: seq<GameRow>): (out: seq<MetricRow>)
    requires GamesPositive(rows)
    ensures |out| == |rows|
    ensures forall i :: 0 <= i < |rows| ==> out[i].s == rows[i].s && out[i].pg == rows[i].pg
    ensures forall i :: 0 <= i < |rows| ==>
      out[i].adv.eff + Waste(rows[i].s.t) == Production(rows[i].s.t)
    ensures forall i :: 0 <= i < |rows| ==>
      out[i].adv.usage * rows[i].s.t.gp == rows[i].s.t.fga + FreeThrowWeight * rows[i].s.t.fta + rows[i].s.t.tov
    ensures forall i :: 0 <= i < |rows| ==>
      out[i].adv.ts == TrueShooting(rows[i].s.t) && out[i].adv.effPerMin == EfficiencyPerMinute(rows[i].s.t)
  {
    seq(|rows|, i requires 0 <= i < |rows| => MetricRow(rows[i].s, rows[i].pg, AdvancedOf(rows[i].s.t)))
  }
}
