/** The rows the pipeline passes from stage to stage. Each stage returns a new
    sequence of rows of the next type; a stage never edits its input. */
module Records {
  import opened Wrappers
  import opened Floats

  /** One row of the raw season-totals table. A `None` cell is a NaN. */
  datatype RawRow = RawRow(
    name: string, season: string,
    gp: Option<real>, min: Option<real>, pts: Option<real>, reb: Option<real>,
    ast: Option<real>, stl: Option<real>, blk: Option<real>, fgm: Option<real>,
    fga: Option<real>, ftm: Option<real>, fta: Option<real>, tov: Option<real>)

  /** The counting totals of a cleaned row: games, minutes, points, rebounds,
      assists, steals, blocks, field goals and free throws made/attempted,
      turnovers. */
  datatype Totals = Totals(
    gp: real, min: real, pts: real, reb: real, ast: real, stl: real, blk: real,
    fgm: real, fga: real, ftm: real, fta: real, tov: real)

  /** A cleaned player-season: identity plus totals with no missing cell. */
  datatype Season = Season(name: string, season: string, t: Totals)

  /** PPG, RPG, APG, SPG, BPG and MPG. */
  datatype PerGame = PerGame(ppg: real, rpg: real, apg: real, spg: real, bpg: real, mpg: real)

  /** TS_PCT, EFFICIENCY, EFF_PER_MIN and USAGE_EST. */
  datatype Advanced = Advanced(ts: Float, eff: real, effPerMin: Float, usage: real)

  datatype GameRow = GameRow(s: Season, pg: PerGame)

  datatype MetricRow = MetricRow(s: Season, pg: PerGame, adv: Advanced)

  datatype Tier = Bench | RolePlayer | Starter | Star | Superstar

  /** A row of the categorized table; `tier == None` is a NaN SCORING_TIER. */
  datatype TieredRow = TieredRow(m: MetricRow, tier: Option<Tier>)

  /** The categorized table: `hasTierColumn` is false when no row qualified and
      the SCORING_TIER column was never added. */
  datatype TierTable = TierTable(rows: seq<TieredRow>, hasTierColumn: bool)

  /** The merge key (PLAYER_NAME, SEASON_ID). */
  datatype Key = Key(name: string, season: string)

  function KeyOf(m: MetricRow): Key {
    Key(m.s.name, m.s.season)
  }

  /** One row of the career summary, indexed by PLAYER_NAME. */
  datatype CareerRow = CareerRow(
    name: string, seasons: nat, totalGames: real, totalPts: real,
    ppg: real, rpg: real, apg: real, ts: Float, eff: real)
}
