/** `load_and_clean_data`, without the CSV read: keep the rows with a positive
    GP, then replace every NaN cell by 0. */
module Cleaning {
  import opened Wrappers
  import opened Records

  /** `GP > 0`; a NaN GP compares false and so is dropped as well. */
  predicate Plays(r: RawRow) {
    r.gp.Some? && r.gp.value > 0.0
  }

  /** A cleaned cell agrees with its raw cell: the same value, or 0 for NaN. */
  predicate Agrees(cell: Option<real>, v: real) {
    if cell.Some? then v == cell.value else v == 0.0
  }

  /** `s` is `r` with its missing cells filled and nothing else changed. */
  predicate FilledFrom(r: RawRow, s: Season) {
    && s.name == r.name && s.season == r.season
    && Agrees(r.gp, s.t.gp) && Agrees(r.min, s.t.min) && Agrees(r.pts, s.t.pts)
    && Agrees(r.reb, s.t.reb) && Agrees(r.ast, s.t.ast) && Agrees(r.stl, s.t.stl)
    && Agrees(r.blk, s.t.blk) && Agrees(r.fgm, s.t.fgm) && Agrees(r.fga, s.t.fga)
    && Agrees(r.ftm, s.t.ftm) && Agrees(r.fta, s.t.fta) && Agrees(r.tov, s.t.tov)
  }

  /** `fillna(0)` on one row. */
  function Fill(r: RawRow): (s: Season)
    ensures FilledFrom(r, s)
  {
    Season(r.name, r.season, Totals(
      r.gp.GetOr(0.0), r.min.GetOr(0.0), r.pts.GetOr(0.0), r.reb.GetOr(0.0),
      r.ast.GetOr(0.0), r.stl.GetOr(0.0), r.blk.GetOr(0.0), r.fgm.GetOr(0.0),
      r.fga.GetOr(0.0), r.ftm.GetOr(0.0), r.fta.GetOr(0.0), r.tov.GetOr(0.0)))
  }

  /** Every row that survives cleaning has a positive GP. */
  predicate AllPlayed(rows: seq<Season>) {
    forall i :: 0 <= i < |rows| ==> rows[i].t.gp > 0.0
  }

  function LoadAndClean(raw: seq<RawRow>): (rows: seq<Season>)
    ensures AllPlayed(rows)
    ensures |rows| <= |raw|
    ensures forall r :: r in raw && Plays(r) ==> Fill(r) in rows
    ensures forall s :: s in rows ==> exists r :: r in raw && Plays(r) && s == Fill(r)
  {
    if |raw| == 0 then []
    else
      var rest := LoadAndClean(raw[1..]);
      assert forall r :: r in raw[1..] ==> r in raw;
      assert forall r :: r in raw ==> r == raw[0] || r in raw[1..];
      Kept(raw[0]) + rest
  }

  /** What cleaning makes of one row. */
  function Kept(r: RawRow): seq<Season> {
    if Plays(r) then [Fill(r)] else []
  }

  /** Cleaning works row by row: it distributes over concatenation, so the
      surviving rows keep their relative order. */
  lemma {:induction false} CleanConcat(a: seq<RawRow>, b: seq<RawRow>)
    ensures LoadAndClean(a + b) == LoadAndClean(a) + LoadAndClean(b)
  {
    if |a| > 0 {
      assert (a + b)[0] == a[0] && (a + b)[1..] == a[1..] + b;
      CleanConcat(a[1..], b);
      calc {
        LoadAndClean(a + b);
        Kept(a[0]) + LoadAndClean(a[1..] + b);
        Kept(a[0]) + (LoadAndClean(a[1..]) + LoadAndClean(b));
        (Kept(a[0]) + LoadAndClean(a[1..])) + LoadAndClean(b);
      }
    } else {
      assert a + b == b;
    }
  }

  /** A single row survives, filled, exactly when it played. */
  lemma CleanSingle(r: RawRow)
    ensures LoadAndClean([r]) == Kept(r)
  {
    assert [r][1..] == [];
  }

  /** No deduplication: two identical rows that played both survive. */
  lemma CleanKeepsDuplicates(r: RawRow)
    requires Plays(r)
    ensures LoadAndClean([r, r]) == [Fill(r), Fill(r)]
  {
    CleanConcat([r], [r]);
    CleanSingle(r);
    assert [r] + [r] == [r, r];
  }
}
