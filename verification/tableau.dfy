/** The Tableau extract: the processed table with DECADE and SEASON_YEAR
    appended, and the career table passed through. */
module Tableau {
  import opened Wrappers
  import opened Records
  import opened Seasons

  /** `(year // 10) * 10`; Python's `//` floors, as Dafny's `/` does for a
      positive divisor. */
  function Decade(year: int): (d: int)
    ensures d % 10 == 0
    ensures d <= year < d + 10
  {
    (year / 10) * 10
  }

  /** The decade is the only multiple of ten in the ten years ending at the
      year. */
  lemma DecadeUnique(year: int, m: int)
    requires m % 10 == 0 && m <= year < m + 10
    ensures m == Decade(year)
  {
    var d := Decade(year);
    assert d % 10 == 0 && d <= year < d + 10;
    assert (m - d) % 10 == 0;
    assert -10 < m - d < 10;
  }

  /** A row of the extract: the processed row, then DECADE and SEASON_YEAR. */
  datatype ExtractRow = ExtractRow(row: TieredRow, decade: int, year: int)

  datatype Extract = Extract(rows: seq<ExtractRow>, hasTierColumn: bool, career: seq<CareerRow>)

  function SeasonIds(rows: seq<TieredRow>): (ids: seq<string>)
    ensures |ids| == |rows|
    ensures forall i :: 0 <= i < |rows| ==> ids[i] == rows[i].m.s.season
  {
    seq(|rows|, i requires 0 <= i < |rows| => rows[i].m.s.season)
  }

  /** `create_tableau_ready_data` on the two loaded tables. The conversion
      fails on the first SEASON_ID whose first four characters are not an
      integer; otherwise each row keeps every field and gains its decade and
      start year, and the career table is unchanged. */
  function CreateTableauReadyData(t: TierTable, career: seq<CareerRow>): (r: Result<Extract, string>)
    ensures r.Success? <==> forall i :: 0 <= i < |t.rows| ==> SeasonYear(t.rows[i].m.s.season).Some?
    ensures r.Failure? ==> exists i :: FirstUnparsable(SeasonIds(t.rows), i) && r.error == t.rows[i].m.s.season
    ensures r.Success? ==> |r.value.rows| == |t.rows|
    ensures r.Success? ==> forall i :: 0 <= i < |t.rows| ==>
      && r.value.rows[i].row == t.rows[i]
      && SeasonYear(t.rows[i].m.s.season) == Some(r.value.rows[i].year)
      && r.value.rows[i].decade % 10 == 0
      && r.value.rows[i].decade <= r.value.rows[i].year < r.value.rows[i].decade + 10
    ensures r.Success? ==> r.value.hasTierColumn == t.hasTierColumn && r.value.career == career
  {
    var ids := SeasonIds(t.rows);
    match SeasonYears(ids)
    case Failure(e) => Failure(e)
    case Success(years) =>
      Success(Extract(
        seq(|t.rows|, i requires 0 <= i < |t.rows| => ExtractRow(t.rows[i], Decade(years[i]), years[i])),
        t.hasTierColumn, career))
  }
}
