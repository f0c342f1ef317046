/** ESTIMATED_AGE: 19 plus the number of years since the player's first
    season in the table, and the prime (27-31) and veteran (32+) windows. */
module Ages {
  import opened Wrappers
  import opened Records
  import opened Seasons
  import opened Archetypes
  import opened Trajectories

  const RookieAge := 19

  /** The player's earliest start year, the group `min()` of the transform. */
  function FirstYear(names: seq<string>, years: seq<int>, n: string): (y: Option<int>)
    requires |names| == |years|
    ensures y.Some? <==> n in names
    ensures y.Some? ==> exists i :: 0 <= i < |names| && names[i] == n && years[i] == y.value
    ensures y.Some? ==> forall i :: 0 <= i < |names| && names[i] == n ==> y.value <= years[i]
  {
    if |names| == 0 then None
    else
      var rest := FirstYear(names[1..], years[1..], n);
      assert forall i :: 1 <= i < |names| ==> names[i] == names[1..][i - 1] && years[i] == years[1..][i - 1];
      assert n in names <==> names[0] == n || n in names[1..];
      if names[0] != n then
        if rest.Some? then
          var k :| 0 <= k < |names[1..]| && names[1..][k] == n && years[1..][k] == rest.value;
          assert names[k + 1] == n && years[k + 1] == rest.value;
          rest
        else rest
      else if rest.None? || years[0] <= rest.value then
        Some(years[0])
      else
        var k :| 0 <= k < |names[1..]| && names[1..][k] == n && years[1..][k] == rest.value;
        assert names[k + 1] == n && years[k + 1] == rest.value;
        rest
  }

  /** The ages for a name column and its parsed start years. */
  function AgesOf(names: seq<string>, years: seq<int>): (ages: seq<int>)
    requires |names| == |years|
    ensures |ages| == |names|
    ensures forall i :: 0 <= i < |names| ==> ages[i] >= RookieAge
    ensures forall i :: 0 <= i < |names| ==>
      (ages[i] == RookieAge <==> forall j :: 0 <= j < |names| && names[j] == names[i] ==> years[i] <= years[j])
    ensures forall i, j :: 0 <= i < |names| && 0 <= j < |names| && names[i] == names[j] ==>
      ages[i] - ages[j] == years[i] - years[j]
  {
    seq(|names|, i requires 0 <= i < |names| =>
      assert names[i] in names;
      RookieAge + (years[i] - FirstYear(names, years, names[i]).value))
  }

  /** The ESTIMATED_AGE column, or the first SEASON_ID that `astype(int)`
      rejects. */
  function EstimatedAges(rows: seq<MetricRow>): (r: Result<seq<int>, string>)
    ensures r.Success? <==> forall i :: 0 <= i < |rows| ==> SeasonYear(rows[i].s.season).Some?
    ensures r.Failure? ==> exists i :: FirstUnparsable(SeasonsOf(rows), i) && r.error == rows[i].s.season
    ensures r.Success? ==> |r.value| == |rows| && forall i :: 0 <= i < |rows| ==> r.value[i] >= RookieAge
    ensures r.Success? ==> forall i, j :: 0 <= i < |rows| && 0 <= j < |rows| && rows[i].s.name == rows[j].s.name ==>
      r.value[i] - r.value[j] == SeasonYear(rows[i].s.season).value - SeasonYear(rows[j].s.season).value
    ensures r.Success? ==> forall i :: 0 <= i < |rows| ==>
      (r.value[i] == RookieAge <==> forall j :: 0 <= j < |rows| && rows[j].s.name == rows[i].s.name ==>
        SeasonYear(rows[i].s.season).value <= SeasonYear(rows[j].s.season).value)
  {
    match SeasonYears(SeasonsOf(rows))
    case Failure(e) => Failure(e)
    case Success(years) => Success(RowAges(rows, years))
  }

  /** AgesOf over the rows' names, given each row's parsed season year. */
  function RowAges(rows: seq<MetricRow>, years: seq<int>): (ages: seq<int>)
    requires |years| == |rows|
    requires forall i :: 0 <= i < |rows| ==> SeasonYear(rows[i].s.season) == Some(years[i])
    ensures |ages| == |rows| && forall i :: 0 <= i < |rows| ==> ages[i] >= RookieAge
    ensures forall i, j :: 0 <= i < |rows| && 0 <= j < |rows| && rows[i].s.name == rows[j].s.name ==>
      ages[i] - ages[j] == SeasonYear(rows[i].s.season).value - SeasonYear(rows[j].s.season).value
    ensures forall i :: 0 <= i < |rows| ==>
      (ages[i] == RookieAge <==> forall j :: 0 <= j < |rows| && rows[j].s.name == rows[i].s.name ==>
        SeasonYear(rows[i].s.season).value <= SeasonYear(rows[j].s.season).value)
  {
    AgesOf(NamesOf(rows), years)
  }

  predicate InPrime(age: int) {
    27 <= age <= 31
  }

  predicate IsVeteran(age: int) {
    age >= 32
  }

  lemma WindowsDisjoint(age: int)
    ensures !(InPrime(age) && IsVeteran(age))
  {
  }

  /** The Age Curve insight needs both a prime-age and a veteran row. */
  predicate AgeCurveReported(ages: seq<int>) {
    (exists i :: 0 <= i < |ages| && InPrime(ages[i])) && (exists i :: 0 <= i < |ages| && IsVeteran(ages[i]))
  }

  /** A veteran row lies at least 13 years after some season of the same
      player, so the insight appears only when some player's seasons span
      13 years or more. */
  lemma AgeCurveNeedsLongCareer(names: seq<string>, years: seq<int>)
    requires |names| == |years|
    requires AgeCurveReported(AgesOf(names, years))
    ensures exists i, j :: 0 <= i < |names| && 0 <= j < |names| && names[i] == names[j] && years[i] - years[j] >= 13
  {
    var ages := AgesOf(names, years);
    var i :| 0 <= i < |ages| && IsVeteran(ages[i]);
    assert names[i] in names;
    var j :| 0 <= j < |names| && names[j] == names[i] && years[j] == FirstYear(names, years, names[i]).value;
    assert ages[i] - ages[j] == years[i] - years[j];
    assert ages[j] >= RookieAge;
  }
}
