/** The start year of a season identifier, `SEASON_ID.str[:4].astype(int)`. */
module Seasons {
  import opened Wrappers
  import opened Text

  /** The first four characters (fewer when the identifier is shorter). */
  function Prefix4(id: string): (p: string)
    ensures |p| == if |id| < 4 then |id| else 4
    ensures p <= id
  {
    if |id| < 4 then id else id[..4]
  }

  /** `str[:4].astype(int)` of one identifier: defined exactly when the first
      four characters are an integer literal, and then a number of at most
      four digits. */
  function SeasonYear(id: string): (r: Option<int>)
    ensures r.Some? <==> IntLiteral(Prefix4(id))
    ensures r.Some? ==> -1000 < r.value < 10000
  {
    var p := Prefix4(id);
    if ParseInt(p).Some? then
      ParseIntBound(p, 4);
      assert Pow10(3) == 1000 && Pow10(4) == 10000;
      ParseInt(p)
    else None
  }

  /** A `YYYY-YY` identifier, or any identifier starting with four digits,
      yields the year those digits spell. */
  lemma SeasonYearOfFormatted(y: nat, rest: string)
    requires y < 10000
    ensures SeasonYear(FourDigits(y) + rest) == Some(y)
  {
    assert Prefix4(FourDigits(y) + rest) == FourDigits(y);
    FourDigitsRoundTrip(y);
  }

  /** `ids[i]` is the first identifier whose year does not parse. */
  predicate FirstUnparsable(ids: seq<string>, i: int) {
    && 0 <= i < |ids|
    && SeasonYear(ids[i]).None?
    && forall j :: 0 <= j < i ==> SeasonYear(ids[j]).Some?
  }

  /** The column conversion: every identifier's year, or the first identifier
      whose prefix `int` rejects (the ValueError aborts the whole column). */
  function SeasonYears(ids: seq<string>): (r: Result<seq<int>, string>)
    ensures r.Success? <==> forall i :: 0 <= i < |ids| ==> SeasonYear(ids[i]).Some?
    ensures r.Success? ==> |r.value| == |ids|
    ensures r.Success? ==> forall i :: 0 <= i < |ids| ==> SeasonYear(ids[i]) == Some(r.value[i])
    ensures r.Failure? ==> exists i :: FirstUnparsable(ids, i) && ids[i] == r.error
  {
    if |ids| == 0 then Success([])
    else
      match SeasonYear(ids[0])
      case None => Failure(ids[0])
      case Some(y) =>
        var rest := SeasonYears(ids[1..]);
        assert forall i :: 1 <= i < |ids| ==> ids[i] == ids[1..][i - 1];
        match rest
        case Success(ys) => Success([y] + ys)
        case Failure(e) =>
          ghost var k :| FirstUnparsable(ids[1..], k) && ids[1..][k] == e;
          assert FirstUnparsable(ids, k + 1);
          Failure(e)
  }
}
