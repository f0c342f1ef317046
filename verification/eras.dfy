/** The ERA column: every row is first labelled Modern, then rows starting in
    2010 or earlier are relabelled Traditional and rows starting in 2011-2018
    Transition. */
module Eras {
  import opened Wrappers
  import opened Seasons
  import opened Overrides

  datatype Era = Traditional | Transition | Modern

  function EraRules(year: int): seq<(bool, Era)> {
    [(year <= 2010, Traditional), (2010 < year <= 2018, Transition)]
  }

  function EraOf(year: int): (e: Era)
    ensures e == Traditional <==> year <= 2010
    ensures e == Transition <==> 2011 <= year <= 2018
    ensures e == Modern <==> year >= 2019
  {
    var rules := EraRules(year);
    if year <= 2010 then
      assert LastHolding(rules, 0);
      Apply(Modern, rules)
    else if year <= 2018 then
      assert LastHolding(rules, 1);
      Apply(Modern, rules)
    else
      assert NoneHold(rules);
      Apply(Modern, rules)
  }

  function Rank(e: Era): nat {
    match e
    case Traditional => 0
    case Transition => 1
    case Modern => 2
  }

  /** A later start year never falls in an earlier era. */
  lemma EraMonotone(y1: int, y2: int)
    requires y1 <= y2
    ensures Rank(EraOf(y1)) <= Rank(EraOf(y2))
  {
  }

  /** The column for a sequence of SEASON_IDs; the `astype(int)` conversion
      fails on the first identifier whose prefix is not an integer. */
  function AssignEras(ids: seq<string>): (r: Result<seq<Era>, string>)
    ensures r.Success? <==> forall i :: 0 <= i < |ids| ==> SeasonYear(ids[i]).Some?
    ensures r.Failure? ==> exists i :: FirstUnparsable(ids, i) && r.error == ids[i]
    ensures r.Success? ==> |r.value| == |ids|
    ensures r.Success? ==> forall i :: 0 <= i < |ids| ==>
      (r.value[i] == Traditional <==> SeasonYear(ids[i]).value <= 2010) &&
      (r.value[i] == Transition <==> 2011 <= SeasonYear(ids[i]).value <= 2018) &&
      (r.value[i] == Modern <==> 2019 <= SeasonYear(ids[i]).value)
  {
    match SeasonYears(ids)
    case Failure(e) => Failure(e)
    case Success(years) => Success(seq(|years|, i requires 0 <= i < |years| => EraOf(years[i])))
  }
}
