/** A label column written by successive `df.loc[mask, col] = label`
    statements: each statement overwrites the rows its mask selects, so the
    last statement whose mask holds for a row decides that row's label. */
module Overrides {
  /** `rules[i]` is the last rule whose mask holds. */
  predicate LastHolding<L>(rules: seq<(bool, L)>, i: int) {
    && 0 <= i < |rules|
    && rules[i].0
    && forall j :: i < j < |rules| ==> !rules[j].0
  }

  predicate NoneHold<L>(rules: seq<(bool, L)>) {
    forall j :: 0 <= j < |rules| ==> !rules[j].0
  }

  /** The label after applying the rules in order to a row labelled `current`. */
  function Apply<L>(current: L, rules: seq<(bool, L)>): (r: L)
    ensures forall i :: LastHolding(rules, i) ==> r == rules[i].1
    ensures NoneHold(rules) ==> r == current
  {
    if |rules| == 0 then current
    else
      var next := if rules[0].0 then rules[0].1 else current;
      var r := Apply(next, rules[1..]);
      assert forall i :: LastHolding(rules, i) && i > 0 ==> LastHolding(rules[1..], i - 1);
      assert forall i :: LastHolding(rules, i) && i == 0 ==> NoneHold(rules[1..]);
      r
  }
}
