/**
 * The tax-bracket lookup of app/core/storage.py: the preliminary tax of the
 * first bracket, in list order, whose upper income bound is missing or
 * reaches the income; 0.0 when no bracket does.
 */
module Storage {
  import opened Wrappers
  import opened Models

  /** A bracket covers an income when it has no upper bound or the income is at most that bound. */
  predicate Covers(b: TaxBracket, income: real)
  {
    b.lonTill.None? || income <= b.lonTill.value
  }

  /** The bracket at `i` is the first one that covers `income`. */
  predicate FirstCovering(brackets: seq<TaxBracket>, income: real, i: int)
  {
    0 <= i < |brackets| && Covers(brackets[i], income) &&
    forall j :: 0 <= j < i ==> !Covers(brackets[j], income)
  }

  /**
   * `calculate_tax_bracket`: the `prel_skatt` of the first covering
   * bracket, and 0.0 when none covers the income.
   */
  function TaxBracketFor(income: real, brackets: seq<TaxBracket>): (r: real)
    ensures forall i :: FirstCovering(brackets, income, i) ==> r == brackets[i].prelSkatt
    ensures (forall j :: 0 <= j < |brackets| ==> !Covers(brackets[j], income)) ==> r == 0.0
    decreases |brackets|
  {
    if brackets == [] then 0.0
    else if Covers(brackets[0], income) then brackets[0].prelSkatt
    else
      var r := TaxBracketFor(income, brackets[1..]);
      assert forall i :: FirstCovering(brackets, income, i) ==> FirstCovering(brackets[1..], income, i - 1);
      r
  }

  /** Some bracket covers the income exactly when there is a first one that does. */
  lemma {:induction false} FirstCoveringExists(brackets: seq<TaxBracket>, income: real, k: int)
    requires 0 <= k < |brackets| && Covers(brackets[k], income)
    ensures exists i :: 0 <= i <= k && FirstCovering(brackets, income, i)
    decreases k
  {
    if forall j :: 0 <= j < k ==> !Covers(brackets[j], income) {
      assert FirstCovering(brackets, income, k);
    } else {
      var j :| 0 <= j < k && Covers(brackets[j], income);
      FirstCoveringExists(brackets, income, j);
    }
  }

  /**
   * An open-ended bracket covers every income, so the result is always
   * the tax of that bracket or of one before it, never the 0.0 default.
   */
  lemma OpenBracketDecides(brackets: seq<TaxBracket>, income: real, k: int)
    requires 0 <= k < |brackets| && brackets[k].lonTill.None?
    ensures exists i :: 0 <= i <= k && TaxBracketFor(income, brackets) == brackets[i].prelSkatt
  {
    FirstCoveringExists(brackets, income, k);
    var i :| 0 <= i <= k && FirstCovering(brackets, income, i);
  }

  /** The brackets after the first covering one never change the result. */
  lemma {:induction false} LaterBracketsIgnored(brackets: seq<TaxBracket>, income: real, k: int, rest: seq<TaxBracket>)
    requires 0 <= k < |brackets| && Covers(brackets[k], income)
    ensures TaxBracketFor(income, brackets[..k + 1] + rest) == TaxBracketFor(income, brackets)
  {
    FirstCoveringExists(brackets, income, k);
    var i :| 0 <= i <= k && FirstCovering(brackets, income, i);
    var longer := brackets[..k + 1] + rest;
    assert forall j :: 0 <= j <= k ==> longer[j] == brackets[j];
    assert FirstCovering(longer, income, i);
  }
}
