/**
 * The monthly budget card: how much of the limit is used, what remains and
 * which of Not Set / Over Limit / Warning / On Track applies, plus the
 * limit editor's input formatting and its save gate.
 */
module BudgetStatus {
  import opened Wrappers
  import opened JsText
  import opened Types

  datatype Status = NotSet | OverLimit | Warning | OnTrack

  datatype BudgetStatusResult = BudgetStatusResult(budgetPercent: real, remainingBudget: int,
                                                   status: Status, color: string)

  const Rose := "#f43f5e"
  const Emerald := "#10b981"
  const Slate := "#94a3b8"

  /** `calculateBudgetStatus(expenses, budgetLimit)`. */
  function CalculateBudgetStatus(expenses: int, budgetLimit: int): (r: BudgetStatusResult)
    ensures budgetLimit <= 0 ==> r == BudgetStatusResult(0.0, 0, NotSet, Slate)
    ensures budgetLimit > 0 ==> r.remainingBudget == budgetLimit - expenses
    ensures budgetLimit > 0 ==> (r.remainingBudget < 0 <==> r.status == OverLimit)
    // the percentage is the usage, capped at 100
    ensures budgetLimit > 0 ==> r.budgetPercent <= 100.0
    ensures budgetLimit > 0 ==> (r.budgetPercent == 100.0 <==> expenses >= budgetLimit)
    ensures budgetLimit > 0 && expenses < budgetLimit ==>
              r.budgetPercent * budgetLimit as real == expenses as real * 100.0
    ensures expenses >= 0 ==> 0.0 <= r.budgetPercent <= 100.0
    // status, in the order the checks are made
    ensures r.status == NotSet <==> budgetLimit <= 0
    ensures r.status == OverLimit <==> budgetLimit > 0 && expenses > budgetLimit
    ensures r.status == Warning <==> budgetLimit > 0 && expenses <= budgetLimit && expenses * 10 >= budgetLimit * 8
    ensures r.status == OnTrack <==> budgetLimit > 0 && expenses * 10 < budgetLimit * 8
    ensures r.color == match r.status
                       case OverLimit => Rose
                       case Warning => Rose
                       case OnTrack => Emerald
                       case NotSet => Slate
  {
    if budgetLimit <= 0 then BudgetStatusResult(0.0, 0, NotSet, Slate)
    else
      var budgetPercent := expenses as real / budgetLimit as real * 100.0;
      var remainingBudget := budgetLimit - expenses;
      UsageScale(expenses, budgetLimit, budgetPercent);
      var (status, color) :=
        if expenses > budgetLimit then (OverLimit, Rose)
        else if budgetPercent >= 80.0 then (Warning, Rose)
        else (OnTrack, Emerald);
      BudgetStatusResult(MinReal(budgetPercent, 100.0), remainingBudget, status, color)
  }

  /** No limit reads Not Set; spending 1200 of a 1000 limit is Over Limit, capped at 100%, with -200 left. */
  lemma StatusExamples()
    ensures CalculateBudgetStatus(0, 0) == BudgetStatusResult(0.0, 0, NotSet, Slate)
    ensures var r := CalculateBudgetStatus(1200, 1000);
            r.status == OverLimit && r.budgetPercent == 100.0 && r.remainingBudget == -200
  {
  }

  /** The usage p = expenses / limit * 100 compared with the thresholds in integers. */
  lemma UsageScale(expenses: int, budgetLimit: int, p: real)
    requires budgetLimit > 0
    requires p == expenses as real / budgetLimit as real * 100.0
    ensures p * budgetLimit as real == expenses as real * 100.0
    ensures p >= 80.0 <==> expenses * 10 >= budgetLimit * 8
    ensures p >= 100.0 <==> expenses >= budgetLimit
    ensures expenses >= 0 ==> p >= 0.0
  {
    var l := budgetLimit as real;
    var x := expenses as real * 100.0;
    assert p * l == x;
    ScaledAtLeast(p, l, x, 80.0);
    ScaledAtLeast(p, l, x, 100.0);
    ScaledAtLeast(p, l, x, 0.0);
  }

  /**
   * `formatInputValue`: the limit input keeps only its digits and shows
   * them grouped, or nothing when no digit was typed.
   */
  function FormatInputValue(val: string): (r: string)
    ensures KeepDigits(val) == [] <==> r == []
    ensures r != [] ==> DigitsValue(KeepDigits(r)) == DigitsValue(KeepDigits(val))
  {
    var r := FormatIntegerInput(val);
    if KeepDigits(val) == [] then r
    else
      GroupedDigits(DigitsValue(KeepDigits(val)));
      r
  }

  /**
   * The value `handleSave` passes to `onLimitChange`: `parseFloat` of the
   * text with everything but digits and full stops removed; None when that
   * is NaN, in which case nothing is saved.
   */
  function HandleSave(tempLimit: string): (r: Option<real>)
    ensures r.Some? ==> r.value >= 0.0
    ensures (forall i :: 0 <= i < |tempLimit| ==> !IsDigit(tempLimit[i])) ==> r.None?
    ensures AllDigits(tempLimit) ==> r == if tempLimit == [] then None else Some(DigitsValue(tempLimit) as real)
  {
    var kept := KeepDigitsAndDots(tempLimit);
    assert (forall i :: 0 <= i < |tempLimit| ==> !IsDigit(tempLimit[i])) ==>
             forall i :: 0 <= i < |kept| ==> !IsDigit(kept[i]) by {
      forall i | 0 <= i < |kept| && IsDigit(kept[i]) ensures exists j :: 0 <= j < |tempLimit| && IsDigit(tempLimit[j]) {
        assert multiset(kept)[kept[i]] > 0;
        assert kept[i] in multiset(tempLimit);
      }
    }
    ParseFloatPrefix(kept)
  }

  /**
   * Whatever was typed, the formatted limit saves as the integer its digits
   * spell, and saves nothing when no digit was typed.
   */
  lemma {:induction false} SaveFormatted(val: string)
    ensures KeepDigits(val) == [] ==> HandleSave(FormatInputValue(val)) == None
    ensures KeepDigits(val) != [] ==>
              HandleSave(FormatInputValue(val)) == Some(DigitsValue(KeepDigits(val)) as real)
  {
    if KeepDigits(val) == [] {
      assert FormatInputValue(val) == [];
      assert KeepDigitsAndDots([]) == [];
    } else {
      var n := DigitsValue(KeepDigits(val));
      assert FormatInputValue(val) == Grouped(n);
      GroupedHasNoDot(n);
      GroupedDigits(n);
    }
  }
}
