/**
 * The spending overview gauge: the share of income spent and the share left.
 */
module SpendingOverview {
  import opened Types

  datatype BudgetPercentage = BudgetPercentage(expensePercent: real, remainingPercent: real)

  /** `calculateBudgetPercentage(income, expenses)`. */
  function CalculateBudgetPercentage(income: int, expenses: int): (r: BudgetPercentage)
    ensures income <= 0 ==> r.remainingPercent == 0.0
    ensures income <= 0 ==> r.expensePercent == if expenses > 0 then 100.0 else 0.0
    // with an income: the spent share, capped at 100, and what is left of 100
    ensures income > 0 ==> r.expensePercent <= 100.0
    ensures income > 0 ==> (r.expensePercent == 100.0 <==> expenses >= income)
    ensures income > 0 && expenses < income ==>
              r.expensePercent * income as real == expenses as real * 100.0
    ensures income > 0 ==> r.remainingPercent == if r.expensePercent <= 100.0 then 100.0 - r.expensePercent else 0.0
    ensures income > 0 && expenses >= 0 ==>
              && 0.0 <= r.expensePercent <= 100.0
              && 0.0 <= r.remainingPercent <= 100.0
              && r.expensePercent + r.remainingPercent == 100.0
  {
    if income <= 0 then
      BudgetPercentage(if expenses > 0 then 100.0 else 0.0, 0.0)
    else
      var share := expenses as real / income as real * 100.0;
      assert share * income as real == expenses as real * 100.0;
      assert share >= 100.0 <==> expenses >= income by {
        ScaledAtLeast(share, income as real, expenses as real * 100.0, 100.0);
      }
      assert expenses >= 0 ==> share >= 0.0 by {
        ScaledAtLeast(share, income as real, expenses as real * 100.0, 0.0);
      }
      var expensePercent := MinReal(100.0, share);
      var remainingPercent := MaxReal(0.0, 100.0 - expensePercent);
      BudgetPercentage(expensePercent, remainingPercent)
  }
}
