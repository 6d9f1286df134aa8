/**
 * The records the budget tracker keeps: transactions, the data of one month
 * and the monthly totals, with the small numeric and date helpers the
 * components share.
 */
module Types {
  import opened Wrappers
  import opened JsText

  datatype TxType = Income | Expense

  /** `type` is a reserved word in Dafny, so the transaction type is `kind`. */
  datatype Transaction = Transaction(id: string, title: string, amount: int, kind: TxType,
                                     category: string, date: string)

  datatype BudgetStats = BudgetStats(totalIncome: int, totalExpense: int, balance: int, budgetLimit: int)

  datatype MonthData = MonthData(income: int, budgetLimit: int, transactions: seq<Transaction>)

  /** What a month without an entry in the store reads as. */
  const EmptyMonth := MonthData(0, 0, [])

  function AmountOf(t: Transaction): int
  {
    t.amount
  }

  predicate IsIncome(t: Transaction)
  {
    t.kind == Income
  }

  predicate IsExpense(t: Transaction)
  {
    t.kind == Expense
  }

  /** `Math.round(x)`: the nearest integer, halves rounded up. */
  function MathRound(x: real): (r: int)
    ensures x - 0.5 < r as real <= x + 0.5
  {
    (x + 0.5).Floor
  }

  lemma MathRoundMonotone(x: real, y: real)
    requires x <= y
    ensures MathRound(x) <= MathRound(y)
  {
  }

  lemma MathRoundInteger(n: int)
    ensures MathRound(n as real) == n
  {
  }

  /**
   * Savings as a percentage of income, and 0 when there is no positive
   * income to measure it against.
   */
  function SavingsRate(income: int, expenses: int): (r: real)
    ensures income <= 0 ==> r == 0.0
    ensures income > 0 ==> r * income as real == (income - expenses) as real * 100.0
    ensures income > 0 && expenses <= income ==> r >= 0.0
  {
    if income > 0 then (income - expenses) as real / income as real * 100.0 else 0.0
  }

  function MinReal(a: real, b: real): real
  {
    if a < b then a else b
  }

  function MaxReal(a: real, b: real): real
  {
    if a < b then b else a
  }

  /** For a positive scale l with u * l == x, comparing u with t is comparing x with t * l. */
  lemma ScaledAtLeast(u: real, l: real, x: real, t: real)
    requires l > 0.0 && u * l == x
    ensures u >= t <==> x >= t * l
  {
    if u >= t {
      assert (u - t) * l >= 0.0;
    } else {
      assert (t - u) * l > 0.0;
    }
  }

  lemma ScaledAbove(u: real, l: real, x: real, t: real)
    requires l > 0.0 && u * l == x
    ensures u > t <==> x > t * l
  {
    if u > t {
      assert (u - t) * l > 0.0;
    } else {
      assert (t - u) * l >= 0.0;
    }
  }

  lemma MulLess(a: real, b: real, l: real)
    requires l > 0.0 && a < b
    ensures a * l < b * l
  {
    assert (b - a) * l > 0.0;
  }

  lemma MulAtMost(a: real, b: real, l: real)
    requires l > 0.0 && a <= b
    ensures a * l <= b * l
  {
    assert (b - a) * l >= 0.0;
  }

  // ------------------------------------------------------------------ dates

  /** `date.split('T')[0]`: the text before the first `T`. */
  function DateKey(date: string): (r: string)
    ensures |r| <= |date| && r == date[..|r|]
    ensures 'T' !in r
    ensures |r| == |date| || date[|r|] == 'T'
  {
    PrefixBefore(date, 'T')
  }

  /** date starts with a calendar date written YYYY-MM-DD. */
  predicate HasIsoDate(date: string)
  {
    && |date| >= 10
    && AllDigits(date[..4]) && date[4] == '-'
    && AllDigits(date[5..7]) && date[7] == '-'
    && AllDigits(date[8..10])
  }

  /**
   * `new Date(date).getDate()` for a date in the ISO form `toISOString`
   * writes, read in UTC; None stands for the NaN of a date that does not parse.
   */
  function DayOfMonth(date: string): (r: Option<int>)
    ensures r.Some? <==> HasIsoDate(date)
    ensures r.Some? ==> 0 <= r.value < 100
    ensures r.Some? ==> r.value == DigitsValue(date[8..10])
  {
    if HasIsoDate(date) then
      var dd := date[8..10];
      assert DigitsValue(dd) < 100 by {
        assert DigitsValue(dd) == DigitsValue(dd[..1]) * 10 + DigitValue(dd[1]);
        assert DigitsValue(dd[..1]) == DigitValue(dd[0]);
      }
      Some(DigitsValue(dd))
    else None
  }
}
