/**
 * The financial health score: a base score from the savings-rate band, a
 * penalty when the budget is exceeded, and a status with its display tokens
 * read off the final score.
 */
module FinancialHealth {
  import opened Types

  datatype HealthStatus = Excellent | Good | Average | Critical

  datatype Icon = CheckCircle2 | TrendingUp | AlertCircle | ShieldAlert

  datatype HealthResult = HealthResult(savings: int, savingsRate: int, score: int, status: HealthStatus,
                                       colorClass: string, ringColor: string, bgColor: string, icon: Icon)

  /** The score of the savings-rate band; the first band that matches wins. */
  function BaseScore(rate: real): (score: int)
    ensures score == 100 <==> rate >= 30.0
    ensures score == 80 <==> 20.0 <= rate < 30.0
    ensures score == 60 <==> 10.0 <= rate < 20.0
    ensures score == 40 <==> 0.0 <= rate < 10.0
    ensures score == 10 <==> rate < 0.0
  {
    if rate >= 30.0 then 100
    else if rate >= 20.0 then 80
    else if rate >= 10.0 then 60
    else if rate >= 0.0 then 40
    else 10
  }

  lemma BaseScoreMonotone(a: real, b: real)
    requires a <= b
    ensures BaseScore(a) <= BaseScore(b)
  {
  }

  predicate OverBudget(expenses: int, budgetLimit: int)
  {
    budgetLimit > 0 && expenses > budgetLimit
  }

  /** The score after the budget penalty of 20 points, which never goes below 0. */
  function FinalScore(income: int, expenses: int, budgetLimit: int): (score: int)
    ensures 0 <= score <= 100
    ensures !OverBudget(expenses, budgetLimit) ==> score == BaseScore(SavingsRate(income, expenses))
    ensures OverBudget(expenses, budgetLimit) ==>
              score + 20 == BaseScore(SavingsRate(income, expenses))
              || (score == 0 && BaseScore(SavingsRate(income, expenses)) < 20)
  {
    var base := BaseScore(SavingsRate(income, expenses));
    if OverBudget(expenses, budgetLimit) then Max(0, base - 20) else base
  }

  function Max(a: int, b: int): int
  {
    if a < b then b else a
  }

  /** The status band of a score. */
  function StatusOf(score: int): (s: HealthStatus)
    ensures s == Excellent <==> score >= 80
    ensures s == Good <==> 60 <= score < 80
    ensures s == Average <==> 40 <= score < 60
    ensures s == Critical <==> score < 40
  {
    if score >= 80 then Excellent
    else if score >= 60 then Good
    else if score >= 40 then Average
    else Critical
  }

  /** `calculateFinancialHealth(income, expenses, budgetLimit)`. */
  function CalculateFinancialHealth(income: int, expenses: int, budgetLimit: int): (h: HealthResult)
    ensures h.savings == income - expenses
    ensures h.savingsRate == MathRound(SavingsRate(income, expenses))
    ensures income <= 0 ==> h.savingsRate == 0
    ensures h.score == FinalScore(income, expenses, budgetLimit) && 0 <= h.score <= 100
    ensures h.status == StatusOf(h.score)
    ensures match h.status
            case Excellent =>
              h.colorClass == "text-emerald-500" && h.ringColor == "#10b981"
              && h.bgColor == "bg-emerald-500/10" && h.icon == CheckCircle2
            case Good =>
              h.colorClass == "text-lime-500" && h.ringColor == "#84cc16"
              && h.bgColor == "bg-lime-500/10" && h.icon == TrendingUp
            case Average =>
              h.colorClass == "text-amber-500" && h.ringColor == "#f59e0b"
              && h.bgColor == "bg-amber-500/10" && h.icon == AlertCircle
            case Critical =>
              h.colorClass == "text-rose-500" && h.ringColor == "#f43f5e"
              && h.bgColor == "bg-rose-500/10" && h.icon == ShieldAlert
  {
    var savings := income - expenses;
    var savingsRate := SavingsRate(income, expenses);
    var score := FinalScore(income, expenses, budgetLimit);
    var status := StatusOf(score);
    match status
    case Excellent =>
      HealthResult(savings, MathRound(savingsRate), score, status,
                   "text-emerald-500", "#10b981", "bg-emerald-500/10", CheckCircle2)
    case Good =>
      HealthResult(savings, MathRound(savingsRate), score, status,
                   "text-lime-500", "#84cc16", "bg-lime-500/10", TrendingUp)
    case Average =>
      HealthResult(savings, MathRound(savingsRate), score, status,
                   "text-amber-500", "#f59e0b", "bg-amber-500/10", AlertCircle)
    case Critical =>
      HealthResult(savings, MathRound(savingsRate), score, status,
                   "text-rose-500", "#f43f5e", "bg-rose-500/10", ShieldAlert)
  }

  /** Without an income the rate counts as 0, so the base score is 40, not 10. */
  lemma NoIncomeScores(expenses: int, budgetLimit: int)
    ensures var h := CalculateFinancialHealth(0, expenses, budgetLimit);
            h.savingsRate == 0
            && h.score == (if OverBudget(expenses, budgetLimit) then 20 else 40)
            && h.status == (if OverBudget(expenses, budgetLimit) then Critical else Average)
  {
  }

  /** For a fixed positive income, spending more never lowers the rate. */
  lemma {:induction false} SavingsRateAntitone(income: int, e1: int, e2: int)
    requires income > 0 && e1 <= e2
    ensures SavingsRate(income, e2) <= SavingsRate(income, e1)
  {
    var r1 := SavingsRate(income, e1);
    var r2 := SavingsRate(income, e2);
    var l := income as real;
    assert r1 * l == (income - e1) as real * 100.0;
    assert r2 * l == (income - e2) as real * 100.0;
    if r1 < r2 {
      MulLess(r1, r2, l);
      assert false;
    }
  }

  /** With income and limit fixed, spending more never raises the health score. */
  lemma {:induction false} ScoreAntitone(income: int, e1: int, e2: int, budgetLimit: int)
    requires e1 <= e2
    ensures FinalScore(income, e2, budgetLimit) <= FinalScore(income, e1, budgetLimit)
  {
    if income > 0 {
      SavingsRateAntitone(income, e1, e2);
    }
    BaseScoreMonotone(SavingsRate(income, e2), SavingsRate(income, e1));
  }

  /** Income 1000, expenses 950 and a limit of 900: rate 5%, base 40, penalised to 20, Critical. */
  lemma OverspentExample()
    ensures var h := CalculateFinancialHealth(1000, 950, 900);
            h.savings == 50 && h.savingsRate == 5 && h.score == 20 && h.status == Critical
  {
    assert SavingsRate(1000, 950) == 5.0;
    MathRoundInteger(5);
  }

  /** Income 1000, expenses 500 and no limit: rate 50%, score 100, Excellent. */
  lemma SaverExample()
    ensures var h := CalculateFinancialHealth(1000, 500, 0);
            h.savingsRate == 50 && h.score == 100 && h.status == Excellent
  {
    assert SavingsRate(1000, 500) == 50.0;
    MathRoundInteger(50);
  }
}
