/**
 * The rule-based insight engine: from the month's income, expenses, budget
 * limit, ranked category breakdown and, optionally, the previous month's
 * figures, it collects warnings, recommendations, a risk level and a summary.
 * Messages are constructors (the overage travels as a field); the result
 * carries the summary as its fragments, and `SummaryText` is the string
 * the engine returns, the fragments' texts joined with single spaces.
 */
module FinancialAnalyzer {
  import opened Wrappers
  import opened JsText
  import opened Types

  datatype RiskLevel = Low | Medium | High

  datatype CategoryData = CategoryData(category: string, totalAmount: int, percentage: int)

  datatype PreviousMonth = PreviousMonth(income: int, expenses: int)

  datatype Warning =
    | BelowSavingsThreshold
    | BudgetExceeded(overage: int)
    | ApproachingLimit
    | SavingsDecreased

  datatype Recommendation =
    | HighConcentration(category: string)
    | ImmediateAction
    | GrowSurplus

  datatype Fragment = ExcellentSaver | SteadySaver | GreatProgress | KeepTracking

  datatype InsightResult = InsightResult(summary: seq<Fragment>, warnings: seq<Warning>,
                                         recommendations: seq<Recommendation>, riskLevel: RiskLevel)

  function FragmentText(f: Fragment): string
  {
    match f
    case ExcellentSaver => "You're doing an incredible job saving over 30% of your income!"
    case SteadySaver => "Your savings rate is steady and healthy."
    case GreatProgress => "Great progress! You saved more this month compared to last month."
    case KeepTracking => "Keep tracking to see month-over-month growth trends."
  }

  function Texts(fs: seq<Fragment>): (r: seq<string>)
    ensures |r| == |fs|
    ensures forall i :: 0 <= i < |fs| ==> r[i] == FragmentText(fs[i])
  {
    seq(|fs|, i requires 0 <= i < |fs| => FragmentText(fs[i]))
  }

  /**
   * `summaryParts.join(' ')`: empty without fragments, one fragment's text
   * alone, and the texts of two fragments with one space between them.
   */
  function SummaryText(fs: seq<Fragment>): (s: string)
    ensures fs == [] ==> s == ""
    ensures |fs| == 1 ==> s == FragmentText(fs[0])
    ensures |fs| == 2 ==> s == FragmentText(fs[0]) + " " + FragmentText(fs[1])
    ensures fs != [] ==> |FragmentText(fs[0])| <= |s| && s[..|FragmentText(fs[0])|] == FragmentText(fs[0])
  {
    var parts := Texts(fs);
    JoinSpaceShape(parts);
    if parts == [] then JoinSpace(parts)
    else
      JoinSpaceShape(parts[1..]);
      JoinSpace(parts)
  }

  /** The rule a warning comes from: savings rate, budget, history. */
  function WarningRank(w: Warning): nat
  {
    match w
    case BelowSavingsThreshold => 0
    case BudgetExceeded(_) => 1
    case ApproachingLimit => 1
    case SavingsDecreased => 2
  }

  /** The rule a recommendation comes from: category, risk, surplus. */
  function RecommendationRank(r: Recommendation): nat
  {
    match r
    case HighConcentration(_) => 0
    case ImmediateAction => 1
    case GrowSurplus => 2
  }

  /** The rule a summary fragment comes from: savings rate, then history. */
  function FragmentRank(f: Fragment): nat
  {
    match f
    case ExcellentSaver => 0
    case SteadySaver => 0
    case GreatProgress => 1
    case KeepTracking => 1
  }

  /** Each message comes from a later rule than the one before it. */
  predicate InRuleOrder<T>(s: seq<T>, rank: T -> nat)
  {
    forall i, j :: 0 <= i < j < |s| ==> rank(s[i]) < rank(s[j])
  }

  /** At most one message from each of three rules, taken in rule order, are in rule order. */
  lemma PartsInRuleOrder<T>(a: seq<T>, b: seq<T>, c: seq<T>, rank: T -> nat)
    requires |a| <= 1 && |b| <= 1 && |c| <= 1
    requires forall x, y :: x in a && y in b ==> rank(x) < rank(y)
    requires forall x, y :: x in a && y in c ==> rank(x) < rank(y)
    requires forall x, y :: x in b && y in c ==> rank(x) < rank(y)
    ensures InRuleOrder(a + b + c, rank)
  {
    var s := a + b + c;
    forall i, j | 0 <= i < j < |s|
      ensures rank(s[i]) < rank(s[j])
    {
      if i < |a| {
        assert s[i] == a[i];
        if j < |a| + |b| {
          assert s[j] == b[j - |a|];
        } else {
          assert s[j] == c[j - |a| - |b|];
        }
      } else {
        assert s[i] == b[i - |a|];
        assert s[j] == c[j - |a| - |b|];
      }
    }
  }

  /** Budget usage in percent, 0 when no limit is set. */
  function BudgetUsage(expenses: int, budgetLimit: int): (u: real)
    ensures budgetLimit <= 0 ==> u == 0.0
    ensures budgetLimit > 0 ==> u * budgetLimit as real == expenses as real * 100.0
  {
    if budgetLimit > 0 then expenses as real / budgetLimit as real * 100.0 else 0.0
  }

  /** Usage above 90% is spending above nine tenths of the limit. */
  lemma UsageAbove(expenses: int, budgetLimit: int)
    requires budgetLimit > 0
    ensures BudgetUsage(expenses, budgetLimit) > 90.0 <==> expenses * 10 > budgetLimit * 9
  {
    var u := BudgetUsage(expenses, budgetLimit);
    ScaledAbove(u, budgetLimit as real, expenses as real * 100.0, 90.0);
  }

  /** The risk level the budget rule settles on. */
  function Risk(expenses: int, budgetLimit: int): (risk: RiskLevel)
    ensures risk == High <==> budgetLimit > 0 && expenses > budgetLimit
    ensures risk == Medium <==> budgetLimit > 0 && expenses <= budgetLimit && expenses * 10 > budgetLimit * 9
    ensures budgetLimit <= 0 ==> risk == Low
  {
    if budgetLimit > 0 && expenses > budgetLimit then High
    else if budgetLimit > 0 && BudgetUsage(expenses, budgetLimit) > 90.0 then
      UsageAbove(expenses, budgetLimit);
      Medium
    else
      if budgetLimit > 0 then UsageAbove(expenses, budgetLimit); Low else Low
  }

  /** Savings grew since the previous month. */
  predicate SavedMore(income: int, expenses: int, previous: PreviousMonth)
  {
    income - expenses > previous.income - previous.expenses
  }

  /** Savings fell since the previous month. */
  predicate SavedLess(income: int, expenses: int, previous: PreviousMonth)
  {
    income - expenses < previous.income - previous.expenses
  }

  // ------------------------------------------------ each rule's messages

  /** Rule 1's summary part. */
  function RateFragments(rate: real): (fs: seq<Fragment>)
    ensures |fs| <= 1 && forall f :: f in fs ==> FragmentRank(f) == 0
  {
    if rate < 10.0 then [] else if rate >= 30.0 then [ExcellentSaver] else [SteadySaver]
  }

  /** Rule 4's summary part. */
  function HistoryFragments(income: int, expenses: int, previous: Option<PreviousMonth>): (fs: seq<Fragment>)
    ensures |fs| <= 1 && forall f :: f in fs ==> FragmentRank(f) == 1
  {
    if previous.Some? then (if SavedMore(income, expenses, previous.value) then [GreatProgress] else [])
    else [KeepTracking]
  }

  /** Rule 1's warning. */
  function RateWarnings(rate: real): (ws: seq<Warning>)
    ensures |ws| <= 1 && forall w :: w in ws ==> WarningRank(w) == 0
  {
    if rate < 10.0 then [BelowSavingsThreshold] else []
  }

  /** Rule 2's warning. */
  function BudgetWarnings(expenses: int, budgetLimit: int): (ws: seq<Warning>)
    ensures |ws| <= 1 && forall w :: w in ws ==> WarningRank(w) == 1
    ensures ws == match Risk(expenses, budgetLimit)
                  case High => [BudgetExceeded(expenses - budgetLimit)]
                  case Medium => [ApproachingLimit]
                  case Low => []
  {
    if budgetLimit > 0 && expenses > budgetLimit then [BudgetExceeded(expenses - budgetLimit)]
    else if budgetLimit > 0 && BudgetUsage(expenses, budgetLimit) > 90.0 then [ApproachingLimit]
    else []
  }

  /** Rule 4's warning. */
  function HistoryWarnings(income: int, expenses: int, previous: Option<PreviousMonth>): (ws: seq<Warning>)
    ensures |ws| <= 1 && forall w :: w in ws ==> WarningRank(w) == 2
  {
    if previous.Some? then
      (if SavedMore(income, expenses, previous.value) then []
       else if SavedLess(income, expenses, previous.value) && SavingsRate(income, expenses) < 20.0
       then [SavingsDecreased]
       else [])
    else []
  }

  /** Rule 3's recommendation. */
  function CategoryRecommendations(breakdown: seq<CategoryData>): (rs: seq<Recommendation>)
    ensures |rs| <= 1 && forall r :: r in rs ==> RecommendationRank(r) == 0
  {
    if |breakdown| > 0 && breakdown[0].percentage > 50 then [HighConcentration(breakdown[0].category)] else []
  }

  /** Rule 5's first recommendation. */
  function RiskRecommendations(risk: RiskLevel): (rs: seq<Recommendation>)
    ensures |rs| <= 1 && forall r :: r in rs ==> RecommendationRank(r) == 1
  {
    if risk == High then [ImmediateAction] else []
  }

  /** Rule 5's second recommendation. */
  function SurplusRecommendations(rate: real, risk: RiskLevel): (rs: seq<Recommendation>)
    ensures |rs| <= 1 && forall r :: r in rs ==> RecommendationRank(r) == 2
  {
    if rate >= 20.0 && risk == Low then [GrowSurplus] else []
  }

  // ------------------------------------------------- what the engine gives

  /**
   * The summary fragments the rules contribute, in rule order: one for the
   * savings rate unless it is below 10%, then one for the comparison with
   * the previous month when there is none or savings grew.
   */
  function SummaryFragments(income: int, expenses: int, previous: Option<PreviousMonth>): (fs: seq<Fragment>)
    ensures var rate := SavingsRate(income, expenses);
            && (ExcellentSaver in fs <==> rate >= 30.0)
            && (SteadySaver in fs <==> 10.0 <= rate < 30.0)
            && (KeepTracking in fs <==> previous.None?)
            && (GreatProgress in fs <==> previous.Some? && SavedMore(income, expenses, previous.value))
    ensures InRuleOrder(fs, FragmentRank)
    ensures |fs| <= 2
  {
    var a, b := RateFragments(SavingsRate(income, expenses)), HistoryFragments(income, expenses, previous);
    PartsInRuleOrder(a, b, [], FragmentRank);
    assert a + b + [] == a + b;
    a + b
  }

  /**
   * The warnings the rules raise, in rule order: a low savings rate, the
   * budget (exceeded, with the overage, or nearly used up), falling savings.
   */
  function Warnings(income: int, expenses: int, budgetLimit: int, previous: Option<PreviousMonth>)
    : (ws: seq<Warning>)
    ensures BelowSavingsThreshold in ws <==> SavingsRate(income, expenses) < 10.0
    ensures Risk(expenses, budgetLimit) == High ==> BudgetExceeded(expenses - budgetLimit) in ws
    ensures forall w :: w in ws && w.BudgetExceeded? ==>
              Risk(expenses, budgetLimit) == High && w.overage == expenses - budgetLimit
    ensures ApproachingLimit in ws <==> Risk(expenses, budgetLimit) == Medium
    ensures SavingsDecreased in ws <==>
              && previous.Some? && SavedLess(income, expenses, previous.value)
              && SavingsRate(income, expenses) < 20.0
    ensures InRuleOrder(ws, WarningRank) && |ws| <= 3
  {
    var a := RateWarnings(SavingsRate(income, expenses));
    var b := BudgetWarnings(expenses, budgetLimit);
    var c := HistoryWarnings(income, expenses, previous);
    PartsInRuleOrder(a, b, c, WarningRank);
    a + b + c
  }

  /**
   * The recommendations, in rule order: the top category when it holds more
   * than half of the spending, immediate action at high risk, and growing
   * the surplus at a savings rate of 20% or more with low risk.
   */
  function Recommendations(income: int, expenses: int, budgetLimit: int, breakdown: seq<CategoryData>)
    : (rs: seq<Recommendation>)
    ensures forall c :: HighConcentration(c) in rs <==>
              |breakdown| > 0 && breakdown[0].percentage > 50 && c == breakdown[0].category
    ensures ImmediateAction in rs <==> Risk(expenses, budgetLimit) == High
    ensures GrowSurplus in rs <==> SavingsRate(income, expenses) >= 20.0 && Risk(expenses, budgetLimit) == Low
    ensures !(ImmediateAction in rs && GrowSurplus in rs)
    ensures InRuleOrder(rs, RecommendationRank) && |rs| <= 2
  {
    var risk := Risk(expenses, budgetLimit);
    var a := CategoryRecommendations(breakdown);
    var b := RiskRecommendations(risk);
    var c := SurplusRecommendations(SavingsRate(income, expenses), risk);
    PartsInRuleOrder(a, b, c, RecommendationRank);
    assert |b| + |c| <= 1;
    a + b + c
  }

  /** The three lists are the rules' contributions, concatenated in rule order. */
  lemma InsightParts(income: int, expenses: int, budgetLimit: int, breakdown: seq<CategoryData>,
                     previous: Option<PreviousMonth>)
    ensures var rate := SavingsRate(income, expenses);
            SummaryFragments(income, expenses, previous) == RateFragments(rate) + HistoryFragments(income, expenses, previous)
    ensures var rate := SavingsRate(income, expenses);
            Warnings(income, expenses, budgetLimit, previous)
            == RateWarnings(rate) + BudgetWarnings(expenses, budgetLimit) + HistoryWarnings(income, expenses, previous)
    ensures var rate, risk := SavingsRate(income, expenses), Risk(expenses, budgetLimit);
            Recommendations(income, expenses, budgetLimit, breakdown)
            == CategoryRecommendations(breakdown) + RiskRecommendations(risk) + SurplusRecommendations(rate, risk)
  {
  }

  /** Without a limit the budget rule is skipped: the risk stays Low and no budget warning appears. */
  lemma NoLimitNoBudgetRule(income: int, expenses: int, previous: Option<PreviousMonth>)
    ensures Risk(expenses, 0) == Low
    ensures forall w :: w in Warnings(income, expenses, 0, previous) ==> !w.BudgetExceeded? && w != ApproachingLimit
    ensures ImmediateAction !in Recommendations(income, expenses, 0, [])
  {
  }

  /** The concentration rule is strict: a top share of 51% recommends, 50% does not. */
  lemma ConcentrationBoundary(income: int, expenses: int, budgetLimit: int, c: string, total: int)
    ensures HighConcentration(c) in Recommendations(income, expenses, budgetLimit, [CategoryData(c, total, 51)])
    ensures HighConcentration(c) !in Recommendations(income, expenses, budgetLimit, [CategoryData(c, total, 50)])
  {
  }

  /**
   * `generateFinancialInsights`: the rules run in order, each appending to
   * the warnings, recommendations or summary parts and possibly raising
   * the risk level.
   */
  method GenerateFinancialInsights(income: int, expenses: int, budgetLimit: int,
                                   categoryBreakdown: seq<CategoryData>,
                                   previousMonthData: Option<PreviousMonth>)
    returns (r: InsightResult)
    ensures r.riskLevel == Risk(expenses, budgetLimit)
    ensures r.warnings == Warnings(income, expenses, budgetLimit, previousMonthData)
    ensures r.recommendations == Recommendations(income, expenses, budgetLimit, categoryBreakdown)
    ensures r.summary == SummaryFragments(income, expenses, previousMonthData)
  {
    var savings := income - expenses;
    var savingsRate := SavingsRate(income, expenses);
    var budgetUsage := BudgetUsage(expenses, budgetLimit);

    var warnings: seq<Warning> := [];
    var recommendations: seq<Recommendation> := [];
    var riskLevel := Low;
    var summaryParts: seq<Fragment> := [];

    // 1. savings rate
    if savingsRate < 10.0 {
      warnings := warnings + [BelowSavingsThreshold];
    } else if savingsRate >= 30.0 {
      summaryParts := summaryParts + [ExcellentSaver];
    } else {
      summaryParts := summaryParts + [SteadySaver];
    }
    assert warnings == RateWarnings(savingsRate);
    assert summaryParts == RateFragments(savingsRate);

    // 2. budget usage and risk
    ghost var w1 := warnings;
    if budgetLimit > 0 {
      if expenses > budgetLimit {
        riskLevel := High;
        warnings := warnings + [BudgetExceeded(expenses - budgetLimit)];
      } else if budgetUsage > 90.0 {
        riskLevel := Medium;
        warnings := warnings + [ApproachingLimit];
      }
    }
    assert riskLevel == Risk(expenses, budgetLimit);
    assert warnings == w1 + BudgetWarnings(expenses, budgetLimit);

    // 3. category concentration
    if |categoryBreakdown| > 0 && categoryBreakdown[0].percentage > 50 {
      recommendations := recommendations + [HighConcentration(categoryBreakdown[0].category)];
    }
    assert recommendations == CategoryRecommendations(categoryBreakdown);

    // 4. comparison with the previous month
    ghost var w2, f1 := warnings, summaryParts;
    if previousMonthData.Some? {
      var prevSavings := previousMonthData.value.income - previousMonthData.value.expenses;
      if savings > prevSavings {
        summaryParts := summaryParts + [GreatProgress];
      } else if savings < prevSavings && savingsRate < 20.0 {
        warnings := warnings + [SavingsDecreased];
      }
    } else {
      summaryParts := summaryParts + [KeepTracking];
    }
    assert warnings == w2 + HistoryWarnings(income, expenses, previousMonthData);
    assert summaryParts == f1 + HistoryFragments(income, expenses, previousMonthData);

    // 5. general recommendations
    ghost var r1 := recommendations;
    if riskLevel == High {
      recommendations := recommendations + [ImmediateAction];
    }
    assert recommendations == r1 + RiskRecommendations(riskLevel);
    ghost var r2 := recommendations;
    if savingsRate >= 20.0 && riskLevel == Low {
      recommendations := recommendations + [GrowSurplus];
    }
    assert recommendations == r2 + SurplusRecommendations(savingsRate, riskLevel);

    InsightParts(income, expenses, budgetLimit, categoryBreakdown, previousMonthData);
    r := InsightResult(summaryParts, warnings, recommendations, riskLevel);
  }
}
