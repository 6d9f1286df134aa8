/**
 * The category breakdown: the positive expenses of a month grouped by
 * category, each group with its total, its rounded share of all spending
 * and its display colours, largest group first.
 */
module CategoryBreakdown {
  import opened Seqs
  import opened Records
  import opened Types

  datatype Config = Config(color: string, tailwind: string)

  datatype BreakdownItem = BreakdownItem(category: string, totalAmount: int, percentage: int,
                                         color: string, tailwindColor: string)

  const CategoryConfig: map<string, Config> := map[
    "Food" := Config("#f59e0b", "bg-amber-500"),
    "Transport" := Config("#3b82f6", "bg-blue-500"),
    "Rent" := Config("#6366f1", "bg-indigo-500"),
    "Shopping" := Config("#ec4899", "bg-pink-500"),
    "Entertainment" := Config("#a855f7", "bg-purple-500"),
    "Health" := Config("#10b981", "bg-emerald-500"),
    "Utilities" := Config("#06b6d4", "bg-cyan-500"),
    "Other" := Config("#64748b", "bg-slate-500")
  ]

  /** The colours of a category; a category without its own entry gets those of "Other". */
  function ConfigFor(category: string): (c: Config)
    ensures category in CategoryConfig ==> c == CategoryConfig[category]
    ensures category !in CategoryConfig ==> c == Config("#64748b", "bg-slate-500")
  {
    if category in CategoryConfig then CategoryConfig[category] else CategoryConfig["Other"]
  }

  /** Only expenses with a positive amount enter the breakdown. */
  predicate Qualifies(t: Transaction)
  {
    t.kind == Expense && t.amount > 0
  }

  /** A transaction without a category is counted under "Other". */
  function CategoryOf(t: Transaction): (c: string)
    ensures c != ""
    ensures t.category != "" ==> c == t.category
  {
    if t.category == "" then "Other" else t.category
  }

  function TotalAmountOf(item: BreakdownItem): int
  {
    item.totalAmount
  }

  /** p is part / whole * 100 rounded to the nearest integer, halves up. */
  predicate RoundedPercent(p: int, part: int, whole: int)
  {
    (p as real - 0.5) * whole as real <= part as real * 100.0 < (p as real + 0.5) * whole as real
  }

  /** `Math.round(part / whole * 100)` is the rounded percentage of part in whole. */
  lemma RoundedShare(part: int, whole: int)
    requires whole > 0
    ensures RoundedPercent(MathRound(part as real / whole as real * 100.0), part, whole)
  {
    var l := whole as real;
    var share := part as real / l * 100.0;
    var p := MathRound(share) as real;
    assert share * l == part as real * 100.0;
    MulAtMost(p - 0.5, share, l);
    MulLess(share, p + 0.5, l);
  }

  /** The rounded percentage of a part of the whole lies in [0, 100]. */
  lemma ShareBounds(part: int, whole: int)
    requires whole > 0
    ensures 0 <= part <= whole ==> 0 <= MathRound(part as real / whole as real * 100.0) <= 100
  {
    if part < 0 || part > whole {
      return;
    }
    var l := whole as real;
    var share := part as real / l * 100.0;
    assert share * l == part as real * 100.0;
    ScaledAtLeast(share, l, part as real * 100.0, 0.0);
    ScaledAtLeast(share, l, part as real * 100.0, 100.0);
    assert 0.0 <= share;
    assert share <= 100.0 by {
      if share > 100.0 {
        ScaledAbove(share, l, part as real * 100.0, 100.0);
      }
    }
    MathRoundMonotone(0.0, share);
    MathRoundMonotone(share, 100.0);
    MathRoundInteger(0);
    MathRoundInteger(100);
  }

  /** One entry `[category, totalAmount]` mapped to its breakdown item. */
  function ItemOf(category: string, totalAmount: int, totalExpense: int): (item: BreakdownItem)
    requires totalExpense > 0
    ensures item.category == category && item.totalAmount == totalAmount
    ensures RoundedPercent(item.percentage, totalAmount, totalExpense)
    ensures 0 <= totalAmount <= totalExpense ==> 0 <= item.percentage <= 100
    ensures item.color == ConfigFor(category).color && item.tailwindColor == ConfigFor(category).tailwind
  {
    var config := ConfigFor(category);
    RoundedShare(totalAmount, totalExpense);
    ShareBounds(totalAmount, totalExpense);
    BreakdownItem(category, totalAmount, MathRound(totalAmount as real / totalExpense as real * 100.0),
                  config.color, config.tailwind)
  }

  /** `Object.entries(categoriesMap).map(...)`: one item per key, in key order. */
  function Entries(keys: seq<string>, totals: map<string, int>, totalExpense: int): (items: seq<BreakdownItem>)
    requires totalExpense > 0
    requires forall k :: k in keys ==> k in totals
    ensures |items| == |keys|
    ensures forall i :: 0 <= i < |keys| ==> items[i] == ItemOf(keys[i], totals[keys[i]], totalExpense)
    ensures Total(items, TotalAmountOf) == SumOver(keys, totals, Id)
  {
    if keys == [] then []
    else
      var front := Entries(DropLast(keys), totals, totalExpense);
      var item := ItemOf(Last(keys), totals[Last(keys)], totalExpense);
      TotalStep(front, item, TotalAmountOf);
      front + [item]
  }

  lemma {:induction false} TotalOfPositive(xs: seq<Transaction>)
    requires forall i :: 0 <= i < |xs| ==> xs[i].amount > 0
    ensures |xs| > 0 ==> Total(xs, AmountOf) > 0
    ensures Total(xs, AmountOf) >= 0
  {
    if xs != [] {
      var front := DropLast(xs);
      assert forall i :: 0 <= i < |front| ==> front[i] == xs[i];
      TotalOfPositive(front);
    }
  }

  /**
   * Every item of a reordering of the entries is the item of one of the
   * keys, and no category appears twice.
   */
  lemma ItemsOfKeys(keys: seq<string>, totals: map<string, int>, totalExpense: int, items: seq<BreakdownItem>)
    requires totalExpense > 0
    requires Distinct(keys) && forall k :: k in keys ==> k in totals
    requires multiset(items) == multiset(Entries(keys, totals, totalExpense))
    ensures forall i :: 0 <= i < |items| ==>
              items[i].category in keys
              && items[i] == ItemOf(items[i].category, totals[items[i].category], totalExpense)
    ensures forall k :: k in keys ==> exists i :: 0 <= i < |items| && items[i].category == k
    ensures forall i, j :: 0 <= i < j < |items| ==> items[i].category != items[j].category
  {
    ItemsAreKeyItems(keys, totals, totalExpense, items);
    EveryKeyHasItem(keys, totals, totalExpense, items);
    ItemCategoriesDistinct(keys, totals, totalExpense, items);
  }

  /** Each item of a reordering of the entries is the item of one of the keys. */
  lemma ItemsAreKeyItems(keys: seq<string>, totals: map<string, int>, totalExpense: int, items: seq<BreakdownItem>)
    requires totalExpense > 0
    requires forall k :: k in keys ==> k in totals
    requires multiset(items) == multiset(Entries(keys, totals, totalExpense))
    ensures forall i :: 0 <= i < |items| ==>
              items[i].category in keys
              && items[i] == ItemOf(items[i].category, totals[items[i].category], totalExpense)
  {
    var entries := Entries(keys, totals, totalExpense);
    forall i | 0 <= i < |items|
      ensures items[i].category in keys
      ensures items[i] == ItemOf(items[i].category, totals[items[i].category], totalExpense)
    {
      assert items[i] in multiset(entries);
      var k :| 0 <= k < |entries| && entries[k] == items[i];
    }
  }

  /** Every key keeps an item in a reordering of the entries. */
  lemma EveryKeyHasItem(keys: seq<string>, totals: map<string, int>, totalExpense: int, items: seq<BreakdownItem>)
    requires totalExpense > 0
    requires forall k :: k in keys ==> k in totals
    requires multiset(items) == multiset(Entries(keys, totals, totalExpense))
    ensures forall k :: k in keys ==> exists i :: 0 <= i < |items| && items[i].category == k
  {
    var entries := Entries(keys, totals, totalExpense);
    forall k | k in keys
      ensures exists i :: 0 <= i < |items| && items[i].category == k
    {
      var n :| 0 <= n < |keys| && keys[n] == k;
      assert entries[n] in multiset(items);
      var i :| 0 <= i < |items| && items[i] == entries[n];
    }
  }

  /** Distinct keys give items of distinct categories, in any order. */
  lemma ItemCategoriesDistinct(keys: seq<string>, totals: map<string, int>, totalExpense: int, items: seq<BreakdownItem>)
    requires totalExpense > 0
    requires Distinct(keys) && forall k :: k in keys ==> k in totals
    requires multiset(items) == multiset(Entries(keys, totals, totalExpense))
    ensures forall i, j :: 0 <= i < j < |items| ==> items[i].category != items[j].category
  {
    var entries := Entries(keys, totals, totalExpense);
    assert Distinct(entries) by {
      forall i, j | 0 <= i < j < |entries| ensures entries[i] != entries[j] {
        assert entries[i].category == keys[i] && entries[j].category == keys[j];
      }
    }
    DistinctPermutation(entries, items);
    ItemsAreKeyItems(keys, totals, totalExpense, items);
  }

  /**
   * What the breakdown of a month's transactions is: one item per category of
   * the positive expenses, holding that category's total, its rounded share
   * of all positive expenses and its colours, largest total first.
   */
  function ItemCategories(items: seq<BreakdownItem>): set<string>
  {
    set i | 0 <= i < |items| :: items[i].category
  }

  function QualifyingCategories(transactions: seq<Transaction>): set<string>
  {
    set t | t in transactions && Qualifies(t) :: CategoryOf(t)
  }

  ghost predicate IsBreakdown(transactions: seq<Transaction>, items: seq<BreakdownItem>)
  {
    && (items == [] <==> forall t :: t in transactions ==> !Qualifies(t))
    && SortedDesc(items, TotalAmountOf)
    && (forall i, j :: 0 <= i < j < |items| ==> items[i].category != items[j].category)
    // the items' categories are exactly those of the qualifying transactions
    && ItemCategories(items) == QualifyingCategories(transactions)
    // totals, shares and colours
    && (forall i :: 0 <= i < |items| ==>
          items[i].totalAmount == KeySum(Filter(transactions, Qualifies), CategoryOf, AmountOf, items[i].category))
    && Total(items, TotalAmountOf) == Total(Filter(transactions, Qualifies), AmountOf)
    && (forall i :: 0 <= i < |items| ==>
          && RoundedPercent(items[i].percentage, items[i].totalAmount, Total(Filter(transactions, Qualifies), AmountOf))
          && 0 <= items[i].percentage <= 100)
    && (forall i :: 0 <= i < |items| ==>
          items[i].color == ConfigFor(items[i].category).color
          && items[i].tailwindColor == ConfigFor(items[i].category).tailwind)
  }

  /**
   * `calculateCategoryBreakdown(transactions)`: keep the positive expenses,
   * add each amount to the running total of its category (`forEach` on a
   * dictionary), turn the entries into items and sort them by total,
   * largest first.
   */
  method CalculateCategoryBreakdown(transactions: seq<Transaction>) returns (items: seq<BreakdownItem>)
    ensures IsBreakdown(transactions, items)
  {
    var expenses := Filter(transactions, Qualifies);
    if |expenses| == 0 {
      NoBreakdown(transactions);
      return [];
    }
    QualifyingFacts(transactions, expenses);
    var totalExpense := Total(expenses, AmountOf);
    TotalOfPositive(expenses);

    var keys, totals := Accumulate(expenses, CategoryOf, AmountOf);

    var entries := Entries(keys, totals, totalExpense);
    items := SortDesc(entries, TotalAmountOf);

    BreakdownFacts(transactions, expenses, keys, totals, totalExpense, items);
  }

  /** Without a positive expense the breakdown is empty. */
  lemma NoBreakdown(transactions: seq<Transaction>)
    requires Filter(transactions, Qualifies) == []
    ensures IsBreakdown(transactions, [])
  {
  }

  /** The breakdown's promises, from the facts its steps establish. */
  lemma BreakdownFacts(transactions: seq<Transaction>, expenses: seq<Transaction>, keys: seq<string>,
                       totals: map<string, int>, totalExpense: int, items: seq<BreakdownItem>)
    requires expenses == Filter(transactions, Qualifies) && |expenses| > 0
    requires forall i :: 0 <= i < |expenses| ==> expenses[i] in transactions && Qualifies(expenses[i])
    requires forall t :: t in transactions && Qualifies(t) ==> t in expenses
    requires totalExpense == Total(expenses, AmountOf) && totalExpense > 0
    requires keys == KeyOrder(expenses, CategoryOf)
    requires forall k :: k in totals <==> k in keys
    requires forall k :: k in totals ==> totals[k] == KeySum(expenses, CategoryOf, AmountOf, k)
    requires SumOver(keys, totals, Id) == Total(expenses, AmountOf)
    requires multiset(items) == multiset(Entries(keys, totals, totalExpense))
    requires SortedDesc(items, TotalAmountOf)
    ensures IsBreakdown(transactions, items)
  {
    ItemsOfKeys(keys, totals, totalExpense, items);
    assert items != [] by {
      assert expenses[0] in transactions && Qualifies(expenses[0]);
      ItemsCoverQualifying(transactions, expenses, keys, items);
    }
    assert Total(items, TotalAmountOf) == totalExpense by {
      TotalPermutation(Entries(keys, totals, totalExpense), items, TotalAmountOf);
    }
    CategoriesMatch(transactions, expenses, keys, items);
    TotalsWithinTotal(expenses, totals, totalExpense);
    ItemShares(keys, totals, totalExpense, items);
  }

  /** The elements of the filtered list are exactly the qualifying transactions. */
  lemma QualifyingFacts(transactions: seq<Transaction>, expenses: seq<Transaction>)
    requires expenses == Filter(transactions, Qualifies)
    ensures forall i :: 0 <= i < |expenses| ==> expenses[i] in transactions && Qualifies(expenses[i])
    ensures forall t :: t in transactions && Qualifies(t) ==> t in expenses
  {
    forall i | 0 <= i < |expenses|
      ensures expenses[i] in transactions && Qualifies(expenses[i])
    {
      assert expenses[i] in expenses;
    }
  }

  lemma ItemsCoverQualifying(transactions: seq<Transaction>, expenses: seq<Transaction>,
                             keys: seq<string>, items: seq<BreakdownItem>)
    requires keys == KeyOrder(expenses, CategoryOf)
    requires forall t :: t in transactions && Qualifies(t) ==> t in expenses
    requires forall k :: k in keys ==> exists i :: 0 <= i < |items| && items[i].category == k
    ensures forall t :: t in transactions && Qualifies(t) ==>
              exists i :: 0 <= i < |items| && items[i].category == CategoryOf(t)
  {
    forall t | t in transactions && Qualifies(t)
      ensures exists i :: 0 <= i < |items| && items[i].category == CategoryOf(t)
    {
      var m :| 0 <= m < |expenses| && expenses[m] == t;
      KeyOrderMembers(expenses, CategoryOf, CategoryOf(t));
    }
  }

  lemma ItemsFromQualifying(transactions: seq<Transaction>, expenses: seq<Transaction>,
                            keys: seq<string>, items: seq<BreakdownItem>)
    requires keys == KeyOrder(expenses, CategoryOf)
    requires forall i :: 0 <= i < |expenses| ==> expenses[i] in transactions && Qualifies(expenses[i])
    requires forall i :: 0 <= i < |items| ==> items[i].category in keys
    ensures forall i :: 0 <= i < |items| ==>
              exists t :: t in transactions && Qualifies(t) && CategoryOf(t) == items[i].category
  {
    forall i | 0 <= i < |items|
      ensures exists t :: t in transactions && Qualifies(t) && CategoryOf(t) == items[i].category
    {
      KeyOrderMembers(expenses, CategoryOf, items[i].category);
      var m :| 0 <= m < |expenses| && CategoryOf(expenses[m]) == items[i].category;
      assert expenses[m] in transactions && Qualifies(expenses[m]);
    }
  }

  /** Each item's category is a qualifying transaction's, and the other way round. */
  lemma CategoriesMatch(transactions: seq<Transaction>, expenses: seq<Transaction>,
                        keys: seq<string>, items: seq<BreakdownItem>)
    requires keys == KeyOrder(expenses, CategoryOf)
    requires forall i :: 0 <= i < |expenses| ==> expenses[i] in transactions && Qualifies(expenses[i])
    requires forall t :: t in transactions && Qualifies(t) ==> t in expenses
    requires forall i :: 0 <= i < |items| ==> items[i].category in keys
    requires forall k :: k in keys ==> exists i :: 0 <= i < |items| && items[i].category == k
    ensures ItemCategories(items) == QualifyingCategories(transactions)
  {
    assert ItemCategories(items) <= QualifyingCategories(transactions) by {
      ItemsFromQualifying(transactions, expenses, keys, items);
    }
    assert QualifyingCategories(transactions) <= ItemCategories(items) by {
      ItemsCoverQualifying(transactions, expenses, keys, items);
    }
  }

  /** With only positive amounts, every category total lies between 0 and the total spent. */
  lemma TotalsWithinTotal(expenses: seq<Transaction>, totals: map<string, int>, totalExpense: int)
    requires totalExpense == Total(expenses, AmountOf)
    requires forall i :: 0 <= i < |expenses| ==> expenses[i].amount > 0
    requires forall k :: k in totals ==> totals[k] == KeySum(expenses, CategoryOf, AmountOf, k)
    ensures forall k :: k in totals ==> 0 <= totals[k] <= totalExpense
  {
    assert forall n :: 0 <= n < |expenses| ==> AmountOf(expenses[n]) >= 0;
    forall k | k in totals
      ensures 0 <= totals[k] <= totalExpense
    {
      KeySumBounds(expenses, CategoryOf, AmountOf, k);
    }
  }

  lemma ItemShares(keys: seq<string>, totals: map<string, int>, totalExpense: int, items: seq<BreakdownItem>)
    requires totalExpense > 0
    requires forall k :: k in keys ==> k in totals
    requires forall k :: k in totals ==> 0 <= totals[k] <= totalExpense
    requires forall i :: 0 <= i < |items| ==>
               items[i].category in keys
               && items[i] == ItemOf(items[i].category, totals[items[i].category], totalExpense)
    ensures forall i :: 0 <= i < |items| ==>
              && items[i].totalAmount == totals[items[i].category]
              && RoundedPercent(items[i].percentage, items[i].totalAmount, totalExpense)
              && 0 <= items[i].percentage <= 100
    ensures forall i :: 0 <= i < |items| ==>
              items[i].color == ConfigFor(items[i].category).color
              && items[i].tailwindColor == ConfigFor(items[i].category).tailwind
  {
  }
}
