/**
 * The monthly analysis card: of the month's expenses, the single largest
 * one and the category with the largest total.  Unlike the category
 * breakdown, the totals here are keyed by the raw category, with no "Other"
 * for an empty one.
 */
module SpendingDetails {
  import opened Wrappers
  import opened Seqs
  import opened Records
  import opened Types

  /** One `[category, total]` entry of `Object.entries(catTotals)`. */
  datatype CategoryTotal = CategoryTotal(category: string, total: int)

  datatype Details = Details(highestTransaction: Option<Transaction>,
                             categories: seq<string>, catTotals: map<string, int>,
                             topCategory: Option<CategoryTotal>)

  /** The key `catTotals` uses: the category exactly as stored. */
  function CategoryField(t: Transaction): string
  {
    t.category
  }

  function TotalOf(e: CategoryTotal): int
  {
    e.total
  }

  /** `[...expenses].sort((a, b) => b.amount - a.amount)[0]`, None for undefined. */
  function HighestTransaction(expenses: seq<Transaction>): (r: Option<Transaction>)
    ensures r.None? <==> expenses == []
    ensures r.Some? ==> r.value in expenses
    ensures r.Some? ==> forall t :: t in expenses ==> t.amount <= r.value.amount
  {
    if expenses == [] then None
    else
      SortDescHeadIsMax(expenses, AmountOf);
      Some(SortDesc(expenses, AmountOf)[0])
  }

  /** `Object.entries(catTotals)`, in key order. */
  function EntriesOf(keys: seq<string>, totals: map<string, int>): (es: seq<CategoryTotal>)
    requires forall k :: k in keys ==> k in totals
    ensures |es| == |keys|
    ensures forall i :: 0 <= i < |keys| ==> es[i] == CategoryTotal(keys[i], totals[keys[i]])
  {
    if keys == [] then [] else EntriesOf(DropLast(keys), totals) + [CategoryTotal(Last(keys), totals[Last(keys)])]
  }

  /** `Object.entries(catTotals).sort((a, b) => b[1] - a[1])[0]`, None for undefined. */
  function TopCategory(keys: seq<string>, totals: map<string, int>): (r: Option<CategoryTotal>)
    requires forall k :: k in keys ==> k in totals
    ensures r.None? <==> keys == []
    ensures r.Some? ==> r.value.category in keys && r.value.total == totals[r.value.category]
    ensures r.Some? ==> forall k :: k in keys ==> totals[k] <= r.value.total
  {
    if keys == [] then None
    else
      var entries := EntriesOf(keys, totals);
      SortDescHeadIsMax(entries, TotalOf);
      var top := SortDesc(entries, TotalOf)[0];
      assert forall k :: k in keys ==> CategoryTotal(k, totals[k]) in entries by {
        forall k | k in keys ensures CategoryTotal(k, totals[k]) in entries {
          var i :| 0 <= i < |keys| && keys[i] == k;
          assert entries[i] == CategoryTotal(k, totals[k]);
        }
      }
      Some(top)
  }

  /** Only an empty list has no keys. */
  lemma KeyOrderEmpty<T>(xs: seq<T>, key: T -> string)
    ensures KeyOrder(xs, key) == [] <==> xs == []
  {
    if xs != [] {
      KeyOrderMembers(xs, key, key(xs[0]));
    }
  }

  /**
   * The figures the card shows: None for an empty month, where the card is
   * not drawn.  `catTotals` is filled by the `forEach` over the expenses.
   */
  method CalculateSpendingDetails(transactions: seq<Transaction>) returns (r: Option<Details>)
    ensures r.None? <==> transactions == []
    // the highest expense: a largest expense of the list, absent without expenses
    ensures r.Some? ==> (r.value.highestTransaction.None? <==> forall t :: t in transactions ==> !IsExpense(t))
    ensures r.Some? && r.value.highestTransaction.Some? ==>
              var h := r.value.highestTransaction.value;
              h in transactions && IsExpense(h)
              && forall t :: t in transactions && IsExpense(t) ==> t.amount <= h.amount
    // catTotals: the sum of the expense amounts of each category, keys in first-seen order
    ensures r.Some? ==> r.value.categories == KeyOrder(Filter(transactions, IsExpense), CategoryField)
    ensures r.Some? ==> forall c :: c in r.value.catTotals <==> c in r.value.categories
    ensures r.Some? ==> forall c :: c in r.value.catTotals ==>
              r.value.catTotals[c] == KeySum(Filter(transactions, IsExpense), CategoryField, AmountOf, c)
    // the top category: a category with the largest total, absent without expenses
    ensures r.Some? ==> (r.value.topCategory.None? <==> forall t :: t in transactions ==> !IsExpense(t))
    ensures r.Some? && r.value.topCategory.Some? ==>
              var top := r.value.topCategory.value;
              top.category in r.value.catTotals && top.total == r.value.catTotals[top.category]
              && forall c :: c in r.value.catTotals ==> r.value.catTotals[c] <= top.total
  {
    if |transactions| == 0 {
      return None;
    }
    var expenses := Filter(transactions, IsExpense);
    var highestTransaction := HighestTransaction(expenses);
    var keys, catTotals := Accumulate(expenses, CategoryField, AmountOf);
    var topCategory := TopCategory(keys, catTotals);
    KeyOrderEmpty(expenses, CategoryField);
    assert expenses == [] <==> forall t :: t in transactions ==> !IsExpense(t) by {
      if expenses != [] {
        assert expenses[0] in expenses;
      }
    }
    r := Some(Details(highestTransaction, keys, catTotals, topCategory));
  }
}
