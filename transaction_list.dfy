/**
 * The transaction list: the transactions grouped under their calendar day,
 * the days listed newest first, or the "no activity" message for an empty
 * selection.
 */
module TransactionList {
  import opened Seqs
  import opened Records
  import opened JsText
  import opened Types

  datatype ListView =
    | NoActivity
    | Grouped(sortedDates: seq<string>, groups: map<string, seq<Transaction>>)

  /** The `YYYY-MM-DD` key of a transaction's date. */
  function DayKey(t: Transaction): string
  {
    DateKey(t.date)
  }

  /**
   * `transactions.reduce(...)` into a dictionary of arrays keyed by the day:
   * the days in first-seen order, and each day's transactions in list order.
   */
  method GroupByDate(transactions: seq<Transaction>) returns (keys: seq<string>, groups: map<string, seq<Transaction>>)
    ensures keys == KeyOrder(transactions, DayKey) && Distinct(keys)
    ensures forall k :: k in groups <==> k in keys
    ensures forall k :: k in groups ==> groups[k] == KeyGroup(transactions, DayKey, k)
    ensures SumOver(keys, groups, Length<Transaction>) == |transactions|
  {
    keys, groups := GroupBy(transactions, DayKey);
    GroupSizes(transactions, DayKey, groups);
  }

  /** Each transaction is in the group of its own day and in no other. */
  lemma ExactlyOneGroup(transactions: seq<Transaction>, groups: map<string, seq<Transaction>>, t: Transaction)
    requires forall k :: k in groups ==> groups[k] == KeyGroup(transactions, DayKey, k)
    requires t in transactions && DayKey(t) in groups
    ensures t in groups[DayKey(t)]
    ensures forall k :: k in groups && t in groups[k] ==> k == DayKey(t)
  {
    KeyGroupMembers(transactions, DayKey, DayKey(t), t);
    forall k | k in groups && t in groups[k]
      ensures k == DayKey(t)
    {
      KeyGroupMembers(transactions, DayKey, k, t);
    }
  }

  /** A day's group lists its transactions in the order of the list. */
  lemma GroupKeepsOrder(transactions: seq<Transaction>, k: string)
    ensures IsSubsequence(KeyGroup(transactions, DayKey, k), transactions)
  {
    KeyGroupIsFilter(transactions, DayKey, k);
  }

  /** Every day with a transaction has a group. */
  lemma EveryDayGrouped(transactions: seq<Transaction>, keys: seq<string>, t: Transaction)
    requires keys == KeyOrder(transactions, DayKey)
    requires t in transactions
    ensures DayKey(t) in keys
  {
    var i :| 0 <= i < |transactions| && transactions[i] == t;
    KeyOrderMembers(transactions, DayKey, DayKey(t));
  }

  /**
   * The list component: the message for an empty selection, otherwise the
   * groups with their days sorted by `b.localeCompare(a)`, newest first.
   */
  method ListTransactions(transactions: seq<Transaction>) returns (view: ListView)
    ensures view.NoActivity? <==> transactions == []
    ensures view.Grouped? ==> multiset(view.sortedDates) == multiset(KeyOrder(transactions, DayKey))
    ensures view.Grouped? ==> StrictlyDescending(view.sortedDates)
    ensures view.Grouped? ==> forall k :: k in view.groups <==> k in view.sortedDates
    ensures view.Grouped? ==> forall k :: k in view.groups ==> view.groups[k] == KeyGroup(transactions, DayKey, k)
  {
    if |transactions| == 0 {
      return NoActivity;
    }
    var keys, groups := GroupByDate(transactions);
    var sortedDates := SortStringsDesc(keys);
    assert forall k :: k in sortedDates <==> k in keys by {
      forall k ensures k in sortedDates <==> k in keys {
        assert k in multiset(sortedDates) <==> k in multiset(keys);
      }
    }
    view := Grouped(sortedDates, groups);
  }
}
