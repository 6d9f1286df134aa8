/**
 * The top-level state of the budget tracker: a store of month data keyed by
 * "YYYY-MM", the month being viewed and the day filter, with the handlers
 * that replace them and the figures derived from the viewed month.
 */
module BudgetApp {
  import opened Wrappers
  import opened Seqs
  import opened Records
  import opened JsText
  import opened Types
  import MonthSelector

  /** `Partial<MonthData>`: the fields an update sets; None leaves a field as it was. */
  datatype MonthUpdate = MonthUpdate(income: Option<int>, budgetLimit: Option<int>,
                                     transactions: Option<seq<Transaction>>)

  const NoUpdate := MonthUpdate(None, None, None)

  /** `store[month] || { income: 0, budgetLimit: 0, transactions: [] }`. */
  function ReadMonth(store: map<string, MonthData>, month: string): (md: MonthData)
    ensures month in store ==> md == store[month]
    ensures month !in store ==> md.income == 0 && md.budgetLimit == 0 && md.transactions == []
  {
    if month in store then store[month] else EmptyMonth
  }

  /** `{ ...base, ...updates }`: each field the update sets replaces the old one. */
  function Merge(base: MonthData, updates: MonthUpdate): (md: MonthData)
    ensures updates.income.None? ==> md.income == base.income
    ensures updates.income.Some? ==> md.income == updates.income.value
    ensures updates.budgetLimit.None? ==> md.budgetLimit == base.budgetLimit
    ensures updates.budgetLimit.Some? ==> md.budgetLimit == updates.budgetLimit.value
    ensures updates.transactions.None? ==> md.transactions == base.transactions
    ensures updates.transactions.Some? ==> md.transactions == updates.transactions.value
  {
    MonthData(if updates.income.Some? then updates.income.value else base.income,
              if updates.budgetLimit.Some? then updates.budgetLimit.value else base.budgetLimit,
              if updates.transactions.Some? then updates.transactions.value else base.transactions)
  }

  /** Spreading u1 and then u2 is spreading the single update in which u2's fields win. */
  function Then(u1: MonthUpdate, u2: MonthUpdate): MonthUpdate
  {
    MonthUpdate(if u2.income.Some? then u2.income else u1.income,
                if u2.budgetLimit.Some? then u2.budgetLimit else u1.budgetLimit,
                if u2.transactions.Some? then u2.transactions else u1.transactions)
  }

  /** An empty update changes nothing, applying an update twice is applying it once, and two updates compose. */
  lemma MergeLaws(base: MonthData, u1: MonthUpdate, u2: MonthUpdate)
    ensures Merge(base, NoUpdate) == base
    ensures Merge(Merge(base, u1), u1) == Merge(base, u1)
    ensures Merge(Merge(base, u1), u2) == Merge(base, Then(u1, u2))
  {
  }

  // ------------------------------------------------------- monthly totals

  /**
   * `monthlyStats`: the income and expense amounts of the month summed
   * separately, their difference, and the month's limit.
   */
  function MonthlyStats(md: MonthData): (s: BudgetStats)
    ensures s.totalIncome == Total(Filter(md.transactions, IsIncome), AmountOf)
    ensures s.totalExpense == Total(Filter(md.transactions, IsExpense), AmountOf)
    ensures s.balance == s.totalIncome - s.totalExpense
    ensures s.budgetLimit == md.budgetLimit
    ensures s.totalIncome + s.totalExpense == Total(md.transactions, AmountOf)
  {
    var income := Total(Filter(md.transactions, IsIncome), AmountOf);
    var expense := Total(Filter(md.transactions, IsExpense), AmountOf);
    IncomeExpenseSplit(md.transactions);
    BudgetStats(income, expense, income - expense, md.budgetLimit)
  }

  /** Every transaction is income or expense, so the two sums make up the whole. */
  lemma {:induction false} IncomeExpenseSplit(txs: seq<Transaction>)
    ensures Total(Filter(txs, IsIncome), AmountOf) + Total(Filter(txs, IsExpense), AmountOf) == Total(txs, AmountOf)
  {
    if txs != [] {
      var t := Last(txs);
      IncomeExpenseSplit(DropLast(txs));
      FilteredTotalStep(txs, IsIncome);
      FilteredTotalStep(txs, IsExpense);
      assert (if IsIncome(t) then t.amount else 0) + (if IsExpense(t) then t.amount else 0) == AmountOf(t);
    }
  }

  /** The last transaction adds its amount to the filtered total exactly when it passes the filter. */
  lemma FilteredTotalStep(xs: seq<Transaction>, p: Transaction -> bool)
    requires xs != []
    ensures Total(Filter(xs, p), AmountOf) == Total(Filter(DropLast(xs), p), AmountOf) + (if p(Last(xs)) then Last(xs).amount else 0)
  {
    var front, t := DropLast(xs), Last(xs);
    if p(t) {
      assert Filter(xs, p) == Filter(front, p) + [t];
      TotalStep(Filter(front, p), t, AmountOf);
    } else {
      assert Filter(xs, p) == Filter(front, p);
    }
  }

  /** A prepended transaction adds its amount to the income or the expense total, and nothing else. */
  lemma StatsOfPrepend(t: Transaction, md: MonthData)
    ensures var s0 := MonthlyStats(md);
            var s1 := MonthlyStats(md.(transactions := [t] + md.transactions));
            && s1.totalIncome == s0.totalIncome + (if IsIncome(t) then t.amount else 0)
            && s1.totalExpense == s0.totalExpense + (if IsExpense(t) then t.amount else 0)
            && s1.budgetLimit == s0.budgetLimit
  {
    var txs := md.transactions;
    FilterAppend([t], txs, IsIncome);
    FilterAppend([t], txs, IsExpense);
    assert DropLast([t]) == [];
    TotalAppend(Filter([t], IsIncome), Filter(txs, IsIncome), AmountOf);
    TotalAppend(Filter([t], IsExpense), Filter(txs, IsExpense), AmountOf);
    assert Total([t], AmountOf) == t.amount by {
      TotalStep([], t, AmountOf);
    }
  }

  // ----------------------------------------------------- list operations

  /**
   * `filteredTransactions`: the whole month without a day filter, otherwise
   * the transactions whose date falls on the selected day of the month, in
   * their order.  A date that does not read as a date matches no day.
   */
  function FilterByDay(txs: seq<Transaction>, selectedDay: Option<int>): (r: seq<Transaction>)
    ensures selectedDay.None? ==> r == txs
    ensures selectedDay.Some? ==> forall t :: t in r <==> t in txs && DayOfMonth(t.date) == selectedDay
    ensures selectedDay.Some? ==> forall t :: multiset(r)[t] == if DayOfMonth(t.date) == selectedDay then multiset(txs)[t] else 0
    ensures IsSubsequence(r, txs)
  {
    if selectedDay.None? then
      SubsequenceOfSelf(txs);
      txs
    else Filter(txs, (t: Transaction) => DayOfMonth(t.date) == selectedDay)
  }

  lemma SubsequenceOfSelf(s: seq<Transaction>)
    ensures IsSubsequence(s, s)
  {
    FilterAll(s, (t: Transaction) => true);
  }

  /** The delete handler's `transactions.filter(t => t.id !== id)`. */
  function RemoveById(txs: seq<Transaction>, id: string): (r: seq<Transaction>)
    ensures forall t :: t in r <==> t in txs && t.id != id
    ensures forall t: Transaction :: t.id != id ==> multiset(r)[t] == multiset(txs)[t]
    ensures IsSubsequence(r, txs)
  {
    Filter(txs, (t: Transaction) => t.id != id)
  }

  /** Deleting an id no transaction carries changes nothing. */
  lemma RemoveAbsentId(txs: seq<Transaction>, id: string)
    requires forall i :: 0 <= i < |txs| ==> txs[i].id != id
    ensures RemoveById(txs, id) == txs
  {
    FilterAll(txs, (t: Transaction) => t.id != id);
  }

  /** Adding a transaction with a fresh id and then deleting it gives back the old list. */
  lemma AddThenRemove(t: Transaction, txs: seq<Transaction>)
    requires forall i :: 0 <= i < |txs| ==> txs[i].id != t.id
    ensures RemoveById([t] + txs, t.id) == txs
  {
    var p := (x: Transaction) => x.id != t.id;
    FilterAppend([t], txs, p);
    assert DropLast([t]) == [];
    RemoveAbsentId(txs, t.id);
  }

  // ------------------------------------------------------ adding a transaction

  /**
   * `selectedDay || (isActualCurrentMonth ? now.getDate() : 1)`: the selected
   * day, else today's day when the viewed month is the month of today, else
   * the first.  (A day of 0 counts as no selection, as `||` reads it.)
   */
  function DayToUse(selectedDay: Option<int>, isActualCurrentMonth: bool, today: int): (d: int)
    ensures selectedDay.Some? && selectedDay.value != 0 ==> d == selectedDay.value
    ensures (selectedDay.None? || selectedDay.value == 0) && isActualCurrentMonth ==> d == today
    ensures (selectedDay.None? || selectedDay.value == 0) && !isActualCurrentMonth ==> d == 1
  {
    if selectedDay.Some? && selectedDay.value != 0 then selectedDay.value
    else if isActualCurrentMonth then today else 1
  }

  /** A "YYYY-MM" month key. */
  predicate IsMonthKey(s: string)
  {
    |s| == 7 && AllDigits(s[..4]) && s[4] == '-' && AllDigits(s[5..])
  }

  /**
   * The ISO date stamped on a new transaction: the viewed month, the day
   * and the time of day of the clock, read in UTC.
   */
  function Stamp(currentMonth: string, day: nat, timeOfDay: string): (r: string)
    // the month key and a dash lead, a 'T' and the time of day close, and a day
    // of the month takes exactly two characters in between
    ensures |r| >= |currentMonth| + 4 + |timeOfDay|
    ensures r[..|currentMonth| + 1] == currentMonth + "-"
    ensures r[|r| - |timeOfDay| - 1..] == "T" + timeOfDay
    ensures 1 <= day <= 31 ==> |r| == |currentMonth| + 4 + |timeOfDay|
  {
    if 1 <= day <= 31 then MonthSelector.ShortNumeral(day); StampParts(currentMonth, PadStart2(NatToString(day)), timeOfDay)
    else StampParts(currentMonth, PadStart2(NatToString(day)), timeOfDay)
  }

  /** The stamp laid out from its month, two-or-more-character day and time of day. */
  function StampParts(month: string, dd: string, timeOfDay: string): (r: string)
    requires |dd| >= 2
    ensures |r| == |month| + |dd| + 2 + |timeOfDay|
    ensures r[..|month| + 1] == month + "-"
    ensures r[|r| - |timeOfDay| - 1..] == "T" + timeOfDay
  {
    var r := month + "-" + dd + "T" + timeOfDay;
    assert r[..|month| + 1] == month + "-";
    assert r[|r| - |timeOfDay| - 1..] == "T" + timeOfDay;
    r
  }

  /**
   * For a well-formed month key, the stamp reads back as a date on the given
   * day, under the calendar-date key of that month and day.
   */
  lemma StampReadsBack(currentMonth: string, day: nat, timeOfDay: string)
    requires IsMonthKey(currentMonth) && 1 <= day <= 31
    ensures DayOfMonth(Stamp(currentMonth, day, timeOfDay)) == Some(day)
    ensures DateKey(Stamp(currentMonth, day, timeOfDay)) == currentMonth + "-" + PadStart2(NatToString(day))
  {
    var dd := PadStart2(NatToString(day));
    MonthSelector.PaddedTwoDigits(day);
    var head := currentMonth + "-" + dd;
    MonthDayHead(currentMonth, dd);
    assert Stamp(currentMonth, day, timeOfDay) == head + ("T" + timeOfDay);
    IsoDateExtends(head, "T" + timeOfDay);
    assert Stamp(currentMonth, day, timeOfDay) == head + ['T'] + timeOfDay;
    PrefixBeforeSeparator(head, 'T', timeOfDay);
  }

  /** A month key, a dash and two digits make a calendar date without a 'T'. */
  lemma MonthDayHead(currentMonth: string, dd: string)
    requires IsMonthKey(currentMonth) && |dd| == 2 && AllDigits(dd)
    ensures var head := currentMonth + "-" + dd;
            |head| == 10 && HasIsoDate(head) && head[8..10] == dd && 'T' !in head
  {
    var head := currentMonth + "-" + dd;
    assert head[..4] == currentMonth[..4];
    assert head[5..7] == currentMonth[5..];
    assert head[8..10] == dd;
    forall i | 0 <= i < |head| ensures head[i] != 'T' {
      if i < 4 {
        assert IsDigit(currentMonth[..4][i]);
      } else if 5 <= i < 7 {
        assert IsDigit(currentMonth[5..][i - 5]);
      } else if i >= 8 {
        assert IsDigit(dd[i - 8]);
      }
    }
  }

  /** Text after a ten-character calendar date does not change the date read from it. */
  lemma IsoDateExtends(head: string, rest: string)
    requires |head| == 10 && HasIsoDate(head)
    ensures HasIsoDate(head + rest) && (head + rest)[8..10] == head[8..10]
  {
    var s := head + rest;
    assert s[..4] == head[..4] && s[5..7] == head[5..7] && s[8..10] == head[8..10];
  }

  /** The list `addTransaction` stores: the new transaction, stamped, in front of the old ones. */
  function Prepended(t: Transaction, date: string, txs: seq<Transaction>): (r: seq<Transaction>)
    ensures |r| == |txs| + 1 && r[1..] == txs
    ensures r[0] == t.(date := date)
  {
    [t.(date := date)] + txs
  }

  /**
   * A transaction added while a day d is selected is the first one the day
   * filter shows for d, ahead of the ones it showed before.
   */
  lemma AddedShowsUnderSelectedDay(t: Transaction, currentMonth: string, d: int, timeOfDay: string,
                                   txs: seq<Transaction>)
    requires IsMonthKey(currentMonth) && 1 <= d <= 31
    ensures var added := Prepended(t, Stamp(currentMonth, d, timeOfDay), txs);
            FilterByDay(added, Some(d)) == [added[0]] + FilterByDay(txs, Some(d))
  {
    var x := t.(date := Stamp(currentMonth, d, timeOfDay));
    StampReadsBack(currentMonth, d, timeOfDay);
    var p := (y: Transaction) => DayOfMonth(y.date) == Some(d);
    assert Prepended(t, x.date, txs) == [x] + txs;
    FilterAppend([x], txs, p);
    assert DropLast([x]) == [];
  }

  // --------------------------------------------------------------- state

  /** The state the App component keeps, and the handlers that replace it. */
  class App {
    var store: map<string, MonthData>
    var currentMonth: string
    var selectedDay: Option<int>

    /** The day filter, when set, names a day a month can have. */
    predicate Valid()
      reads this
    {
      selectedDay.Some? ==> 1 <= selectedDay.value <= 31
    }

    /** The store and month read back from storage (or today's month), with no day filter. */
    constructor (persisted: map<string, MonthData>, month: string)
      ensures Valid()
      ensures store == persisted && currentMonth == month && selectedDay == None
    {
      store := persisted;
      currentMonth := month;
      selectedDay := None;
    }

    /** `activeData`: the viewed month's data, or the empty month. */
    function ActiveData(): (md: MonthData)
      reads this
      ensures currentMonth in store ==> md == store[currentMonth]
      ensures currentMonth !in store ==> md.income == 0 && md.budgetLimit == 0 && md.transactions == []
    {
      ReadMonth(store, currentMonth)
    }

    /** The timeline: the viewed month's transactions under the day filter. */
    function FilteredTransactions(): (r: seq<Transaction>)
      reads this
      // without a day filter the whole month, with one exactly the month's
      // transactions dated that day, in their stored order
      ensures selectedDay.None? ==> r == ActiveData().transactions
      ensures selectedDay.Some? ==>
                forall t :: t in r <==> t in ActiveData().transactions && DayOfMonth(t.date) == selectedDay
      ensures IsSubsequence(r, ActiveData().transactions)
    {
      FilterByDay(ActiveData().transactions, selectedDay)
    }

    /** The totals of the viewed month. */
    function Stats(): (s: BudgetStats)
      reads this
      // over the whole viewed month, whatever day the timeline shows
      ensures s.totalIncome == Total(Filter(ActiveData().transactions, IsIncome), AmountOf)
      ensures s.totalExpense == Total(Filter(ActiveData().transactions, IsExpense), AmountOf)
      ensures s.totalIncome + s.totalExpense == Total(ActiveData().transactions, AmountOf)
      ensures s.balance == s.totalIncome - s.totalExpense
      ensures s.budgetLimit == ActiveData().budgetLimit
    {
      MonthlyStats(ActiveData())
    }

    /**
     * `updateMonthData(updates)`: the viewed month's entry becomes its old
     * data (or the empty month) with the update spread over it; every other
     * month keeps its entry, or its absence.
     */
    method UpdateMonthData(updates: MonthUpdate)
      modifies this`store
      ensures store == old(store)[currentMonth := Merge(old(ActiveData()), updates)]
      ensures ActiveData() == Merge(old(ActiveData()), updates)
      ensures forall m :: m != currentMonth ==>
                (m in store <==> m in old(store)) && (m in store ==> store[m] == old(store)[m])
    {
      var previous := ReadMonth(store, currentMonth);
      store := store[currentMonth := Merge(previous, updates)];
    }

    /**
     * `addTransaction(t)`: stamp t with the viewed month, the day of
     * `DayToUse` and the clock's time of day, and put it in front of the
     * month's transactions.  `nowMonth`, `today` and `timeOfDay` are what
     * the clock reads.
     */
    method AddTransaction(t: Transaction, nowMonth: string, today: int, timeOfDay: string)
      requires Valid() && 1 <= today <= 31
      modifies this`store
      ensures Valid()
      ensures var day := DayToUse(old(selectedDay), nowMonth == currentMonth, today);
              ActiveData().transactions == Prepended(t, Stamp(currentMonth, day, timeOfDay), old(ActiveData()).transactions)
      ensures ActiveData().income == old(ActiveData()).income
      ensures ActiveData().budgetLimit == old(ActiveData()).budgetLimit
      ensures forall m :: m != currentMonth ==>
                (m in store <==> m in old(store)) && (m in store ==> store[m] == old(store)[m])
    {
      var isActualCurrentMonth := nowMonth == currentMonth;
      var dayToUse := DayToUse(selectedDay, isActualCurrentMonth, today);
      var transactionDate := Stamp(currentMonth, dayToUse, timeOfDay);
      var newTransactions := [t.(date := transactionDate)] + ActiveData().transactions;
      UpdateMonthData(MonthUpdate(None, None, Some(newTransactions)));
    }

    /** The list's delete: drop every transaction of the viewed month with this id. */
    method DeleteTransaction(id: string)
      modifies this`store
      ensures ActiveData().transactions == RemoveById(old(ActiveData()).transactions, id)
      ensures ActiveData().income == old(ActiveData()).income
      ensures ActiveData().budgetLimit == old(ActiveData()).budgetLimit
      ensures forall m :: m != currentMonth ==>
                (m in store <==> m in old(store)) && (m in store ==> store[m] == old(store)[m])
    {
      UpdateMonthData(MonthUpdate(None, None, Some(RemoveById(ActiveData().transactions, id))));
    }

    /** The budget card's `onLimitChange(val)`: set the viewed month's limit. */
    method ChangeLimit(val: int)
      modifies this`store
      ensures ActiveData() == old(ActiveData()).(budgetLimit := val)
      ensures forall m :: m != currentMonth ==>
                (m in store <==> m in old(store)) && (m in store ==> store[m] == old(store)[m])
    {
      UpdateMonthData(MonthUpdate(None, Some(val), None));
    }

    /** A day button (`onDayChange(day)`) or "All" (`onDayChange(null)`). */
    method SelectDay(day: Option<int>)
      requires day.Some? ==> 1 <= day.value <= 31
      modifies this`selectedDay
      ensures Valid() && selectedDay == day
    {
      selectedDay := day;
    }

    /**
     * The month selector's `navigateMonth(delta)`: clear the day filter,
     * then view the month `delta` months away.  The store is untouched.
     */
    method NavigateMonth(delta: int)
      modifies this`selectedDay, this`currentMonth
      ensures Valid()
      ensures selectedDay == None
      ensures currentMonth == MonthSelector.NavigateTarget(old(currentMonth), delta)
    {
      selectedDay := None;
      currentMonth := MonthSelector.NavigateTarget(currentMonth, delta);
    }
  }
}
