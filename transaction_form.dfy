/**
 * The quick-entry form: a title, an amount shown as a grouped integer, a
 * type and a category.  Its handlers update those four fields, and submit
 * either hands one transaction to `onAdd` and clears the form or rejects
 * the entry and leaves everything as it was.
 */
module TransactionForm {
  import opened Wrappers
  import opened JsText
  import opened Types

  const IncomeCategories: seq<string> := ["Salary", "Freelance", "Investment", "Other"]
  const ExpenseCategories: seq<string> := ["Food", "Transport", "Rent", "Shopping", "Health", "Other"]

  /** The category buttons the form offers for a type. */
  function CategoryChoices(kind: TxType): (cs: seq<string>)
    ensures "Other" in cs
    ensures kind == Income ==> cs == IncomeCategories
    ensures kind == Expense ==> cs == ExpenseCategories
  {
    if kind == Income then IncomeCategories else ExpenseCategories
  }

  /**
   * `parseFloat(displayAmount.replace(/[^0-9]/g, ''))`: the number the
   * digits of the amount field spell, None for the NaN of a field without
   * digits.  Only digits reach `parseFloat`, so the value is a whole number.
   */
  function ParseAmount(displayAmount: string): (r: Option<int>)
    ensures r.None? <==> forall i :: 0 <= i < |displayAmount| ==> !IsDigit(displayAmount[i])
    ensures r.Some? ==> r.value >= 0
  {
    var digits := KeepDigits(displayAmount);
    if digits == [] then None else Some(DigitsValue(digits))
  }

  /** The amount is what `parseFloat` makes of the kept digits, as a number. */
  lemma AmountIsParseFloat(displayAmount: string)
    ensures ParseFloatPrefix(KeepDigits(displayAmount))
            == if ParseAmount(displayAmount).None? then None else Some(ParseAmount(displayAmount).value as real)
  {
  }

  /** What the amount field shows after an edit reads back as the number the typed digits spell. */
  lemma AmountRoundTrip(typed: string)
    ensures KeepDigits(typed) == [] ==> ParseAmount(FormatIntegerInput(typed)) == None
    ensures KeepDigits(typed) != [] ==> ParseAmount(FormatIntegerInput(typed)) == Some(DigitsValue(KeepDigits(typed)))
  {
    if KeepDigits(typed) != [] {
      GroupedDigits(DigitsValue(KeepDigits(typed)));
    } else {
      assert KeepDigits([]) == [];
    }
  }

  /**
   * A field that shows what formatting it shows again, and is not empty,
   * holds the grouped numeral of the amount it reads as.
   */
  lemma FormattedAmountReads(shown: string)
    requires FormatIntegerInput(shown) == shown && shown != ""
    ensures ParseAmount(shown).Some? && shown == Grouped(ParseAmount(shown).value)
  {
  }

  /**
   * The submit gate and the transaction `handleSubmit` passes to `onAdd`:
   * None when the title is blank or the amount is NaN or not positive;
   * otherwise the typed title, the amount, the current type and the chosen
   * category, "Other" when none was chosen.  The id and the date come from
   * the clock and the random generator and are given.
   */
  function Submission(title: string, displayAmount: string, kind: TxType, category: string,
                      id: string, date: string): (r: Option<Transaction>)
    ensures r.None? <==> AllWhitespace(title) || ParseAmount(displayAmount).None? || ParseAmount(displayAmount).value <= 0
    ensures r.Some? ==> && r.value.title == title
                        && r.value.amount > 0 && Some(r.value.amount) == ParseAmount(displayAmount)
                        && r.value.kind == kind
                        && r.value.category == (if category == "" then "Other" else category)
                        && r.value.id == id && r.value.date == date
    // from a formatted field the amount is the one it shows
    ensures r.Some? && FormatIntegerInput(displayAmount) == displayAmount ==> displayAmount == Grouped(r.value.amount)
  {
    var numericValue := ParseAmount(displayAmount);
    if Trim(title) == [] || numericValue.None? || numericValue.value <= 0 then None
    else if FormatIntegerInput(displayAmount) == displayAmount then
      FormattedAmountReads(displayAmount);
      Some(Transaction(id, title, numericValue.value, kind, if category == "" then "Other" else category, date))
    else Some(Transaction(id, title, numericValue.value, kind, if category == "" then "Other" else category, date))
  }

  /** A category picked from the offered buttons is the category of the submitted transaction. */
  lemma ChosenCategoryKept(title: string, displayAmount: string, kind: TxType, category: string,
                           id: string, date: string)
    requires category in CategoryChoices(kind)
    requires Submission(title, displayAmount, kind, category, id, date).Some?
    ensures Submission(title, displayAmount, kind, category, id, date).value.category in CategoryChoices(kind)
  {
    BlankNotOffered(kind);
  }

  /** Every category button has a name of at least three characters. */
  lemma BlankNotOffered(kind: TxType)
    ensures forall c :: c in CategoryChoices(kind) ==> |c| >= 3
  {
    var cs := CategoryChoices(kind);
    forall i | 0 <= i < |cs| ensures |cs[i]| >= 3 {
    }
  }

  /**
   * A category click followed by an amount edit and a submit is accepted
   * exactly when some typed digit spells a positive number, and then the
   * title and the category are both the clicked category.
   */
  lemma ClickThenSubmit(cat: string, typed: string, kind: TxType, id: string, date: string)
    requires !AllWhitespace(cat)
    ensures var r := Submission(cat, FormatIntegerInput(typed), kind, cat, id, date);
            && (r.Some? <==> KeepDigits(typed) != [] && DigitsValue(KeepDigits(typed)) > 0)
            && (r.Some? ==> r.value.title == cat && r.value.category == cat
                            && r.value.amount == DigitsValue(KeepDigits(typed)))
  {
    AmountRoundTrip(typed);
    assert cat != [];
  }

  /** The form's state: the four fields the handlers set. */
  class Form {
    var title: string
    var displayAmount: string
    var kind: TxType
    var category: string

    /** The amount field only ever shows a formatted amount (or nothing). */
    predicate Valid()
      reads this
    {
      FormatIntegerInput(displayAmount) == displayAmount
    }

    /** An empty form set to expense. */
    constructor ()
      ensures Valid()
      ensures title == "" && displayAmount == "" && kind == Expense && category == ""
    {
      title := "";
      displayAmount := "";
      kind := Expense;
      category := "";
      assert KeepDigits("") == [];
    }

    /** `handleAmountChange`: keep the digits, show them grouped, or nothing without a digit. */
    method HandleAmountChange(value: string)
      requires Valid()
      modifies this`displayAmount
      ensures Valid()
      ensures displayAmount == FormatIntegerInput(value)
      ensures KeepDigits(value) == [] ==> displayAmount == ""
    {
      var digits := KeepDigits(value);
      if digits == [] {
        displayAmount := "";
        return;
      }
      displayAmount := Grouped(DigitsValue(digits));
      FormatIntegerInputIdempotent(value);
    }

    /** The description input's `onChange`. */
    method HandleTitleChange(value: string)
      requires Valid()
      modifies this`title
      ensures Valid() && title == value
    {
      title := value;
    }

    /** `handleCategoryClick(cat)`: the category and the title both become cat. */
    method HandleCategoryClick(cat: string)
      requires Valid()
      modifies this`category, this`title
      ensures Valid()
      ensures category == cat && title == cat
    {
      category := cat;
      title := cat;
    }

    /** The Income and Expense buttons: set the type and clear the chosen category. */
    method SelectType(newKind: TxType)
      requires Valid()
      modifies this`kind, this`category
      ensures Valid()
      ensures kind == newKind && category == ""
    {
      kind := newKind;
      category := "";
    }

    /**
     * `handleSubmit`: on a rejected entry nothing changes and nothing is
     * added; on an accepted one the transaction of `Submission` is added and
     * title, amount and category are cleared while the type stays.
     */
    method HandleSubmit(id: string, date: string) returns (added: Option<Transaction>)
      requires Valid()
      modifies this`title, this`displayAmount, this`category
      ensures Valid()
      ensures added == Submission(old(title), old(displayAmount), old(kind), old(category), id, date)
      ensures added.None? ==> title == old(title) && displayAmount == old(displayAmount) && category == old(category)
      ensures added.Some? ==> title == "" && displayAmount == "" && category == ""
      // an accepted amount is the one the field showed, grouped as it was shown
      ensures added.Some? ==> old(displayAmount) == Grouped(added.value.amount)
    {
      added := Submission(title, displayAmount, kind, category, id, date);
      if added.None? {
        return;
      }
      // clear everything but the type
      title := "";
      displayAmount := "";
      category := "";
      FormatEmptyInput();
    }
  }
}
