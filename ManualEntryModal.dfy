/** The "Add Record" form (components/ManualEntryModal.tsx): required-field
    validation, the sign of the amount by entry type, the record it builds
    and the reset after a submit. */
module ManualEntryModal {
  import opened Types

  const ManualNote := "Manual Entry"

  /** The two toggle buttons: "Cash Out (-)" and "Cash In (+)". */
  datatype EntryType = Expense | Income

  /** The callbacks the form calls, in order. */
  datatype Callback = Add(record: Transaction) | Close

  /** `type === 'expense' ? -Math.abs(n) : Math.abs(n)`: an expense is
      never positive, an income never negative, and the magnitude is the
      one typed. */
  function NormaliseAmount(kind: EntryType, n: int): (r: int)
    ensures kind == Expense ==> r <= 0
    ensures kind == Income ==> r >= 0
    ensures Abs(r) == Abs(n)
  {
    if kind == Expense then -(Abs(n) as int) else Abs(n)
  }

  /** The sign rule leaves nothing to choose: any amount with the right
      sign and magnitude is the normalised one. */
  lemma NormaliseUnique(kind: EntryType, n: int, r: int)
    requires kind == Expense ==> r <= 0
    requires kind == Income ==> r >= 0
    requires Abs(r) == Abs(n)
    ensures r == NormaliseAmount(kind, n)
  {
  }

  /** Normalising twice, or normalising an already signed amount, changes
      nothing. */
  lemma NormaliseIdempotent(kind: EntryType, n: int)
    ensures NormaliseAmount(kind, NormaliseAmount(kind, n)) == NormaliseAmount(kind, n)
  {
  }

  /** The `newTransaction` literal: the form's fields copied as they are,
      the normalised amount, the fixed note and a fresh id. */
  function NewRecord(id: string, date: string, description: string, category: string,
                     kind: EntryType, n: int, isSubscription: bool): (r: Transaction)
    ensures r.Id == Some(id) && r.IsSubscription == Some(isSubscription)
    ensures r.Date == date && r.Description == description && r.Category == category
    ensures r.Notes == Some(ManualNote)
    ensures (kind == Expense ==> r.Amount <= 0) && (kind == Income ==> r.Amount >= 0)
    ensures Abs(r.Amount) == Abs(n)
  {
    Transaction(Some(id), date, description, NormaliseAmount(kind, n), category, Some(ManualNote), Some(isSubscription))
  }

  class ManualEntryForm {
    var description: string
    /** The raw text of the number input. */
    var amount: string
    var kind: EntryType
    var category: string
    var date: string
    var isSubscription: bool

    /** The initial state: empty fields, an expense, today's date, not a
        subscription. */
    constructor (today: string)
      ensures description == "" && amount == "" && kind == Expense && category == ""
      ensures date == today && !isSubscription
    {
      description, amount, kind, category := "", "", Expense, "";
      date, isSubscription := today, false;
    }

    /** `handleSubmit`. With an empty description, amount or category
        nothing happens. Otherwise the new record is passed to `onAdd`, the
        description, amount, category and subscription flag are reset
        (date and type are kept) and `onClose` is called. `id` is the fresh
        UUID and `parseFloat` the value of the amount text, in cents. */
    method HandleSubmit(id: string, parseFloat: string -> int) returns (calls: seq<Callback>)
      modifies this`description, this`amount, this`category, this`isSubscription
      ensures date == old(date) && kind == old(kind)
      ensures old(description == "" || amount == "" || category == "") ==>
        && calls == []
        && description == old(description) && amount == old(amount)
        && category == old(category) && isSubscription == old(isSubscription)
      ensures old(description != "" && amount != "" && category != "") ==>
        && calls == [Add(NewRecord(id, old(date), old(description), old(category), old(kind),
                                   parseFloat(old(amount)), old(isSubscription))), Close]
        && description == "" && amount == "" && category == "" && !isSubscription
    {
      if description == "" || amount == "" || category == "" {
        return [];
      }
      var numAmount := parseFloat(amount);
      var finalAmount := NormaliseAmount(kind, numAmount);
      var newTransaction := Transaction(Some(id), date, description, finalAmount, category, Some(ManualNote), Some(isSubscription));
      calls := [Add(newTransaction)];
      description, amount, category, isSubscription := "", "", "", false;
      calls := calls + [Close];
    }
  }
}
