/** The transaction record shared by every component (types.ts), and the
    small Option/Result wrappers the model uses for absent values and for
    the errors the source throws. */
module Types {

  datatype Option<+T> = None | Some(value: T)

  /** A call that either returns a value or throws an Error with a message. */
  datatype Result<+T> = Success(value: T) | Failure(error: string)

  /** One ledger entry. `Amount` is in cents: negative is money out,
      positive is money in. `Id` and `IsSubscription` are present only on
      records built by the manual-entry form; records returned by the
      analysis service carry neither. The response schema does not require
      `Notes`, so a returned record may lack it. */
  datatype Transaction = Transaction(
    Id: Option<string>,
    Date: string,
    Description: string,
    Amount: int,
    Category: string,
    Notes: Option<string>,
    IsSubscription: Option<bool>)

  function Abs(n: int): (r: nat)
    ensures r == n || r == -n
  {
    if n < 0 then -n else n
  }

  /** The decimal digit character for `d`, as `String(d)` writes it. */
  function Digit(d: nat): (c: char)
    requires d < 10
    ensures '0' <= c <= '9'
  {
    (48 + d) as char
  }

  /** `transactions.filter(t => t.Amount > 0)`. */
  function Incomes(ts: seq<Transaction>): seq<Transaction>
  {
    if ts == [] then []
    else if ts[0].Amount > 0 then [ts[0]] + Incomes(ts[1..])
    else Incomes(ts[1..])
  }

  /** `transactions.filter(t => t.Amount < 0)`. */
  function Expenses(ts: seq<Transaction>): seq<Transaction>
  {
    if ts == [] then []
    else if ts[0].Amount < 0 then [ts[0]] + Expenses(ts[1..])
    else Expenses(ts[1..])
  }

  /** `reduce((sum, t) => sum + t.Amount, 0)`. */
  function SumAmounts(ts: seq<Transaction>): int
  {
    if ts == [] then 0 else ts[0].Amount + SumAmounts(ts[1..])
  }

  lemma {:induction false} IncomesAppend(a: seq<Transaction>, b: seq<Transaction>)
    ensures Incomes(a + b) == Incomes(a) + Incomes(b)
  {
    if a != [] {
      assert (a + b)[1..] == a[1..] + b;
      assert (a + b)[0] == a[0];
      IncomesAppend(a[1..], b);
      assert [a[0]] + Incomes(a[1..]) + Incomes(b) == [a[0]] + (Incomes(a[1..]) + Incomes(b));
    } else {
      assert a + b == b;
    }
  }

  lemma {:induction false} ExpensesAppend(a: seq<Transaction>, b: seq<Transaction>)
    ensures Expenses(a + b) == Expenses(a) + Expenses(b)
  {
    if a != [] {
      assert (a + b)[1..] == a[1..] + b;
      assert (a + b)[0] == a[0];
      ExpensesAppend(a[1..], b);
      assert [a[0]] + Expenses(a[1..]) + Expenses(b) == [a[0]] + (Expenses(a[1..]) + Expenses(b));
    } else {
      assert a + b == b;
    }
  }

  lemma {:induction false} SumAmountsAppend(a: seq<Transaction>, b: seq<Transaction>)
    ensures SumAmounts(a + b) == SumAmounts(a) + SumAmounts(b)
  {
    if a != [] {
      assert (a + b)[1..] == a[1..] + b;
      SumAmountsAppend(a[1..], b);
    } else {
      assert a + b == b;
    }
  }

  lemma {:induction false} ExpensesAreNegative(ts: seq<Transaction>)
    ensures forall i :: 0 <= i < |Expenses(ts)| ==> Expenses(ts)[i].Amount < 0
  {
    if ts != [] {
      ExpensesAreNegative(ts[1..]);
    }
  }
}
