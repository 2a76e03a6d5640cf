/** The three summary cards (components/TransactionSummary.tsx): the number
    of transactions, the total income and the total spending. */
module TransactionSummary {
  import opened Types

  /** `totalIncome`: the sum of the strictly positive amounts. */
  function TotalIncome(ts: seq<Transaction>): (r: int)
    ensures r >= 0
    ensures r == 0 <==> forall t :: t in ts ==> t.Amount <= 0
  {
    IncomeBounds(ts);
    SumAmounts(Incomes(ts))
  }

  /** `totalSpending`: the sum of the strictly negative amounts. */
  function TotalSpending(ts: seq<Transaction>): (r: int)
    ensures r <= 0
    ensures r == 0 <==> forall t :: t in ts ==> t.Amount >= 0
  {
    SpendingBounds(ts);
    SumAmounts(Expenses(ts))
  }

  lemma {:induction false} IncomeBounds(ts: seq<Transaction>)
    ensures SumAmounts(Incomes(ts)) >= 0
    ensures SumAmounts(Incomes(ts)) == 0 <==> forall t :: t in ts ==> t.Amount <= 0
  {
    if ts != [] {
      IncomeBounds(ts[1..]);
      SumCons(ts[0], Incomes(ts[1..]));
      assert ts[0] in ts;
      assert forall t :: t in ts <==> t == ts[0] || t in ts[1..];
    }
  }

  lemma {:induction false} SpendingBounds(ts: seq<Transaction>)
    ensures SumAmounts(Expenses(ts)) <= 0
    ensures SumAmounts(Expenses(ts)) == 0 <==> forall t :: t in ts ==> t.Amount >= 0
  {
    if ts != [] {
      SpendingBounds(ts[1..]);
      SumCons(ts[0], Expenses(ts[1..]));
      assert ts[0] in ts;
      assert forall t :: t in ts <==> t == ts[0] || t in ts[1..];
    }
  }

  lemma SumCons(t: Transaction, rest: seq<Transaction>)
    ensures SumAmounts([t] + rest) == t.Amount + SumAmounts(rest)
  {
    assert ([t] + rest)[1..] == rest;
  }

  /** Every amount is either income, spending or zero, so the two totals
      together are the net sum of the list. */
  lemma {:induction false} IncomePlusSpending(ts: seq<Transaction>)
    ensures TotalIncome(ts) + TotalSpending(ts) == SumAmounts(ts)
  {
    if ts != [] {
      IncomePlusSpending(ts[1..]);
      SumCons(ts[0], Incomes(ts[1..]));
      SumCons(ts[0], Expenses(ts[1..]));
    }
  }

  /** A zero-amount transaction, wherever it stands, changes neither total. */
  lemma ZeroAmountCountsNowhere(a: seq<Transaction>, z: Transaction, b: seq<Transaction>)
    requires z.Amount == 0
    ensures TotalIncome(a + [z] + b) == TotalIncome(a + b)
    ensures TotalSpending(a + [z] + b) == TotalSpending(a + b)
  {
    IncomesAppend(a + [z], b);
    IncomesAppend(a, [z]);
    IncomesAppend(a, b);
    ExpensesAppend(a + [z], b);
    ExpensesAppend(a, [z]);
    ExpensesAppend(a, b);
    assert Incomes([z]) == [] && Expenses([z]) == [];
    assert Incomes(a) + [] == Incomes(a);
    assert Expenses(a) + [] == Expenses(a);
  }

  /** What the three cards show. `spending` is the displayed
      `Math.abs(totalSpending)`. */
  datatype Cards = Cards(count: nat, income: int, spending: nat)

  /** The rendered summary; an empty list renders nothing. */
  function Summary(ts: seq<Transaction>): (r: Option<Cards>)
    ensures r.None? <==> ts == []
    ensures r.Some? ==> r.value.count == |ts|
    ensures r.Some? ==> r.value.income == TotalIncome(ts) >= 0
    ensures r.Some? ==> r.value.spending == -TotalSpending(ts) >= 0
    ensures r.Some? ==> r.value.income - r.value.spending == SumAmounts(ts)
  {
    if |ts| == 0 then None
    else
      IncomePlusSpending(ts);
      Some(Cards(|ts|, TotalIncome(ts), Abs(TotalSpending(ts))))
  }
}
