/** Spending by category (components/Analytics.tsx): the expenses are
    grouped by category into a dictionary while a running total is kept,
    then each group becomes a slice with a colour and a percentage, and the
    slices are sorted by value, largest first. */
module Analytics {
  import opened Types

  const Colors: seq<string> :=
    ["#3b82f6", "#10b981", "#f59e0b", "#ef4444", "#8b5cf6", "#ec4899", "#6366f1", "#14b8a6"]

  /** `t.Category || 'Other'`: an empty category is counted as "Other". */
  function CategoryOf(t: Transaction): (c: string)
    ensures c != ""
    ensures c == t.Category || (t.Category == "" && c == "Other")
  {
    if t.Category == "" then "Other" else t.Category
  }

  // ----- Reference definitions, by recursion on the prefix (the order in
  // ----- which `forEach` visits the list). Only negative amounts count.

  /** What transaction `t` adds to category `c`. */
  function Share(t: Transaction, c: string): nat
  {
    if t.Amount < 0 && CategoryOf(t) == c then Abs(t.Amount) else 0
  }

  /** The money spent in category `c`: the sum of `|Amount|` over the
      expenses of that category. */
  function SpentIn(ts: seq<Transaction>, c: string): nat
  {
    if ts == [] then 0 else SpentIn(ts[..|ts| - 1], c) + Share(ts[|ts| - 1], c)
  }

  /** `totalExpense`: the sum of `|Amount|` over all expenses. */
  function TotalExpense(ts: seq<Transaction>): nat
  {
    if ts == [] then 0
    else TotalExpense(ts[..|ts| - 1]) + (if ts[|ts| - 1].Amount < 0 then Abs(ts[|ts| - 1].Amount) else 0)
  }

  /** The categories of the expenses, each once, in order of first
      appearance (the insertion order of the `groups` dictionary). */
  function FirstSeen(ts: seq<Transaction>): seq<string>
  {
    if ts == [] then []
    else
      var prev := FirstSeen(ts[..|ts| - 1]);
      var t := ts[|ts| - 1];
      if t.Amount >= 0 || CategoryOf(t) in prev then prev else prev + [CategoryOf(t)]
  }

  predicate Distinct(names: seq<string>)
  {
    forall i, j :: 0 <= i < j < |names| ==> names[i] != names[j]
  }

  /** The category list has no duplicates; a name is in it exactly when
      some expense has that category, which is exactly when money was
      spent in it. */
  lemma {:induction false} FirstSeenFacts(ts: seq<Transaction>)
    ensures Distinct(FirstSeen(ts))
    ensures forall c :: c in FirstSeen(ts) <==> exists t :: t in ts && t.Amount < 0 && CategoryOf(t) == c
    ensures forall c :: c in FirstSeen(ts) <==> SpentIn(ts, c) > 0
  {
    if ts != [] {
      var p := ts[..|ts| - 1];
      FirstSeenFacts(p);
      assert ts == p + [ts[|ts| - 1]];
      assert forall t :: t in ts <==> t in p || t == ts[|ts| - 1];
    }
  }

  lemma SpentInAppend(ts: seq<Transaction>, t: Transaction, c: string)
    ensures SpentIn(ts + [t], c) == SpentIn(ts, c) + Share(t, c)
  {
    assert (ts + [t])[..|ts|] == ts;
  }

  lemma TotalsAppend(ts: seq<Transaction>, t: Transaction)
    ensures TotalExpense(ts + [t]) == TotalExpense(ts) + (if t.Amount < 0 then Abs(t.Amount) else 0)
    ensures FirstSeen(ts + [t]) == if t.Amount >= 0 || CategoryOf(t) in FirstSeen(ts) then FirstSeen(ts) else FirstSeen(ts) + [CategoryOf(t)]
  {
    assert (ts + [t])[..|ts|] == ts;
  }

  /** Filtering the expenses first, as the source does, changes none of
      the reference values: only `Amount < 0` contributes. */
  lemma {:induction false} OnlyExpensesCount(ts: seq<Transaction>)
    ensures FirstSeen(Expenses(ts)) == FirstSeen(ts)
    ensures TotalExpense(Expenses(ts)) == TotalExpense(ts)
    ensures forall c :: SpentIn(Expenses(ts), c) == SpentIn(ts, c)
  {
    if ts != [] {
      var p, t := ts[..|ts| - 1], ts[|ts| - 1];
      OnlyExpensesCount(p);
      assert ts == p + [t];
      ExpensesAppend(p, [t]);
      if t.Amount < 0 {
        assert Expenses([t]) == [t];
        ExpenseStep(p, t);
      } else {
        assert Expenses([t]) == [];
        assert Expenses(ts) == Expenses(p);
        IncomeStep(p, t);
      }
    }
  }

  lemma ExpenseStep(p: seq<Transaction>, t: Transaction)
    requires t.Amount < 0
    requires FirstSeen(Expenses(p)) == FirstSeen(p)
    requires TotalExpense(Expenses(p)) == TotalExpense(p)
    requires forall c :: SpentIn(Expenses(p), c) == SpentIn(p, c)
    ensures FirstSeen(Expenses(p) + [t]) == FirstSeen(p + [t])
    ensures TotalExpense(Expenses(p) + [t]) == TotalExpense(p + [t])
    ensures forall c :: SpentIn(Expenses(p) + [t], c) == SpentIn(p + [t], c)
  {
    forall c ensures SpentIn(Expenses(p) + [t], c) == SpentIn(p + [t], c) {
      SpentInAppend(Expenses(p), t, c);
      TotalsAppend(Expenses(p), t);
      SpentInAppend(p, t, c);
      TotalsAppend(p, t);
    }
    TotalsAppend(Expenses(p), t);
    TotalsAppend(p, t);
  }

  lemma IncomeStep(p: seq<Transaction>, t: Transaction)
    requires t.Amount >= 0
    ensures FirstSeen(p + [t]) == FirstSeen(p)
    ensures TotalExpense(p + [t]) == TotalExpense(p)
    ensures forall c :: SpentIn(p + [t], c) == SpentIn(p, c)
  {
    forall c ensures SpentIn(p + [t], c) == SpentIn(p, c) {
      SpentInAppend(p, t, c);
      TotalsAppend(p, t);
    }
    TotalsAppend(p, t);
  }

  // ----- The accumulation loop.

  /** One entry of the `groups` dictionary. */
  datatype Group = Group(name: string, value: nat)

  function Names(gs: seq<Group>): (r: seq<string>)
    ensures |r| == |gs|
    ensures forall i :: 0 <= i < |gs| ==> r[i] == gs[i].name
  {
    seq(|gs|, i requires 0 <= i < |gs| => gs[i].name)
  }

  function SumValues(gs: seq<Group>): int
  {
    if gs == [] then 0 else gs[0].value + SumValues(gs[1..])
  }

  lemma {:induction false} SumValuesAppend(gs: seq<Group>, g: Group)
    ensures SumValues(gs + [g]) == SumValues(gs) + g.value
  {
    if gs != [] {
      assert (gs + [g])[1..] == gs[1..] + [g];
      SumValuesAppend(gs[1..], g);
    } else {
      assert gs + [g] == [g];
    }
  }

  lemma {:induction false} SumValuesUpdate(gs: seq<Group>, k: nat, g: Group)
    requires k < |gs|
    ensures SumValues(gs[k := g]) == SumValues(gs) - gs[k].value + g.value
  {
    if k > 0 {
      assert gs[k := g][1..] == gs[1..][k - 1 := g];
      SumValuesUpdate(gs[1..], k - 1, g);
    } else {
      assert gs[k := g][1..] == gs[1..];
    }
  }

  /** The position of the entry named `c`, or `|gs|` when there is none:
      the dictionary lookup `groups[category]`. */
  function Find(gs: seq<Group>, c: string): (k: nat)
    ensures k <= |gs|
    ensures k < |gs| ==> gs[k].name == c
    ensures forall j :: 0 <= j < k ==> gs[j].name != c
  {
    if gs == [] then 0
    else if gs[0].name == c then 0
    else 1 + Find(gs[1..], c)
  }

  /** What the dictionary entries say about the expenses visited so far. */
  ghost predicate Tallies(es: seq<Transaction>, gs: seq<Group>, total: nat)
  {
    && Names(gs) == FirstSeen(es)
    && (forall k :: 0 <= k < |gs| ==> gs[k].value == SpentIn(es, gs[k].name))
    && total == TotalExpense(es)
    && SumValues(gs) == total
  }

  /** One `forEach` step for a category already in the dictionary:
      `groups[category] = groups[category] + amount`. */
  lemma TallyExisting(es: seq<Transaction>, gs: seq<Group>, total: nat, t: Transaction, k: nat)
    requires Tallies(es, gs, total)
    requires t.Amount < 0
    requires k < |gs| && gs[k].name == CategoryOf(t)
    ensures Tallies(es + [t], gs[k := Group(CategoryOf(t), gs[k].value + Abs(t.Amount))], total + Abs(t.Amount))
  {
    var c, a := CategoryOf(t), Abs(t.Amount);
    var gs' := gs[k := Group(c, gs[k].value + a)];
    SpentInAppend(es, t, c);
    TotalsAppend(es, t);
    SumValuesUpdate(gs, k, Group(c, gs[k].value + a));
    assert c in FirstSeen(es) by {
      assert Names(gs)[k] == c;
    }
    NamesUpdate(gs, k, Group(c, gs[k].value + a));
    FirstSeenFacts(es);
    ExistingValues(es, gs, gs', t, k);
  }

  lemma NamesUpdate(gs: seq<Group>, k: nat, g: Group)
    requires k < |gs| && g.name == gs[k].name
    ensures Names(gs[k := g]) == Names(gs)
  {
    assert forall j :: 0 <= j < |gs| ==> Names(gs[k := g])[j] == Names(gs)[j];
  }

  /** After adding `t` to its own entry `k`, every entry still holds the
      money spent in its category; the other entries are untouched because
      the names are distinct. */
  lemma ExistingValues(es: seq<Transaction>, gs: seq<Group>, gs': seq<Group>, t: Transaction, k: nat)
    requires Distinct(Names(gs))
    requires forall j :: 0 <= j < |gs| ==> gs[j].value == SpentIn(es, gs[j].name)
    requires k < |gs| && gs[k].name == CategoryOf(t) && t.Amount < 0
    requires gs' == gs[k := Group(CategoryOf(t), gs[k].value + Abs(t.Amount))]
    ensures forall j :: 0 <= j < |gs'| ==> gs'[j].value == SpentIn(es + [t], gs'[j].name)
  {
    forall j | 0 <= j < |gs| ensures gs'[j].value == SpentIn(es + [t], gs'[j].name) {
      var n := gs'[j].name;
      SpentInAppend(es, t, n);
      if j == k {
        assert Share(t, n) == Abs(t.Amount);
      } else {
        assert gs'[j] == gs[j];
        assert Names(gs)[j] != Names(gs)[k];
        assert Share(t, n) == 0;
      }
    }
  }

  /** One `forEach` step for a new category: `groups[category] = 0 +
      amount` adds an entry at the end. */
  lemma TallyNew(es: seq<Transaction>, gs: seq<Group>, total: nat, t: Transaction)
    requires Tallies(es, gs, total)
    requires t.Amount < 0
    requires forall j :: 0 <= j < |gs| ==> gs[j].name != CategoryOf(t)
    ensures Tallies(es + [t], gs + [Group(CategoryOf(t), Abs(t.Amount))], total + Abs(t.Amount))
  {
    var c, a := CategoryOf(t), Abs(t.Amount);
    var gs' := gs + [Group(c, a)];
    SpentInAppend(es, t, c);
    TotalsAppend(es, t);
    assert c !in FirstSeen(es) by {
      assert forall j :: 0 <= j < |gs| ==> Names(gs)[j] != c;
    }
    SumValuesAppend(gs, Group(c, a));
    FirstSeenFacts(es);
    assert Names(gs') == Names(gs) + [c];
    forall j | 0 <= j < |gs'| ensures gs'[j].value == SpentIn(es + [t], gs'[j].name) {
      SpentInAppend(es, t, gs'[j].name);
      TotalsAppend(es, t);
      if j < |gs| {
        assert Names(gs)[j] == gs'[j].name;
      }
    }
  }

  /** The `forEach` over the expenses: `groups[category] = (groups[category]
      || 0) + amount; totalExpense += amount`. The dictionary is a list of
      entries in insertion order. */
  method Accumulate(ts: seq<Transaction>) returns (groups: seq<Group>, totalExpense: nat)
    ensures Names(groups) == FirstSeen(ts)
    ensures forall k :: 0 <= k < |groups| ==> groups[k].value == SpentIn(ts, groups[k].name)
    ensures totalExpense == TotalExpense(ts)
    ensures SumValues(groups) == totalExpense
  {
    var expenses := Expenses(ts);
    ExpensesAreNegative(ts);
    groups, totalExpense := [], 0;
    var i := 0;
    while i < |expenses|
      invariant 0 <= i <= |expenses|
      invariant Tallies(expenses[..i], groups, totalExpense)
    {
      assert expenses[..i + 1] == expenses[..i] + [expenses[i]];
      groups, totalExpense := AddExpense(expenses[..i], groups, totalExpense, expenses[i]);
      i := i + 1;
    }
    assert expenses[..i] == expenses;
    TalliesOfExpenses(ts, groups, totalExpense);
  }

  /** The body of the `forEach`: add one expense to its category's total,
      opening the category when it is new. */
  method AddExpense(es: seq<Transaction>, groups: seq<Group>, totalExpense: nat, t: Transaction)
    returns (groups': seq<Group>, totalExpense': nat)
    requires Tallies(es, groups, totalExpense)
    requires t.Amount < 0
    ensures Tallies(es + [t], groups', totalExpense')
  {
    var amount := Abs(t.Amount);
    var category := CategoryOf(t);
    var k := Find(groups, category);
    if k < |groups| {
      TallyExisting(es, groups, totalExpense, t, k);
      groups' := groups[k := Group(category, groups[k].value + amount)];
    } else {
      TallyNew(es, groups, totalExpense, t);
      groups' := groups + [Group(category, amount)];
    }
    totalExpense' := totalExpense + amount;
  }

  /** What the loop establishes over the filtered expenses holds of the
      whole list. */
  lemma TalliesOfExpenses(ts: seq<Transaction>, groups: seq<Group>, total: nat)
    requires Tallies(Expenses(ts), groups, total)
    ensures Names(groups) == FirstSeen(ts)
    ensures forall k :: 0 <= k < |groups| ==> groups[k].value == SpentIn(ts, groups[k].name)
    ensures total == TotalExpense(ts)
    ensures SumValues(groups) == total
  {
    OnlyExpensesCount(ts);
  }

  // ----- The `entries`/`map`/`sort` pipeline.

  /** One pie slice and bar. */
  datatype Slice = Slice(name: string, value: nat, color: string, percentage: real)

  /** `totalExpense > 0 ? (value / totalExpense) * 100 : 0`. */
  function Percentage(value: nat, total: nat): (r: real)
    ensures total == 0 ==> r == 0.0
    ensures 0.0 <= r && (value > 0 && total > 0 ==> r > 0.0)
    ensures value <= total ==> r <= 100.0
    ensures value == total > 0 ==> r == 100.0
  {
    if total > 0 then
      RatioInUnit(value as real, total as real);
      (value as real) / (total as real) * 100.0
    else 0.0
  }

  /** `Object.entries(groups).map(([name, value], index) => …)`. */
  function ToSlices(groups: seq<Group>, total: nat): seq<Slice>
  {
    seq(|groups|, i requires 0 <= i < |groups| =>
      Slice(groups[i].name, groups[i].value, Colors[i % |Colors|], Percentage(groups[i].value, total)))
  }

  predicate SortedByValueDesc(s: seq<Slice>)
  {
    forall i, j :: 0 <= i < j < |s| ==> s[i].value >= s[j].value
  }

  /** Places `x` before the first slice whose value is not larger, so that
      equal values keep their order (`Array.prototype.sort` is stable). */
  function Insert(x: Slice, s: seq<Slice>): (r: seq<Slice>)
    ensures |r| == |s| + 1
    ensures multiset(r) == multiset(s) + multiset{x}
  {
    if s == [] then [x]
    else if s[0].value > x.value then
      assert s == [s[0]] + s[1..];
      [s[0]] + Insert(x, s[1..])
    else
      [x] + s
  }

  lemma NamesCons(x: Slice, s: seq<Slice>)
    ensures forall c :: c in SliceNames([x] + s) <==> c == x.name || c in SliceNames(s)
    ensures Distinct(SliceNames([x] + s)) <==> x.name !in SliceNames(s) && Distinct(SliceNames(s))
  {
    assert ([x] + s)[1..] == s;
    DistinctCons(x.name, SliceNames(s));
  }

  lemma DistinctCons(c: string, names: seq<string>)
    ensures Distinct([c] + names) <==> c !in names && Distinct(names)
  {
    var r := [c] + names;
    assert forall i :: 0 <= i < |names| ==> r[i + 1] == names[i];
    if c in names {
      var k :| 0 <= k < |names| && names[k] == c;
      assert r[0] == r[k + 1];
    }
  }

  /** The slices of `Insert(x, s)` are `x` and those of `s`. */
  lemma {:induction false} InsertMembers(x: Slice, s: seq<Slice>)
    ensures forall y :: y in Insert(x, s) <==> y == x || y in s
  {
    if s != [] && s[0].value > x.value {
      InsertMembers(x, s[1..]);
      assert forall y :: y in s <==> y == s[0] || y in s[1..];
    }
  }

  /** The names of `Insert(x, s)` are `x`'s and those of `s`; they stay
      distinct when `x` brings a new one. */
  lemma InsertNames(x: Slice, s: seq<Slice>)
    ensures forall c :: c in SliceNames(Insert(x, s)) <==> c == x.name || c in SliceNames(s)
    ensures Distinct(SliceNames(s)) && x.name !in SliceNames(s) ==> Distinct(SliceNames(Insert(x, s)))
  {
    InsertNameSet(x, s);
    if Distinct(SliceNames(s)) && x.name !in SliceNames(s) {
      InsertDistinct(x, s);
    }
  }

  lemma {:induction false} InsertNameSet(x: Slice, s: seq<Slice>)
    ensures forall c :: c in SliceNames(Insert(x, s)) <==> c == x.name || c in SliceNames(s)
  {
    if s != [] && s[0].value > x.value {
      InsertNameSet(x, s[1..]);
      NamesCons(s[0], s[1..]);
      NamesCons(s[0], Insert(x, s[1..]));
    } else {
      NamesCons(x, s);
    }
  }

  lemma {:induction false} InsertDistinct(x: Slice, s: seq<Slice>)
    requires Distinct(SliceNames(s)) && x.name !in SliceNames(s)
    ensures Distinct(SliceNames(Insert(x, s)))
  {
    if s != [] && s[0].value > x.value {
      NamesCons(s[0], s[1..]);
      InsertDistinct(x, s[1..]);
      InsertNameSet(x, s[1..]);
      NamesCons(s[0], Insert(x, s[1..]));
    } else {
      NamesCons(x, s);
    }
  }

  /** Inserting into a sorted list keeps it sorted. */
  lemma {:induction false} InsertSorted(x: Slice, s: seq<Slice>)
    requires SortedByValueDesc(s)
    ensures SortedByValueDesc(Insert(x, s))
  {
    if s != [] && s[0].value > x.value {
      InsertSorted(x, s[1..]);
      InsertMembers(x, s[1..]);
      var r := Insert(x, s);
      assert forall y :: y in r[1..] ==> y.value <= s[0].value;
      assert forall i :: 1 <= i < |r| ==> r[i] in r[1..];
    }
  }

  /** `.sort((a, b) => b.value - a.value)`. */
  function SortByValueDesc(s: seq<Slice>): (r: seq<Slice>)
    ensures multiset(r) == multiset(s)
    ensures SortedByValueDesc(r)
  {
    if s == [] then []
    else
      assert s == [s[0]] + s[1..];
      var rest := SortByValueDesc(s[1..]);
      InsertSorted(s[0], rest);
      Insert(s[0], rest)
  }

  /** Sorting keeps the slices and their names, and distinct names stay
      distinct. */
  lemma {:induction false} SortFacts(s: seq<Slice>)
    ensures forall y :: y in SortByValueDesc(s) <==> y in s
    ensures forall c :: c in SliceNames(SortByValueDesc(s)) <==> c in SliceNames(s)
    ensures Distinct(SliceNames(s)) ==> Distinct(SliceNames(SortByValueDesc(s)))
  {
    SortMembers(s);
    SortNames(s);
  }

  /** A permutation has the same members. */
  lemma SortMembers(s: seq<Slice>)
    ensures forall y :: y in SortByValueDesc(s) <==> y in s
  {
    var r := SortByValueDesc(s);
    assert forall y :: y in r <==> y in multiset(r);
    assert forall y :: y in s <==> y in multiset(s);
  }

  lemma {:induction false} SortNames(s: seq<Slice>)
    ensures forall c :: c in SliceNames(SortByValueDesc(s)) <==> c in SliceNames(s)
    ensures Distinct(SliceNames(s)) ==> Distinct(SliceNames(SortByValueDesc(s)))
  {
    if s != [] {
      SortNames(s[1..]);
      InsertNames(s[0], SortByValueDesc(s[1..]));
      NamesCons(s[0], s[1..]);
      assert s == [s[0]] + s[1..];
    }
  }

  function SumSliceValues(s: seq<Slice>): int
  {
    if s == [] then 0 else s[0].value + SumSliceValues(s[1..])
  }

  function SumPercentages(s: seq<Slice>): real
  {
    if s == [] then 0.0 else s[0].percentage + SumPercentages(s[1..])
  }

  lemma {:induction false} InsertSums(x: Slice, s: seq<Slice>)
    ensures SumSliceValues(Insert(x, s)) == x.value + SumSliceValues(s)
    ensures SumPercentages(Insert(x, s)) == x.percentage + SumPercentages(s)
  {
    if s != [] && s[0].value > x.value {
      InsertSums(x, s[1..]);
      var r := Insert(x, s);
      assert r[1..] == Insert(x, s[1..]);
    } else if s != [] {
      assert ([x] + s)[1..] == s;
    }
  }

  /** Sorting changes neither the value total nor the percentage total. */
  lemma {:induction false} SortKeepsSums(s: seq<Slice>)
    ensures SumSliceValues(SortByValueDesc(s)) == SumSliceValues(s)
    ensures SumPercentages(SortByValueDesc(s)) == SumPercentages(s)
  {
    if s != [] {
      SortKeepsSums(s[1..]);
      InsertSums(s[0], SortByValueDesc(s[1..]));
    }
  }

  lemma {:induction false} SlicesSums(groups: seq<Group>, total: nat)
    ensures SumSliceValues(ToSlices(groups, total)) == SumValues(groups)
    ensures total > 0 ==> SumPercentages(ToSlices(groups, total)) == (SumValues(groups) as real) / (total as real) * 100.0
  {
    if groups != [] {
      var r, r' := ToSlices(groups, total), ToSlices(groups[1..], total);
      SlicesSums(groups[1..], total);
      assert SumSliceValues(r[1..]) == SumSliceValues(r') && SumPercentages(r[1..]) == SumPercentages(r') by {
        SlicesShift(groups, total);
      }
      if total > 0 {
        assert r[0].percentage == (groups[0].value as real) / (total as real) * 100.0;
        SharesAdd(groups[0].value as real, SumValues(groups[1..]) as real, total as real);
      }
    } else if total > 0 {
      assert SumPercentages(ToSlices(groups, total)) == 0.0;
    }
  }

  lemma SharesAdd(a: real, b: real, t: real)
    requires t > 0.0
    ensures a / t * 100.0 + b / t * 100.0 == (a + b) / t * 100.0
  {
    assert a / t + b / t == (a + b) / t;
  }

  /** Dropping the first group shifts the remaining slices' colour index
      by one, which changes none of the values or percentages. */
  lemma SlicesShift(groups: seq<Group>, total: nat)
    requires groups != []
    ensures SumSliceValues(ToSlices(groups, total)[1..]) == SumSliceValues(ToSlices(groups[1..], total))
    ensures SumPercentages(ToSlices(groups, total)[1..]) == SumPercentages(ToSlices(groups[1..], total))
  {
    var a, b := ToSlices(groups, total)[1..], ToSlices(groups[1..], total);
    assert forall i :: 0 <= i < |a| ==> a[i].value == b[i].value && a[i].percentage == b[i].percentage;
    SameSums(a, b);
  }

  lemma {:induction false} SameSums(a: seq<Slice>, b: seq<Slice>)
    requires |a| == |b|
    requires forall i :: 0 <= i < |a| ==> a[i].value == b[i].value && a[i].percentage == b[i].percentage
    ensures SumSliceValues(a) == SumSliceValues(b) && SumPercentages(a) == SumPercentages(b)
  {
    if a != [] {
      SameSums(a[1..], b[1..]);
    }
  }

  /** The position of category `c` in the insertion order. */
  function IndexOf(names: seq<string>, c: string): (i: nat)
    requires c in names
    ensures i < |names| && names[i] == c
    ensures forall j :: 0 <= j < i ==> names[j] != c
  {
    if names[0] == c then 0 else 1 + IndexOf(names[1..], c)
  }

  /** `categoryData`. Every expense category appears exactly once, with the
      money spent in it; the values add up to the total expense and the
      percentages to 100; each slice keeps the colour of its insertion
      index; the list is sorted by value, largest first. */
  method CategoryData(ts: seq<Transaction>) returns (data: seq<Slice>)
    ensures |data| == |FirstSeen(ts)|
    ensures data == [] <==> forall t :: t in ts ==> t.Amount >= 0
    ensures Distinct(SliceNames(data))
    ensures forall c :: c in SliceNames(data) <==> exists t :: t in ts && t.Amount < 0 && CategoryOf(t) == c
    ensures forall i :: 0 <= i < |data| ==> data[i].value == SpentIn(ts, data[i].name) > 0
    ensures forall i :: 0 <= i < |data| ==> data[i].percentage == Percentage(data[i].value, TotalExpense(ts))
    ensures forall i :: 0 <= i < |data| ==>
      data[i].name in FirstSeen(ts) && data[i].color == Colors[IndexOf(FirstSeen(ts), data[i].name) % |Colors|]
    ensures SumSliceValues(data) == TotalExpense(ts)
    ensures TotalExpense(ts) > 0 ==> SumPercentages(data) == 100.0
    ensures SortedByValueDesc(data)
  {
    var groups, totalExpense := Accumulate(ts);
    var slices := ToSlices(groups, totalExpense);
    data := SortByValueDesc(slices);
    DataNames(ts, groups, totalExpense, slices, data);
    DataSums(ts, groups, totalExpense, slices, data);
    SliceOrigins(ts, groups, totalExpense, slices, data);
  }

  /** The sorted slices name each expense category once. */
  lemma DataNames(ts: seq<Transaction>, groups: seq<Group>, total: nat, slices: seq<Slice>, data: seq<Slice>)
    requires Names(groups) == FirstSeen(ts)
    requires slices == ToSlices(groups, total)
    requires data == SortByValueDesc(slices)
    ensures |data| == |FirstSeen(ts)|
    ensures data == [] <==> forall t :: t in ts ==> t.Amount >= 0
    ensures Distinct(SliceNames(data))
    ensures forall c :: c in SliceNames(data) <==> exists t :: t in ts && t.Amount < 0 && CategoryOf(t) == c
    ensures forall y :: y in data <==> y in slices
  {
    assert |data| == |slices| by {
      assert |multiset(data)| == |multiset(slices)|;
    }
    SlicesNames(groups, total);
    SortFacts(slices);
    FirstSeenFacts(ts);
    NoExpenseNoCategory(ts);
  }

  lemma SlicesNames(groups: seq<Group>, total: nat)
    ensures SliceNames(ToSlices(groups, total)) == Names(groups)
  {
    var r := ToSlices(groups, total);
    assert forall i :: 0 <= i < |groups| ==> SliceNames(r)[i] == Names(groups)[i];
  }

  /** There is no category exactly when there is no expense. */
  lemma NoExpenseNoCategory(ts: seq<Transaction>)
    ensures FirstSeen(ts) == [] <==> forall t :: t in ts ==> t.Amount >= 0
  {
    FirstSeenFacts(ts);
    if !(forall t :: t in ts ==> t.Amount >= 0) {
      var t :| t in ts && t.Amount < 0;
      assert CategoryOf(t) in FirstSeen(ts);
    }
  }

  /** The sorted slices' values add up to the total expense and, when
      there is any, their percentages to 100. */
  lemma DataSums(ts: seq<Transaction>, groups: seq<Group>, total: nat, slices: seq<Slice>, data: seq<Slice>)
    requires SumValues(groups) == total == TotalExpense(ts)
    requires slices == ToSlices(groups, total)
    requires data == SortByValueDesc(slices)
    ensures SumSliceValues(data) == TotalExpense(ts)
    ensures TotalExpense(ts) > 0 ==> SumPercentages(data) == 100.0
  {
    SlicesSums(groups, total);
    SortKeepsSums(slices);
    if total > 0 {
      WholeIsHundredPercent(total as real);
    }
  }

  lemma WholeIsHundredPercent(t: real)
    requires t > 0.0
    ensures t / t * 100.0 == 100.0
  {
  }

  /** Each sorted slice is one of the unsorted ones, so it carries the
      spending, percentage and colour of its category. */
  lemma SliceOrigins(ts: seq<Transaction>, groups: seq<Group>, total: nat, slices: seq<Slice>, data: seq<Slice>)
    requires Names(groups) == FirstSeen(ts)
    requires forall k :: 0 <= k < |groups| ==> groups[k].value == SpentIn(ts, groups[k].name)
    requires total == TotalExpense(ts)
    requires slices == ToSlices(groups, total)
    requires forall y :: y in data <==> y in slices
    ensures forall i :: 0 <= i < |data| ==> data[i].value == SpentIn(ts, data[i].name) > 0
    ensures forall i :: 0 <= i < |data| ==> data[i].percentage == Percentage(data[i].value, TotalExpense(ts))
    ensures forall i :: 0 <= i < |data| ==>
      data[i].name in FirstSeen(ts) && data[i].color == Colors[IndexOf(FirstSeen(ts), data[i].name) % |Colors|]
  {
    FirstSeenFacts(ts);
    forall i | 0 <= i < |data|
      ensures data[i].value == SpentIn(ts, data[i].name) > 0
      ensures data[i].percentage == Percentage(data[i].value, TotalExpense(ts))
      ensures data[i].name in FirstSeen(ts) && data[i].color == Colors[IndexOf(FirstSeen(ts), data[i].name) % |Colors|]
    {
      assert data[i] in slices;
      var k :| 0 <= k < |slices| && data[i] == slices[k];
      assert FirstSeen(ts)[k] == groups[k].name == data[i].name;
      assert IndexOf(FirstSeen(ts), data[i].name) == k by {
        var j := IndexOf(FirstSeen(ts), data[i].name);
        assert FirstSeen(ts)[j] == FirstSeen(ts)[k];
      }
    }
  }

  function SliceNames(s: seq<Slice>): (r: seq<string>)
    ensures |r| == |s|
    ensures forall i :: 0 <= i < |s| ==> r[i] == s[i].name
  {
    if s == [] then [] else [s[0].name] + SliceNames(s[1..])
  }

  /** `maxBarValue = Math.max(...categoryData.map(d => d.value))`; it is
      only computed for a non-empty list (`categoryData.length === 0`
      renders nothing). */
  function MaxBarValue(data: seq<Slice>): (m: nat)
    requires |data| > 0
    ensures exists i :: 0 <= i < |data| && data[i].value == m
    ensures forall i :: 0 <= i < |data| ==> data[i].value <= m
  {
    if |data| == 1 then data[0].value
    else
      var rest := MaxBarValue(data[1..]);
      assert forall i :: 1 <= i < |data| ==> data[i] == data[1..][i - 1];
      if data[0].value >= rest then data[0].value else rest
  }

  /** `(item.value / maxBarValue) * 100`. */
  function BarWidth(value: nat, max: nat): (r: real)
    requires max > 0
    ensures 0.0 <= r && (value > 0 ==> r > 0.0)
    ensures value <= max ==> r <= 100.0
    ensures value == max ==> r == 100.0
  {
    RatioInUnit(value as real, max as real);
    (value as real) / (max as real) * 100.0
  }

  /** Every bar of the chart is non-empty and at most full width. */
  lemma BarWidthsInRange(ts: seq<Transaction>, data: seq<Slice>, i: nat)
    requires |data| > 0 && i < |data|
    requires forall k :: 0 <= k < |data| ==> data[k].value == SpentIn(ts, data[k].name) > 0
    ensures MaxBarValue(data) > 0
    ensures 0.0 < BarWidth(data[i].value, MaxBarValue(data)) <= 100.0
  {
    assert 0 < data[i].value <= MaxBarValue(data);
  }

  /** `v / m * 100` is a share of a whole: non-negative, positive for a
      positive part, at most 100 for a part of the whole, 100 for all of it. */
  lemma RatioInUnit(v: real, m: real)
    requires 0.0 <= v && 0.0 < m
    ensures 0.0 <= v / m * 100.0 && (v > 0.0 ==> v / m * 100.0 > 0.0)
    ensures v <= m ==> v / m * 100.0 <= 100.0
    ensures v == m ==> v / m * 100.0 == 100.0
  {
    var q := v / m;
    assert q * m == v;
  }
}
