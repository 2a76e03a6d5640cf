/** The tab-separated export of the transaction table
    (components/TransactionTable.tsx: `convertToTSV` and `handleCopy`). */
module TransactionTable {
  import opened Types

  /** A record's own enumerable properties, in the order `Object.keys` and
      `Object.values` list them: `id` first when present, then the four
      required fields and `Notes` when present, in the order of types.ts,
      then `IsSubscription` when present. Each value is given as
      `String(value)` renders it. */
  function Fields(t: Transaction): (r: seq<(string, string)>)
    ensures |r| == 4 + (if t.Id.Some? then 1 else 0) + (if t.Notes.Some? then 1 else 0)
                     + (if t.IsSubscription.Some? then 1 else 0)
  {
    (if t.Id.Some? then [("id", t.Id.value)] else [])
    + [("Date", t.Date), ("Description", t.Description), ("Amount", AmountText(t.Amount)),
       ("Category", t.Category)]
    + (if t.Notes.Some? then [("Notes", t.Notes.value)] else [])
    + (if t.IsSubscription.Some? then [("IsSubscription", BoolText(t.IsSubscription.value))] else [])
  }

  function BoolText(b: bool): string
  {
    if b then "true" else "false"
  }

  /** `String(n)` for an amount of `cents / 100`: no trailing zeros in the
      fraction and no fraction at all for a whole amount. */
  function AmountText(cents: int): (r: string)
    ensures |r| > 0
    ensures r[0] == '-' <==> cents < 0
    ensures '.' in r <==> Abs(cents) % 100 != 0
    ensures '\t' !in r && '\n' !in r
  {
    var a := Abs(cents);
    var whole := NatText(a / 100);
    var frac := a % 100;
    (if cents < 0 then "-" else "") + whole
    + (if frac == 0 then ""
       else if frac % 10 == 0 then "." + [Digit(frac / 10)]
       else "." + [Digit(frac / 10), Digit(frac % 10)])
  }

  /** Decimal digits of `n`, most significant first. */
  function NatText(n: nat): (r: string)
    ensures |r| > 0
    ensures forall i :: 0 <= i < |r| ==> '0' <= r[i] <= '9'
  {
    if n < 10 then [Digit(n)] else NatText(n / 10) + [Digit(n % 10)]
  }

  predicate IsControl(c: char)
  {
    c == '\t' || c == '\n' || c == '\r'
  }

  /** `String(value).replace(/[\t\n\r]/g, ' ')`. */
  function Sanitize(s: string): (r: string)
    ensures |r| == |s|
    ensures forall i :: 0 <= i < |s| ==> r[i] == (if IsControl(s[i]) then ' ' else s[i])
  {
    if s == [] then []
    else [if IsControl(s[0]) then ' ' else s[0]] + Sanitize(s[1..])
  }

  /** After sanitising, a value holds neither separator. */
  lemma SanitizeHasNoControl(s: string)
    ensures forall i :: 0 <= i < |Sanitize(s)| ==> !IsControl(Sanitize(s)[i])
    ensures '\t' !in Sanitize(s) && '\n' !in Sanitize(s)
  {
    var r := Sanitize(s);
    assert forall c :: c in r ==> exists i :: 0 <= i < |r| && r[i] == c;
  }

  /** `Array.prototype.join(sep)`. */
  function Join(xs: seq<string>, sep: char): (r: string)
    ensures forall c :: c in r ==> c == sep || exists i :: 0 <= i < |xs| && c in xs[i]
  {
    if xs == [] then ""
    else if |xs| == 1 then xs[0]
    else xs[0] + [sep] + Join(xs[1..], sep)
  }

  /** `String.prototype.split(sep)` for a one-character separator: the
      pieces between separators, always at least one. */
  function Split(s: string, sep: char): (r: seq<string>)
    ensures |r| > 0
  {
    if s == [] then [""]
    else
      var rest := Split(s[1..], sep);
      if s[0] == sep then [""] + rest
      else [[s[0]] + rest[0]] + rest[1..]
  }

  lemma {:induction false} SplitWithout(x: string, sep: char)
    requires sep !in x
    ensures Split(x, sep) == [x]
  {
    if x != [] {
      SplitWithout(x[1..], sep);
      assert [x[0]] + x[1..] == x;
    }
  }

  lemma {:induction false} SplitPast(x: string, sep: char, rest: string)
    requires sep !in x
    ensures Split(x + [sep] + rest, sep) == [x] + Split(rest, sep)
  {
    var s := x + [sep] + rest;
    if x == [] {
      assert s == [sep] + rest;
      assert s[1..] == rest;
    } else {
      assert s[1..] == x[1..] + [sep] + rest;
      SplitPast(x[1..], sep, rest);
      assert [x[0]] + x[1..] == x;
    }
  }

  /** Splitting undoes joining when no piece holds the separator. */
  lemma {:induction false} SplitJoin(xs: seq<string>, sep: char)
    requires |xs| > 0
    requires forall i :: 0 <= i < |xs| ==> sep !in xs[i]
    ensures Split(Join(xs, sep), sep) == xs
  {
    if |xs| == 1 {
      SplitWithout(xs[0], sep);
    } else {
      SplitJoin(xs[1..], sep);
      SplitPast(xs[0], sep, Join(xs[1..], sep));
      assert [xs[0]] + xs[1..] == xs;
    }
  }

  lemma {:induction false} JoinWithout(xs: seq<string>, sep: char, c: char)
    requires c != sep
    requires forall i :: 0 <= i < |xs| ==> c !in xs[i]
    ensures c !in Join(xs, sep)
  {
    if |xs| > 1 {
      JoinWithout(xs[1..], sep, c);
    }
  }

  function Keys(t: Transaction): (r: seq<string>)
    ensures |r| == |Fields(t)|
  {
    var fs := Fields(t);
    seq(|fs|, i requires 0 <= i < |fs| => fs[i].0)
  }

  /** The sanitised `Object.values` of one record. */
  function Cells(t: Transaction): (r: seq<string>)
    ensures |r| == |Fields(t)|
    ensures forall i :: 0 <= i < |r| ==> r[i] == Sanitize(Fields(t)[i].1)
  {
    var fs := Fields(t);
    seq(|fs|, i requires 0 <= i < |fs| => Sanitize(fs[i].1))
  }

  function Header(t: Transaction): string
  {
    Join(Keys(t), '\t')
  }

  function Row(t: Transaction): string
  {
    Join(Cells(t), '\t')
  }

  function Rows(data: seq<Transaction>): (r: seq<string>)
    ensures |r| == |data|
    ensures forall i :: 0 <= i < |data| ==> r[i] == Row(data[i])
  {
    seq(|data|, i requires 0 <= i < |data| => Row(data[i]))
  }

  /** `convertToTSV`: the first record's keys as a header line, then one
      line per record. It reads `data[0]`, so the list must not be empty. */
  function ConvertToTSV(data: seq<Transaction>): (r: string)
    requires |data| > 0
    ensures |r| > |Header(data[0])| && r[..|Header(data[0])|] == Header(data[0])
    ensures r[|Header(data[0])|] == '\n'
  {
    var lines := [Header(data[0])] + Rows(data);
    assert lines[1..] == Rows(data);
    Join(lines, '\n')
  }

  lemma KeysHaveNoSeparator(t: Transaction)
    ensures forall i :: 0 <= i < |Keys(t)| ==> '\t' !in Keys(t)[i] && '\n' !in Keys(t)[i]
  {
    var ks := Keys(t);
    forall i | 0 <= i < |ks|
      ensures '\t' !in ks[i] && '\n' !in ks[i]
    {
      var key := Fields(t)[i].0;
      assert ks[i] == key;
      assert key in {"id", "Date", "Description", "Amount", "Category", "Notes", "IsSubscription"};
    }
  }

  lemma CellsHaveNoSeparator(t: Transaction)
    ensures forall i :: 0 <= i < |Cells(t)| ==> '\t' !in Cells(t)[i] && '\n' !in Cells(t)[i]
  {
    forall i | 0 <= i < |Cells(t)|
      ensures '\t' !in Cells(t)[i] && '\n' !in Cells(t)[i]
    {
      SanitizeHasNoControl(Fields(t)[i].1);
    }
  }

  /** The export has exactly one line more than there are records: line 0
      is the header built from the first record's keys and line i+1 is
      record i, in input order. */
  lemma TSVLines(data: seq<Transaction>)
    requires |data| > 0
    ensures Split(ConvertToTSV(data), '\n') == [Header(data[0])] + Rows(data)
    ensures |Split(ConvertToTSV(data), '\n')| == |data| + 1
    ensures Split(ConvertToTSV(data), '\n')[0] == Join(Keys(data[0]), '\t')
    ensures forall i :: 0 <= i < |data| ==> Split(ConvertToTSV(data), '\n')[i + 1] == Row(data[i])
  {
    var lines := [Header(data[0])] + Rows(data);
    KeysHaveNoSeparator(data[0]);
    JoinWithout(Keys(data[0]), '\t', '\n');
    forall i | 0 <= i < |data|
      ensures '\n' !in Row(data[i])
    {
      CellsHaveNoSeparator(data[i]);
      JoinWithout(Cells(data[i]), '\t', '\n');
    }
    SplitJoin(lines, '\n');
  }

  /** A row splits on tabs into exactly the record's values, each
      sanitised, in property order. */
  lemma RowCells(t: Transaction)
    ensures Split(Row(t), '\t') == Cells(t)
    ensures |Split(Row(t), '\t')| == |Fields(t)|
  {
    CellsHaveNoSeparator(t);
    SplitJoin(Cells(t), '\t');
  }

  /** The header splits on tabs into exactly the first record's keys. */
  lemma HeaderKeys(t: Transaction)
    ensures Split(Header(t), '\t') == Keys(t)
  {
    KeysHaveNoSeparator(t);
    SplitJoin(Keys(t), '\t');
  }

  /** `handleCopy`: the text put on the clipboard, or nothing for an empty
      table. */
  function HandleCopy(ts: seq<Transaction>): (r: Option<string>)
    ensures r.None? <==> ts == []
    ensures r.Some? ==> |Split(r.value, '\n')| == |ts| + 1
  {
    if |ts| > 0 then
      TSVLines(ts);
      Some(ConvertToTSV(ts))
    else None
  }
}
