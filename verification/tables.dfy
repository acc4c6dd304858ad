/** Data frames as the fetcher uses them: a header of column labels and rows of cells
    held by position, so that a header rename touches no row and two columns may carry
    the same label. A lookup by label reads the first column carrying it. */
module Tables {
  import opened Wrappers
  import opened Text

  type Column = string

  /** A cell: a value, or missing (NaN after a join or a concat). */
  datatype Value = Null | Cell(text: string)

  type Row = seq<Value>

  datatype Table = Table(columns: seq<Column>, rows: seq<Row>)

  /** `pd.DataFrame()`: no columns, no rows. */
  const EmptyTable: Table := Table([], [])

  /** `DataFrame.empty`: no rows, or no columns. */
  predicate IsEmpty(t: Table) {
    |t.rows| == 0 || |t.columns| == 0
  }

  /** Every row has one cell per column. */
  predicate WellFormed(t: Table) {
    forall i :: 0 <= i < |t.rows| ==> |t.rows[i]| == |t.columns|
  }

  /** The position of the first column labelled `c`, or `|cols|` when there is none. */
  function IndexOf(cols: seq<Column>, c: Column): (i: nat)
    ensures i <= |cols|
    ensures i < |cols| <==> c in cols
    ensures i < |cols| ==> cols[i] == c
    ensures forall j :: 0 <= j < i ==> cols[j] != c
  {
    if |cols| == 0 then 0
    else if cols[0] == c then 0
    else 1 + IndexOf(cols[1..], c)
  }

  /** A label already in `a` is found at the same place in `a + b`. */
  lemma IndexOfPrefix(a: seq<Column>, b: seq<Column>, c: Column)
    requires c in a
    ensures IndexOf(a + b, c) == IndexOf(a, c)
  {
    var i := IndexOf(a, c);
    assert (a + b)[i] == c;
    assert forall j :: 0 <= j < i ==> (a + b)[j] == a[j];
  }

  /** The cell at position `i`, missing past the end of the row. */
  function CellAt(row: Row, i: nat): Value {
    if i < |row| then row[i] else Null
  }

  /** The value of column `c` in a row under header `cols`; missing when there is no such column. */
  function Lookup(cols: seq<Column>, row: Row, c: Column): Value {
    if c in cols then CellAt(row, IndexOf(cols, c)) else Null
  }

  // ---------------------------------------------------------------- renaming

  /** `mapping.get(c, c)`: the display label of a column, itself when unmapped. */
  function Relabel(mapping: map<string, string>, c: Column): Column {
    if c in mapping then mapping[c] else c
  }

  /** `df.columns = [mapping.get(c, c) for c in df.columns]`. */
  function Rename(t: Table, mapping: map<string, string>): (r: Table)
    ensures r.rows == t.rows
    ensures |r.columns| == |t.columns|
    ensures forall i :: 0 <= i < |t.columns| && t.columns[i] !in mapping ==> r.columns[i] == t.columns[i]
    ensures forall i :: 0 <= i < |t.columns| && t.columns[i] in mapping ==> r.columns[i] == mapping[t.columns[i]]
    ensures IsEmpty(r) == IsEmpty(t) && WellFormed(r) == WellFormed(t)
  {
    Table(seq(|t.columns|, i requires 0 <= i < |t.columns| => Relabel(mapping, t.columns[i])), t.rows)
  }

  /** A header that the mapping does not mention comes back unchanged. */
  lemma RenameUnmapped(t: Table, mapping: map<string, string>)
    requires forall i :: 0 <= i < |t.columns| ==> t.columns[i] !in mapping
    ensures Rename(t, mapping) == t
  {
    assert Rename(t, mapping).columns == t.columns;
  }

  /** A mapped column can be found under its display label after the rename. */
  lemma RenameFinds(t: Table, mapping: map<string, string>, c: Column)
    requires c in t.columns && c in mapping
    ensures mapping[c] in Rename(t, mapping).columns
  {
    var i :| 0 <= i < |t.columns| && t.columns[i] == c;
    assert Rename(t, mapping).columns[i] == mapping[c];
  }

  // ---------------------------------------------------------------- sorting

  /** `a` may precede `b` in a descending sort on one column; missing values go last
      (pandas `na_position="last"`). Values compare as strings. */
  predicate DescBefore(a: Value, b: Value) {
    match a
    case Null => b.Null?
    case Cell(x) => b.Null? || LexLe(b.text, x)
  }

  lemma DescBeforeTotal(a: Value, b: Value)
    ensures DescBefore(a, b) || DescBefore(b, a)
  {
    if a.Cell? && b.Cell? {
      LexLeTotal(a.text, b.text);
    }
  }

  /** The rows are in descending order on the cells at position `k`. */
  predicate SortedDesc(rows: seq<Row>, k: nat) {
    forall i :: 0 <= i < |rows| - 1 ==> DescBefore(CellAt(rows[i], k), CellAt(rows[i + 1], k))
  }

  function InsertDesc(row: Row, rows: seq<Row>, k: nat): (r: seq<Row>)
    requires SortedDesc(rows, k)
    ensures |r| == |rows| + 1
    ensures SortedDesc(r, k)
    ensures multiset(r) == multiset(rows) + multiset{row}
    ensures r[0] == row || (|rows| > 0 && r[0] == rows[0])
  {
    if |rows| == 0 then [row]
    else if DescBefore(CellAt(row, k), CellAt(rows[0], k)) then [row] + rows
    else
      DescBeforeTotal(CellAt(row, k), CellAt(rows[0], k));
      var tail := InsertDesc(row, rows[1..], k);
      assert rows == [rows[0]] + rows[1..];
      [rows[0]] + tail
  }

  /** Sorts rows descending on position `k` (insertion sort; ties keep their input order). */
  function SortRowsDesc(rows: seq<Row>, k: nat): (r: seq<Row>)
    ensures SortedDesc(r, k)
    ensures multiset(r) == multiset(rows)
    ensures |r| == |rows|
  {
    if |rows| == 0 then []
    else
      assert rows == [rows[0]] + rows[1..];
      InsertDesc(rows[0], SortRowsDesc(rows[1..], k), k)
  }

  /** The label `c` names more than one column. */
  predicate Repeated(cols: seq<Column>, c: Column) {
    c in cols && c in cols[IndexOf(cols, c) + 1..]
  }

  /** The `ValueError` pandas raises when asked to sort on a label that is not unique. */
  function NotUniqueText(c: Column): string {
    "The column label '" + c + "' is not unique."
  }

  /** `df.sort_values(c, ascending=False)` when `c` is a column; the table unchanged otherwise.
      Sorting on a label two columns share raises. */
  function SortBy(t: Table, c: Column): (r: Result<Table, string>)
    ensures r.Failure? <==> Repeated(t.columns, c)
    ensures r.Failure? ==> r.error == NotUniqueText(c)
    ensures r.Success? ==> r.value.columns == t.columns
    ensures r.Success? ==> multiset(r.value.rows) == multiset(t.rows) && |r.value.rows| == |t.rows|
    ensures r.Success? && c in t.columns ==> SortedDesc(r.value.rows, IndexOf(t.columns, c))
    ensures c !in t.columns ==> r == Success(t)
    ensures r.Success? && WellFormed(t) ==> WellFormed(r.value)
  {
    if Repeated(t.columns, c) then Failure(NotUniqueText(c))
    else if c in t.columns then
      var r := t.(rows := SortRowsDesc(t.rows, IndexOf(t.columns, c)));
      assert WellFormed(t) ==> WellFormed(r) by {
        if WellFormed(t) {
          forall i | 0 <= i < |r.rows| ensures |r.rows[i]| == |r.columns| {
            assert r.rows[i] in multiset(t.rows);
          }
        }
      }
      Success(r)
    else Success(t)
  }

  // ---------------------------------------------------------------- concatenation

  /** The header of `pd.concat([a, b])`: `a`'s labels, then `b`'s new ones in order. */
  function UnionColumns(a: seq<Column>, b: seq<Column>): (r: seq<Column>)
    ensures |r| >= |a| && r[..|a|] == a
    ensures forall c :: c in r <==> c in a || c in b
    decreases |b|
  {
    if |b| == 0 then a
    else if b[0] in a then UnionColumns(a, b[1..])
    else
      var r := UnionColumns(a + [b[0]], b[1..]);
      assert r[..|a|] == (r[..|a| + 1])[..|a|];
      r
  }

  /** A row of `cols` holding, for each label, the source row's value under that label. */
  function Realign(src: seq<Column>, row: Row, cols: seq<Column>): (r: Row)
    ensures |r| == |cols|
  {
    seq(|cols|, i requires 0 <= i < |cols| => Lookup(src, row, cols[i]))
  }

  function RealignAll(src: seq<Column>, rows: seq<Row>, cols: seq<Column>): (r: seq<Row>)
    ensures |r| == |rows|
  {
    seq(|rows|, i requires 0 <= i < |rows| => Realign(src, rows[i], cols))
  }

  /** A realigned row reads, under every label of its new header, what the source row held. */
  lemma RealignLookup(src: seq<Column>, row: Row, cols: seq<Column>, c: Column)
    requires c in cols
    ensures Lookup(cols, Realign(src, row, cols), c) == Lookup(src, row, c)
  {
    var r := Realign(src, row, cols);
    assert r[IndexOf(cols, c)] == Lookup(src, row, cols[IndexOf(cols, c)]);
  }

  /** `pd.concat([a, b], ignore_index=True)`: `a`'s rows then `b`'s, under the union header,
      with missing cells where a table lacks a column. */
  function Concat(a: Table, b: Table): (r: Table)
    ensures WellFormed(r)
    ensures |r.rows| == |a.rows| + |b.rows|
    ensures forall c :: c in r.columns <==> c in a.columns || c in b.columns
  {
    var cols := UnionColumns(a.columns, b.columns);
    Table(cols, RealignAll(a.columns, a.rows, cols) + RealignAll(b.columns, b.rows, cols))
  }

  /** A row of the first table reads in the stacked pair what it held under each label,
      missing where the first table lacks the label. */
  lemma ConcatFront(a: Table, b: Table, j: nat, c: Column)
    requires j < |a.rows| && (c in a.columns || c in b.columns)
    ensures var r := Concat(a, b);
      j < |r.rows| && c in r.columns && Lookup(r.columns, r.rows[j], c) == Lookup(a.columns, a.rows[j], c)
  {
    var cols := UnionColumns(a.columns, b.columns);
    assert Concat(a, b).rows[j] == Realign(a.columns, a.rows[j], cols);
    RealignLookup(a.columns, a.rows[j], cols, c);
  }

  /** A row of the second table reads in the stacked pair, after all of the first table's
      rows, what it held under each label, missing where the second table lacks the label. */
  lemma ConcatBack(a: Table, b: Table, j: nat, c: Column)
    requires j < |b.rows| && (c in a.columns || c in b.columns)
    ensures var r := Concat(a, b);
      |a.rows| + j < |r.rows| && c in r.columns &&
      Lookup(r.columns, r.rows[|a.rows| + j], c) == Lookup(b.columns, b.rows[j], c)
  {
    var cols := UnionColumns(a.columns, b.columns);
    assert Concat(a, b).rows[|a.rows| + j] == Realign(b.columns, b.rows[j], cols);
    RealignLookup(b.columns, b.rows[j], cols, c);
  }

  function TotalRows(ts: seq<Table>): nat {
    if |ts| == 0 then 0 else TotalRows(ts[..|ts| - 1]) + |ts[|ts| - 1].rows|
  }

  /** `pd.concat(dfs, ignore_index=True)` for two or more tables. */
  function ConcatAll(ts: seq<Table>): (r: Table)
    requires |ts| >= 2
    ensures WellFormed(r)
    ensures |r.rows| == TotalRows(ts)
    decreases |ts|
  {
    var init := ts[..|ts| - 1];
    var last := ts[|ts| - 1];
    var acc := if |ts| == 2 then ts[0] else ConcatAll(init);
    assert |ts| == 2 ==> TotalRows(init) == |ts[0].rows|;
    Concat(acc, last)
  }

  /** The stacked table has exactly the labels of its members. */
  lemma {:induction false} ConcatAllColumns(ts: seq<Table>, c: Column)
    requires |ts| >= 2
    ensures c in ConcatAll(ts).columns <==> exists i :: 0 <= i < |ts| && c in ts[i].columns
    decreases |ts|
  {
    var init := ts[..|ts| - 1];
    if |ts| > 2 {
      ConcatAllColumns(init, c);
    }
    assert forall i :: 0 <= i < |init| ==> init[i] == ts[i];
  }

  /** Row `i` of table `k` sits at position `TotalRows(ts[..k]) + i` of the stacked table
      and reads, under every label of the union header, what it held before (missing where
      table `k` lacks the label). */
  lemma {:induction false} ConcatAllCells(ts: seq<Table>, k: nat, i: nat, c: Column)
    requires |ts| >= 2 && k < |ts| && i < |ts[k].rows|
    requires c in ConcatAll(ts).columns
    ensures TotalRows(ts[..k]) + i < |ConcatAll(ts).rows|
    ensures Lookup(ConcatAll(ts).columns, ConcatAll(ts).rows[TotalRows(ts[..k]) + i], c) == Lookup(ts[k].columns, ts[k].rows[i], c)
    decreases |ts|
  {
    if k == |ts| - 1 {
      ConcatLastCells(ts, k, i, c);
    } else {
      var init := ts[..|ts| - 1];
      if |ts| > 2 && c in ConcatAll(init).columns {
        ConcatAllCells(init, k, i, c);
      }
      ConcatEarlierCells(ts, k, i, c);
    }
  }

  /** One step of the stacking: the tables before the last, stacked, then the last, and
      the rows of the first part number as many as those tables hold. */
  lemma ConcatAllStep(ts: seq<Table>)
    requires |ts| >= 2
    ensures var acc := if |ts| == 2 then ts[0] else ConcatAll(ts[..|ts| - 1]);
      ConcatAll(ts) == Concat(acc, ts[|ts| - 1]) && |acc.rows| == TotalRows(ts[..|ts| - 1])
  {
    if |ts| == 2 {
      assert ts[..1][..0] == [];
    }
  }

  /** The rows of the last table come after all the others, cell for cell. */
  lemma ConcatLastCells(ts: seq<Table>, k: nat, i: nat, c: Column)
    requires |ts| >= 2 && k == |ts| - 1 && i < |ts[k].rows|
    requires c in ConcatAll(ts).columns
    ensures TotalRows(ts[..k]) + i < |ConcatAll(ts).rows|
    ensures Lookup(ConcatAll(ts).columns, ConcatAll(ts).rows[TotalRows(ts[..k]) + i], c) == Lookup(ts[k].columns, ts[k].rows[i], c)
  {
    var acc := if |ts| == 2 then ts[0] else ConcatAll(ts[..|ts| - 1]);
    ConcatAllStep(ts);
    ConcatBack(acc, ts[k], i, c);
  }

  /** A row of a table before the last reads in the whole stack what it reads in the stack
      of the tables before the last. */
  lemma ConcatEarlierCells(ts: seq<Table>, k: nat, i: nat, c: Column)
    requires |ts| >= 2 && k < |ts| - 1 && i < |ts[k].rows|
    requires c in ConcatAll(ts).columns
    requires |ts| > 2 && c in ConcatAll(ts[..|ts| - 1]).columns ==>
      var init := ts[..|ts| - 1];
      TotalRows(init[..k]) + i < |ConcatAll(init).rows| &&
      Lookup(ConcatAll(init).columns, ConcatAll(init).rows[TotalRows(init[..k]) + i], c) == Lookup(init[k].columns, init[k].rows[i], c)
    ensures TotalRows(ts[..k]) + i < |ConcatAll(ts).rows|
    ensures Lookup(ConcatAll(ts).columns, ConcatAll(ts).rows[TotalRows(ts[..k]) + i], c) == Lookup(ts[k].columns, ts[k].rows[i], c)
  {
    if |ts| == 2 {
      assert ts[..k] == [];
      assert ConcatAll(ts) == Concat(ts[0], ts[1]);
      ConcatFront(ts[0], ts[1], i, c);
    } else {
      ConcatDeepCells(ts, k, i, c);
    }
  }

  /** `ConcatEarlierCells` for three or more tables. */
  lemma ConcatDeepCells(ts: seq<Table>, k: nat, i: nat, c: Column)
    requires |ts| > 2 && k < |ts| - 1 && i < |ts[k].rows|
    requires c in ConcatAll(ts).columns
    requires c in ConcatAll(ts[..|ts| - 1]).columns ==>
      var init := ts[..|ts| - 1];
      TotalRows(init[..k]) + i < |ConcatAll(init).rows| &&
      Lookup(ConcatAll(init).columns, ConcatAll(init).rows[TotalRows(init[..k]) + i], c) == Lookup(init[k].columns, init[k].rows[i], c)
    ensures TotalRows(ts[..k]) + i < |ConcatAll(ts).rows|
    ensures Lookup(ConcatAll(ts).columns, ConcatAll(ts).rows[TotalRows(ts[..k]) + i], c) == Lookup(ts[k].columns, ts[k].rows[i], c)
  {
    var init := ts[..|ts| - 1];
    var acc := ConcatAll(init);
    ConcatAllStep(ts);
    TakeTake(ts, |ts| - 1, k);
    TotalRowsPrefix(init, k);
    ConcatAllColumns(init, c);
    ConcatFront(acc, ts[|ts| - 1], TotalRows(ts[..k]) + i, c);
  }

  /** A prefix of a prefix is a prefix. */
  lemma TakeTake<T>(s: seq<T>, n: nat, k: nat)
    requires k < n <= |s|
    ensures s[..n][..k] == s[..k] && s[..n][k] == s[k]
  {
  }

  /** The prefix totals grow with the prefix: the rows before table `k` leave room for its own. */
  lemma {:induction false} TotalRowsPrefix(ts: seq<Table>, k: nat)
    requires k < |ts|
    ensures TotalRows(ts[..k]) + |ts[k].rows| <= TotalRows(ts)
    decreases |ts|
  {
    assert ts[..|ts|][..k] == ts[..k];
    if k < |ts| - 1 {
      var init := ts[..|ts| - 1];
      assert init[..k] == ts[..k] && init[k] == ts[k];
      TotalRowsPrefix(init, k);
    } else {
      assert ts[..|ts| - 1] == ts[..k];
    }
  }

  // ---------------------------------------------------------------- outer join

  /** The join-key cells of a row: the row realigned to the join columns. */
  function KeyOf(cols: seq<Column>, row: Row, on: seq<Column>): seq<Value> {
    Realign(cols, row, on)
  }

  /** The set of join keys occurring in `rows`. */
  function KeysOfRows(cols: seq<Column>, rows: seq<Row>, on: seq<Column>): set<seq<Value>> {
    if |rows| == 0 then {} else {KeyOf(cols, rows[0], on)} + KeysOfRows(cols, rows[1..], on)
  }

  lemma {:induction false} KeysOfRowsAppend(cols: seq<Column>, a: seq<Row>, b: seq<Row>, on: seq<Column>)
    ensures KeysOfRows(cols, a + b, on) == KeysOfRows(cols, a, on) + KeysOfRows(cols, b, on)
  {
    if |a| > 0 {
      KeysOfRowsAppend(cols, a[1..], b, on);
      assert (a + b)[0] == a[0];
      assert (a + b)[1..] == a[1..] + b;
    } else {
      assert a + b == b;
    }
  }

  /** The positions of the columns of `cols` that are not join keys. */
  function NonKeyPositions(cols: seq<Column>, on: seq<Column>, from: nat): (ps: seq<nat>)
    requires from <= |cols|
    ensures forall j :: 0 <= j < |ps| ==> from <= ps[j] < |cols| && cols[ps[j]] !in on
    decreases |cols| - from
  {
    if from == |cols| then []
    else if cols[from] in on then NonKeyPositions(cols, on, from + 1)
    else [from] + NonKeyPositions(cols, on, from + 1)
  }

  /** The header of the right table that the join appends: its non-key columns, in order. */
  function ExtraColumns(r: Table, on: seq<Column>): (e: seq<Column>)
    ensures |e| == |NonKeyPositions(r.columns, on, 0)|
    ensures forall k :: k in on ==> k !in e
  {
    var ps := NonKeyPositions(r.columns, on, 0);
    seq(|ps|, j requires 0 <= j < |ps| => r.columns[ps[j]])
  }

  /** The non-key cells of a right-table row. */
  function ExtraCells(r: Table, row: Row, on: seq<Column>): (e: Row)
    ensures |e| == |NonKeyPositions(r.columns, on, 0)|
  {
    var ps := NonKeyPositions(r.columns, on, 0);
    seq(|ps|, j requires 0 <= j < |ps| => CellAt(row, ps[j]))
  }

  function Nulls(n: nat): (r: Row)
    ensures |r| == n && forall i :: 0 <= i < n ==> r[i] == Null
  {
    seq(n, i => Null)
  }

  /** A row cut or padded to `n` cells. */
  function Pad(row: Row, n: nat): (r: Row)
    ensures |r| == n && forall i :: 0 <= i < n ==> r[i] == CellAt(row, i)
  {
    seq(n, i requires 0 <= i < n => CellAt(row, i))
  }

  /** The header of `l.merge(r, on=on, how="outer")`. */
  function JoinColumns(l: Table, r: Table, on: seq<Column>): seq<Column> {
    l.columns + ExtraColumns(r, on)
  }

  /** The right rows whose key equals the key of the left row `lrow`. */
  function Matching(l: Table, lrow: Row, r: Table, rrows: seq<Row>, on: seq<Column>): (ms: seq<Row>)
    ensures forall j :: 0 <= j < |ms| ==> KeyOf(r.columns, ms[j], on) == KeyOf(l.columns, lrow, on)
    ensures |ms| == 0 <==> KeyOf(l.columns, lrow, on) !in KeysOfRows(r.columns, rrows, on)
  {
    if |rrows| == 0 then []
    else
      var rest := Matching(l, lrow, r, rrows[1..], on);
      if KeyOf(r.columns, rrows[0], on) == KeyOf(l.columns, lrow, on) then [rrows[0]] + rest else rest
  }

  /** The joined rows of one left row: one per matching right row, or the left row with
      missing right cells when nothing matches. */
  function LeftBlock(l: Table, lrow: Row, r: Table, on: seq<Column>): (b: seq<Row>)
    ensures |b| > 0
    ensures forall j :: 0 <= j < |b| ==> |b[j]| == |JoinColumns(l, r, on)|
    ensures forall j :: 0 <= j < |b| ==> Pad(lrow, |l.columns|) <= b[j]
  {
    var ms := Matching(l, lrow, r, r.rows, on);
    var left := Pad(lrow, |l.columns|);
    if |ms| == 0 then [left + Nulls(|ExtraColumns(r, on)|)]
    else seq(|ms|, j requires 0 <= j < |ms| => left + ExtraCells(r, ms[j], on))
  }

  function LeftRows(l: Table, r: Table, on: seq<Column>, lrows: seq<Row>): (out: seq<Row>)
    ensures forall j :: 0 <= j < |out| ==> |out[j]| == |JoinColumns(l, r, on)|
  {
    if |lrows| == 0 then []
    else LeftBlock(l, lrows[0], r, on) + LeftRows(l, r, on, lrows[1..])
  }

  /** The left part of a right-only row: the key cells taken from the right row, every
      other left column missing. */
  function RightKeyCells(l: Table, r: Table, rrow: Row, on: seq<Column>): (k: Row)
    ensures |k| == |l.columns|
  {
    seq(|l.columns|, j requires 0 <= j < |l.columns| =>
      if l.columns[j] in on then Lookup(r.columns, rrow, l.columns[j]) else Null)
  }

  /** The right rows whose key no left row has, completed with missing left cells. */
  function RightOnly(l: Table, r: Table, on: seq<Column>, rrows: seq<Row>): (out: seq<Row>)
    ensures forall j :: 0 <= j < |out| ==> |out[j]| == |JoinColumns(l, r, on)|
  {
    if |rrows| == 0 then []
    else
      var rest := RightOnly(l, r, on, rrows[1..]);
      if KeyOf(r.columns, rrows[0], on) in KeysOfRows(l.columns, l.rows, on) then rest
      else [RightKeyCells(l, r, rrows[0], on) + ExtraCells(r, rrows[0], on)] + rest
  }

  /** The `KeyError` pandas raises for a label a table lacks: the label in quotes. */
  function KeyErrorText(col: string): string {
    "'" + col + "'"
  }

  /** The label `k` names exactly one column, so a join can read its values. */
  predicate Resolves(cols: seq<Column>, k: Column) {
    k in cols && !Repeated(cols, k)
  }

  /** Every join column names exactly one column of the table. */
  predicate HasKeys(t: Table, on: seq<Column>) {
    forall i :: 0 <= i < |on| ==> Resolves(t.columns, on[i])
  }

  /** pandas' resolution of one join column in one table: an absent label raises `KeyError`,
      a label two columns share raises the not-unique `ValueError`. */
  function KeyCheck(cols: seq<Column>, k: Column): (e: Option<string>)
    ensures e.None? <==> Resolves(cols, k)
    ensures k !in cols ==> e == Some(KeyErrorText(k))
    ensures Repeated(cols, k) ==> e == Some(NotUniqueText(k))
  {
    if k !in cols then Some(KeyErrorText(k))
    else if Repeated(cols, k) then Some(NotUniqueText(k))
    else None
  }

  /** What `merge` raises while collecting its join columns: the columns are taken in order,
      and for each one the right table is resolved before the left. */
  function KeyProblem(l: Table, r: Table, on: seq<Column>): (e: Option<string>)
    ensures e.None? <==> HasKeys(l, on) && HasKeys(r, on)
    ensures e.Some? ==> exists i :: 0 <= i < |on| && (e.value == KeyErrorText(on[i]) || e.value == NotUniqueText(on[i]))
    decreases |on|
  {
    if |on| == 0 then None
    else if KeyCheck(r.columns, on[0]).Some? then KeyCheck(r.columns, on[0])
    else if KeyCheck(l.columns, on[0]).Some? then KeyCheck(l.columns, on[0])
    else
      assert forall i :: 1 <= i < |on| ==> on[i] == on[1..][i - 1];
      KeyProblem(l, r, on[1..])
  }

  /** The error of a failed join names the first join column that does not resolve in both
      tables; when the right table is at fault its error wins. */
  lemma {:induction false} KeyProblemFirst(l: Table, r: Table, on: seq<Column>, i: nat)
    requires i < |on| && !(Resolves(l.columns, on[i]) && Resolves(r.columns, on[i]))
    requires forall j :: 0 <= j < i ==> Resolves(l.columns, on[j]) && Resolves(r.columns, on[j])
    ensures on[i] !in r.columns ==> KeyProblem(l, r, on) == Some(KeyErrorText(on[i]))
    ensures Repeated(r.columns, on[i]) ==> KeyProblem(l, r, on) == Some(NotUniqueText(on[i]))
    ensures Resolves(r.columns, on[i]) && on[i] !in l.columns ==> KeyProblem(l, r, on) == Some(KeyErrorText(on[i]))
    ensures Resolves(r.columns, on[i]) && Repeated(l.columns, on[i]) ==> KeyProblem(l, r, on) == Some(NotUniqueText(on[i]))
  {
    if i > 0 {
      assert Resolves(l.columns, on[0]) && Resolves(r.columns, on[0]);
      KeyProblemFirst(l, r, on[1..], i - 1);
    }
  }

  /** A label that resolves in `a` still resolves once labels other than it are appended. */
  lemma ResolvesAppend(a: seq<Column>, b: seq<Column>, k: Column)
    requires Resolves(a, k) && k !in b
    ensures Resolves(a + b, k)
  {
    IndexOfPrefix(a, b, k);
    var i := IndexOf(a, k);
    assert (a + b)[i + 1..] == a[i + 1..] + b;
  }

  /** `l.merge(r, on=on, how="outer")`: raises when a join column is missing or not unique. */
  function OuterJoin(l: Table, r: Table, on: seq<Column>): (res: Result<Table, string>)
    ensures res.Success? <==> HasKeys(l, on) && HasKeys(r, on)
    ensures res.Failure? ==> KeyProblem(l, r, on) == Some(res.error)
    ensures res.Success? ==> WellFormed(res.value) && l.columns <= res.value.columns
  {
    match KeyProblem(l, r, on)
    case Some(e) => Failure(e)
    case None =>
      var cols := JoinColumns(l, r, on);
      var rows := LeftRows(l, r, on, l.rows) + RightOnly(l, r, on, r.rows);
      Success(Table(cols, rows))
  }

  /** In the joined header the key columns sit where they sat in the left header. */
  lemma JoinKeyLookup(l: Table, r: Table, on: seq<Column>, row: Row, k: Column)
    requires k in l.columns && |row| == |JoinColumns(l, r, on)|
    ensures Lookup(JoinColumns(l, r, on), row, k) == row[IndexOf(l.columns, k)]
  {
    IndexOfPrefix(l.columns, ExtraColumns(r, on), k);
  }

  /** A row whose left part is `Pad(lrow)` has the left row's key. */
  lemma LeftPartKey(l: Table, r: Table, on: seq<Column>, row: Row, lrow: Row)
    requires HasKeys(l, on) && |row| == |JoinColumns(l, r, on)|
    requires Pad(lrow, |l.columns|) <= row
    ensures KeyOf(JoinColumns(l, r, on), row, on) == KeyOf(l.columns, lrow, on)
  {
    forall i | 0 <= i < |on|
      ensures Lookup(JoinColumns(l, r, on), row, on[i]) == Lookup(l.columns, lrow, on[i])
    {
      JoinKeyLookup(l, r, on, row, on[i]);
    }
  }

  lemma {:induction false} LeftRowsKeys(l: Table, r: Table, on: seq<Column>, lrows: seq<Row>)
    requires HasKeys(l, on)
    ensures KeysOfRows(JoinColumns(l, r, on), LeftRows(l, r, on, lrows), on) == KeysOfRows(l.columns, lrows, on)
  {
    var cols := JoinColumns(l, r, on);
    if |lrows| > 0 {
      var b := LeftBlock(l, lrows[0], r, on);
      LeftRowsKeys(l, r, on, lrows[1..]);
      KeysOfRowsAppend(cols, b, LeftRows(l, r, on, lrows[1..]), on);
      BlockKeys(l, r, on, lrows[0], b);
    }
  }

  lemma {:induction false} BlockKeys(l: Table, r: Table, on: seq<Column>, lrow: Row, b: seq<Row>)
    requires HasKeys(l, on) && |b| > 0
    requires forall j :: 0 <= j < |b| ==> |b[j]| == |JoinColumns(l, r, on)|
    requires forall j :: 0 <= j < |b| ==> Pad(lrow, |l.columns|) <= b[j]
    ensures KeysOfRows(JoinColumns(l, r, on), b, on) == {KeyOf(l.columns, lrow, on)}
  {
    LeftPartKey(l, r, on, b[0], lrow);
    if |b| > 1 {
      BlockKeys(l, r, on, lrow, b[1..]);
    }
  }

  lemma {:induction false} RightOnlyKeys(l: Table, r: Table, on: seq<Column>, rrows: seq<Row>)
    requires HasKeys(l, on)
    ensures KeysOfRows(JoinColumns(l, r, on), RightOnly(l, r, on, rrows), on)
         == KeysOfRows(r.columns, rrows, on) - KeysOfRows(l.columns, l.rows, on)
  {
    if |rrows| > 0 {
      var cols := JoinColumns(l, r, on);
      var lkeys := KeysOfRows(l.columns, l.rows, on);
      var rest := RightOnly(l, r, on, rrows[1..]);
      RightOnlyKeys(l, r, on, rrows[1..]);
      var k := KeyOf(r.columns, rrows[0], on);
      if k !in lkeys {
        var row := RightKeyCells(l, r, rrows[0], on) + ExtraCells(r, rrows[0], on);
        forall i | 0 <= i < |on| ensures Lookup(cols, row, on[i]) == Lookup(r.columns, rrows[0], on[i]) {
          JoinKeyLookup(l, r, on, row, on[i]);
          assert row[..|l.columns|] == RightKeyCells(l, r, rrows[0], on);
        }
        assert KeyOf(cols, row, on) == k;
        assert RightOnly(l, r, on, rrows) == [row] + rest;
        assert ([row] + rest)[1..] == rest;
      }
    }
  }

  /** The outer join keeps every key of either side and invents none. */
  lemma JoinKeys(l: Table, r: Table, on: seq<Column>)
    requires OuterJoin(l, r, on).Success?
    ensures KeysOfRows(OuterJoin(l, r, on).value.columns, OuterJoin(l, r, on).value.rows, on)
         == KeysOfRows(l.columns, l.rows, on) + KeysOfRows(r.columns, r.rows, on)
  {
    var cols := JoinColumns(l, r, on);
    LeftRowsKeys(l, r, on, l.rows);
    RightOnlyKeys(l, r, on, r.rows);
    KeysOfRowsAppend(cols, LeftRows(l, r, on, l.rows), RightOnly(l, r, on, r.rows), on);
  }

  /** The join keys occurring in any of the tables. */
  function KeysOfTables(ts: seq<Table>, on: seq<Column>): set<seq<Value>> {
    if |ts| == 0 then {}
    else KeysOfRows(ts[0].columns, ts[0].rows, on) + KeysOfTables(ts[1..], on)
  }

  /** `for d in rest: df = df.merge(d, on=on, how="outer")`, starting from `df = acc`. */
  function JoinAll(acc: Table, rest: seq<Table>, on: seq<Column>): (res: Result<Table, string>)
    ensures res.Success? <==> |rest| == 0 || (HasKeys(acc, on) && forall i :: 0 <= i < |rest| ==> HasKeys(rest[i], on))
    ensures res.Failure? ==> exists i :: 0 <= i < |on| && (res.error == KeyErrorText(on[i]) || res.error == NotUniqueText(on[i]))
    ensures res.Success? ==> acc.columns <= res.value.columns
    decreases |rest|
  {
    if |rest| == 0 then Success(acc)
    else
      match OuterJoin(acc, rest[0], on)
      case Failure(e) => Failure(e)
      case Success(next) =>
        assert HasKeys(acc, on) ==> HasKeys(next, on) by {
          forall i | 0 <= i < |on| && HasKeys(acc, on) ensures Resolves(next.columns, on[i]) {
            ResolvesAppend(acc.columns, ExtraColumns(rest[0], on), on[i]);
          }
        }
        assert forall i :: 1 <= i < |rest| ==> rest[i] == rest[1..][i - 1];
        JoinAll(next, rest[1..], on)
  }

  /** Joining a whole group keeps exactly the keys found in any of its tables. */
  lemma {:induction false} JoinAllKeys(acc: Table, rest: seq<Table>, on: seq<Column>)
    requires |rest| >= 1 && JoinAll(acc, rest, on).Success?
    ensures KeysOfRows(JoinAll(acc, rest, on).value.columns, JoinAll(acc, rest, on).value.rows, on)
         == KeysOfRows(acc.columns, acc.rows, on) + KeysOfTables(rest, on)
    decreases |rest|
  {
    var next := OuterJoin(acc, rest[0], on).value;
    JoinKeys(acc, rest[0], on);
    if |rest| > 1 {
      JoinAllKeys(next, rest[1..], on);
    } else {
      assert rest[1..] == [];
    }
  }
}
