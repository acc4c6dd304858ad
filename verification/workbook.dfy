/** `StockFetcher._save`: the layout of one security's workbook. Datasets are grouped by
    sheet in catalogue order, each group is merged into one table and sorted, and the
    market sheets follow. The Excel file itself is not modelled: a workbook is the list of
    sheets written, in order. */
module Workbook {
  import opened Wrappers
  import opened Text
  import opened Tables
  import opened Catalogue
  import opened Market

  /** `sheets[sheet]`: the tables bound for one sheet, in catalogue order. */
  datatype Group = Group(sheet: string, tables: seq<Table>)

  /** One written sheet: its name and its table. */
  datatype Sheet = Sheet(name: string, table: Table)

  /** The sheets written, in order; `failure` holds the exception that stopped the writer,
      after which nothing more was written (the writer still closes the file). */
  datatype Written = Written(sheets: seq<Sheet>, failure: Option<string>)

  /** The columns a multi-dataset daily sheet is outer-joined on. */
  const JoinOn: seq<Column> := ["股票代码", "交易日期"]

  /** The candidate sort columns, in order of preference. */
  const SortKeys: seq<Column> := ["交易日期", "公告日期", "报告期"]

  // ---------------------------------------------------------------- grouping

  /** The position of the group for `sheet`, or `|gs|` when there is none yet. */
  function SheetIndex(gs: seq<Group>, sheet: string): (i: nat)
    ensures i <= |gs|
    ensures i < |gs| ==> gs[i].sheet == sheet
    ensures forall j :: 0 <= j < i ==> gs[j].sheet != sheet
  {
    if |gs| == 0 then 0
    else if gs[0].sheet == sheet then 0
    else 1 + SheetIndex(gs[1..], sheet)
  }

  /** `sheets.setdefault(sheet, []).append(t)` on an insertion-ordered dict. */
  function AddToGroup(gs: seq<Group>, sheet: string, t: Table): seq<Group> {
    var i := SheetIndex(gs, sheet);
    if i < |gs| then gs[i := Group(sheet, gs[i].tables + [t])] else gs + [Group(sheet, [t])]
  }

  /** The grouping loop of `_save`: every catalogue entry whose dataset is present adds
      that dataset to its sheet's group. */
  function Groups(cat: seq<Entry>, data: map<string, Table>): (gs: seq<Group>)
    ensures forall i :: 0 <= i < |gs| ==> |gs[i].tables| >= 1
    decreases |cat|
  {
    if |cat| == 0 then []
    else
      var e := cat[|cat| - 1];
      var gs := Groups(cat[..|cat| - 1], data);
      if e.name in data then AddToGroup(gs, e.sheet, data[e.name]) else gs
  }

  /** The sheet of every present dataset, in catalogue order, repeats included. */
  function PresentSheets(cat: seq<Entry>, data: map<string, Table>): seq<string>
    decreases |cat|
  {
    if |cat| == 0 then []
    else
      var e := cat[|cat| - 1];
      PresentSheets(cat[..|cat| - 1], data) + (if e.name in data then [e.sheet] else [])
  }

  predicate Distinct(s: seq<string>) {
    forall i, j :: 0 <= i < j < |s| ==> s[i] != s[j]
  }

  /** Each string at its first occurrence, in order. */
  function FirstOccurrences(s: seq<string>): (r: seq<string>)
    ensures forall x :: x in r <==> x in s
    ensures Distinct(r)
    decreases |s|
  {
    if |s| == 0 then []
    else
      var init := s[..|s| - 1];
      var r := FirstOccurrences(init);
      assert s == init + [s[|s| - 1]];
      if s[|s| - 1] in r then r else r + [s[|s| - 1]]
  }

  /** The present datasets bound for `sheet`, in catalogue order. */
  function TablesFor(cat: seq<Entry>, data: map<string, Table>, sheet: string): seq<Table>
    decreases |cat|
  {
    if |cat| == 0 then []
    else
      var e := cat[|cat| - 1];
      TablesFor(cat[..|cat| - 1], data, sheet) + (if e.name in data && e.sheet == sheet then [data[e.name]] else [])
  }

  /** The groups are the sheets of the present datasets in order of first appearance in the
      catalogue, each holding exactly the present datasets of that sheet in catalogue order. */
  lemma {:induction false} GroupsFollowCatalogue(cat: seq<Entry>, data: map<string, Table>)
    ensures var gs := Groups(cat, data); var names := FirstOccurrences(PresentSheets(cat, data));
      |gs| == |names| &&
      forall i :: 0 <= i < |gs| ==> gs[i].sheet == names[i] && gs[i].tables == TablesFor(cat, data, names[i])
    decreases |cat|
  {
    if |cat| > 0 {
      var init := cat[..|cat| - 1];
      var e := cat[|cat| - 1];
      GroupsFollowCatalogue(init, data);
      if e.name in data {
        if SheetIndex(Groups(init, data), e.sheet) < |Groups(init, data)| {
          GroupsJoinSheet(cat, data);
        } else {
          GroupsOpenSheet(cat, data);
        }
      } else {
        assert PresentSheets(cat, data) == PresentSheets(init, data);
      }
    }
  }

  /** The inductive step when the last present dataset joins a sheet already grouped. */
  lemma GroupsJoinSheet(cat: seq<Entry>, data: map<string, Table>)
    requires |cat| > 0 && cat[|cat| - 1].name in data
    requires var init := cat[..|cat| - 1]; var gs0 := Groups(init, data); var names0 := FirstOccurrences(PresentSheets(init, data));
      SheetIndex(gs0, cat[|cat| - 1].sheet) < |gs0| && |gs0| == |names0| &&
      forall i :: 0 <= i < |gs0| ==> gs0[i].sheet == names0[i] && gs0[i].tables == TablesFor(init, data, names0[i])
    ensures var gs := Groups(cat, data); var names := FirstOccurrences(PresentSheets(cat, data));
      |gs| == |names| &&
      forall i :: 0 <= i < |gs| ==> gs[i].sheet == names[i] && gs[i].tables == TablesFor(cat, data, names[i])
  {
    var init := cat[..|cat| - 1];
    var e := cat[|cat| - 1];
    var gs0 := Groups(init, data);
    var names0 := FirstOccurrences(PresentSheets(init, data));
    var gs := Groups(cat, data);
    var names := FirstOccurrences(PresentSheets(cat, data));
    var ps := PresentSheets(cat, data);
    var ps0 := PresentSheets(init, data);
    assert ps == ps0 + [e.sheet];
    assert ps[..|ps| - 1] == ps0;
    var i := SheetIndex(gs0, e.sheet);
    assert e.sheet in names0 by { assert names0[i] == e.sheet; }
    assert names == names0;
    forall j | 0 <= j < |gs| ensures gs[j].sheet == names[j] && gs[j].tables == TablesFor(cat, data, names[j]) {
      if j != i {
        assert names0[j] != names0[i];
      }
    }
  }

  /** The inductive step when the last present dataset opens a new sheet. */
  lemma GroupsOpenSheet(cat: seq<Entry>, data: map<string, Table>)
    requires |cat| > 0 && cat[|cat| - 1].name in data
    requires var init := cat[..|cat| - 1]; var gs0 := Groups(init, data); var names0 := FirstOccurrences(PresentSheets(init, data));
      SheetIndex(gs0, cat[|cat| - 1].sheet) == |gs0| && |gs0| == |names0| &&
      forall i :: 0 <= i < |gs0| ==> gs0[i].sheet == names0[i] && gs0[i].tables == TablesFor(init, data, names0[i])
    ensures var gs := Groups(cat, data); var names := FirstOccurrences(PresentSheets(cat, data));
      |gs| == |names| &&
      forall i :: 0 <= i < |gs| ==> gs[i].sheet == names[i] && gs[i].tables == TablesFor(cat, data, names[i])
  {
    var init := cat[..|cat| - 1];
    var e := cat[|cat| - 1];
    var gs0 := Groups(init, data);
    var names0 := FirstOccurrences(PresentSheets(init, data));
    var gs := Groups(cat, data);
    var names := FirstOccurrences(PresentSheets(cat, data));
    var ps := PresentSheets(cat, data);
    var ps0 := PresentSheets(init, data);
    assert ps == ps0 + [e.sheet];
    assert ps[..|ps| - 1] == ps0;
    assert e.sheet !in names0 by {
      forall j | 0 <= j < |names0| ensures names0[j] != e.sheet {
        assert gs0[j].sheet == names0[j];
      }
    }
    assert names == names0 + [e.sheet];
    forall j | 0 <= j < |gs| ensures gs[j].sheet == names[j] && gs[j].tables == TablesFor(cat, data, names[j]) {
      if j < |gs0| {
        assert names0[j] != e.sheet;
      } else {
        assert TablesFor(init, data, e.sheet) == [] by {
          if TablesFor(init, data, e.sheet) != [] {
            TablesForMeansPresent(init, data, e.sheet);
          }
        }
      }
    }
  }

  /** A sheet with a present dataset is among the present sheets. */
  lemma {:induction false} TablesForMeansPresent(cat: seq<Entry>, data: map<string, Table>, sheet: string)
    requires TablesFor(cat, data, sheet) != []
    ensures sheet in FirstOccurrences(PresentSheets(cat, data))
    decreases |cat|
  {
    var init := cat[..|cat| - 1];
    var e := cat[|cat| - 1];
    assert PresentSheets(init, data) <= PresentSheets(cat, data);
    if e.name in data && e.sheet == sheet {
      assert PresentSheets(cat, data)[|PresentSheets(cat, data)| - 1] == sheet;
    } else {
      TablesForMeansPresent(init, data, sheet);
    }
  }

  // ---------------------------------------------------------------- one sheet

  /** The table written for a group: a single dataset as it is; several datasets of a daily
      (`日线`) sheet outer-joined one after another on stock code and trade date; several
      datasets of any other sheet stacked row-wise. */
  function MergeGroup(g: Group): (r: Result<Table, string>)
    requires |g.tables| >= 1
    ensures |g.tables| == 1 ==> r == Success(g.tables[0])
    ensures |g.tables| > 1 && !Contains(g.sheet, "日线") ==>
      r.Success? && WellFormed(r.value) && |r.value.rows| == TotalRows(g.tables)
    ensures |g.tables| > 1 && Contains(g.sheet, "日线") ==>
      (r.Success? <==> forall i :: 0 <= i < |g.tables| ==> HasKeys(g.tables[i], JoinOn))
    ensures r.Failure? ==>
      exists i :: 0 <= i < |JoinOn| && (r.error == KeyErrorText(JoinOn[i]) || r.error == NotUniqueText(JoinOn[i]))
    ensures |g.tables| > 1 && Contains(g.sheet, "日线") && r.Success? ==>
      KeysOfRows(r.value.columns, r.value.rows, JoinOn) == KeysOfTables(g.tables, JoinOn)
  {
    if |g.tables| == 1 then Success(g.tables[0])
    else if Contains(g.sheet, "日线") then
      var r := JoinAll(g.tables[0], g.tables[1..], JoinOn);
      AllHaveKeys(g.tables, JoinOn);
      if r.Success? then JoinAllKeys(g.tables[0], g.tables[1..], JoinOn); r else r
    else
      Success(ConcatAll(g.tables))
  }

  /** Every table of a group carries the join columns iff the first and all the rest do. */
  lemma AllHaveKeys(ts: seq<Table>, on: seq<Column>)
    requires |ts| >= 1
    ensures (forall i :: 0 <= i < |ts| ==> HasKeys(ts[i], on)) <==>
      HasKeys(ts[0], on) && forall i :: 0 <= i < |ts[1..]| ==> HasKeys(ts[1..][i], on)
  {
    assert forall i :: 1 <= i < |ts| ==> ts[i] == ts[1..][i - 1];
  }

  /** In a stacked (non-daily) sheet, row `i` of dataset `k` follows the rows of the
      datasets before it and keeps every value under its label. */
  lemma MergeGroupCells(g: Group, k: nat, i: nat, c: Column)
    requires |g.tables| > 1 && !Contains(g.sheet, "日线")
    requires k < |g.tables| && i < |g.tables[k].rows|
    requires c in ConcatAll(g.tables).columns
    ensures MergeGroup(g).Success?
    ensures var t := MergeGroup(g).value;
      TotalRows(g.tables[..k]) + i < |t.rows| && c in t.columns &&
      Lookup(t.columns, t.rows[TotalRows(g.tables[..k]) + i], c) == Lookup(g.tables[k].columns, g.tables[k].rows[i], c)
  {
    ConcatAllCells(g.tables, k, i, c);
  }

  /** The first of `keys` that is a column of `cols`. */
  function SortColumn(cols: seq<Column>, keys: seq<Column>): (c: Option<Column>)
    ensures c.Some? ==> c.value in cols && c.value in keys
    ensures c.Some? ==> forall k :: 0 <= k < IndexOf(keys, c.value) ==> keys[k] !in cols
    ensures c.None? <==> forall k :: 0 <= k < |keys| ==> keys[k] !in cols
    decreases |keys|
  {
    if |keys| == 0 then None
    else if keys[0] in cols then Some(keys[0])
    else
      var c := SortColumn(cols, keys[1..]);
      assert forall k :: 1 <= k < |keys| ==> keys[k] == keys[1..][k - 1];
      c
  }

  /** The sort of `_save`: newest first by the first of trade date, announcement date and
      report period that the table has; the table unchanged when it has none of them. The
      sort raises when that label names two columns. */
  function SortSheet(t: Table): (r: Result<Table, string>)
    ensures SortColumn(t.columns, SortKeys).None? ==> r == Success(t)
    ensures SortColumn(t.columns, SortKeys).Some? ==> var c := SortColumn(t.columns, SortKeys).value;
      && (r.Failure? <==> Repeated(t.columns, c))
      && (r.Failure? ==> r.error == NotUniqueText(c))
      && (r.Success? ==> r.value.columns == t.columns && multiset(r.value.rows) == multiset(t.rows))
      && (r.Success? ==> SortedDesc(r.value.rows, IndexOf(t.columns, c)))
  {
    match SortColumn(t.columns, SortKeys)
    case Some(c) => SortBy(t, c)
    case None => Success(t)
  }

  // ---------------------------------------------------------------- the workbook

  /** One catalogue sheet: the merged table, sorted, or the error the merge or the sort
      raised. */
  function WriteSheet(g: Group): (r: Result<Sheet, string>)
    requires |g.tables| >= 1
    ensures MergeGroup(g).Failure? ==> r == Failure(MergeGroup(g).error)
    ensures MergeGroup(g).Success? ==> var sorted := SortSheet(MergeGroup(g).value);
      (r.Success? <==> sorted.Success?) &&
      (r.Success? ==> r.value == Sheet(g.sheet, sorted.value)) &&
      (r.Failure? ==> r.error == sorted.error)
  {
    match MergeGroup(g)
    case Failure(e) => Failure(e)
    case Success(t) =>
      match SortSheet(t)
      case Success(u) => Success(Sheet(g.sheet, u))
      case Failure(e) => Failure(e)
  }

  /** Writing sheet after sheet until one raises: the sheets written are exactly those
      before the first failure, and the failure is that sheet's error. */
  function WriteAll(rs: seq<Result<Sheet, string>>): (w: Written)
    ensures w.failure.None? <==> forall i :: 0 <= i < |rs| ==> rs[i].Success?
    ensures w.failure.None? ==> |w.sheets| == |rs|
    ensures |w.sheets| <= |rs|
    ensures forall k :: 0 <= k < |w.sheets| ==> rs[k] == Success(w.sheets[k])
    ensures w.failure.Some? ==> |w.sheets| < |rs| && rs[|w.sheets|] == Failure(w.failure.value)
    decreases |rs|
  {
    if |rs| == 0 then Written([], None)
    else
      match rs[0]
      case Failure(e) => Written([], Some(e))
      case Success(s) =>
        var rest := WriteAll(rs[1..]);
        var w := Written([s] + rest.sheets, rest.failure);
        assert forall i :: 1 <= i < |rs| ==> rs[i] == rs[1..][i - 1];
        assert forall k :: 1 <= k < |w.sheets| ==> w.sheets[k] == rest.sheets[k - 1];
        w
  }

  /** The catalogue sheets, written group by group until a merge raises. */
  function WriteGroups(gs: seq<Group>): (w: Written)
    requires forall i :: 0 <= i < |gs| ==> |gs[i].tables| >= 1
    ensures w.failure.None? <==> forall i :: 0 <= i < |gs| ==> WriteSheet(gs[i]).Success?
    ensures w.failure.None? ==> |w.sheets| == |gs|
    ensures |w.sheets| <= |gs|
    ensures forall k :: 0 <= k < |w.sheets| ==> WriteSheet(gs[k]) == Success(w.sheets[k])
    ensures w.failure.Some? ==> |w.sheets| < |gs| && WriteSheet(gs[|w.sheets|]) == Failure(w.failure.value)
  {
    var rs := seq(|gs|, i requires 0 <= i < |gs| => WriteSheet(gs[i]));
    assert forall i :: 0 <= i < |gs| ==> rs[i] == WriteSheet(gs[i]);
    WriteAll(rs)
  }

  /** The market sheets, in `SHEET_NAMES` order, each only when present and non-empty. */
  function MarketSheetsFrom(names: seq<(string, string)>, market: Cache): (s: seq<Sheet>)
    ensures |s| <= |names|
    ensures forall k :: 0 <= k < |s| ==> !IsEmpty(s[k].table)
    ensures s == [] <==> forall i :: 0 <= i < |names| ==> names[i].0 !in market || IsEmpty(market[names[i].0])
    decreases |names|
  {
    if |names| == 0 then []
    else
      var rest := MarketSheetsFrom(names[1..], market);
      assert forall i :: 1 <= i < |names| ==> names[i] == names[1..][i - 1];
      var (api, sheet) := names[0];
      if api in market && !IsEmpty(market[api]) then [Sheet(sheet, market[api])] + rest else rest
  }

  /** The `IndexError` openpyxl raises when it saves a workbook that holds no sheet. */
  const NoVisibleSheetText: string := "At least one sheet must be visible"

  /** `_save`: the catalogue sheets, then, if no merge raised, the market sheets. Leaving the
      `with` block closes the writer, which saves the workbook; when no sheet was written that
      save raises, and its error replaces any error raised inside the block. */
  function Save(cat: seq<Entry>, data: map<string, Table>, market: Cache): (w: Written)
    ensures var body := WriteGroups(Groups(cat, data));
      && body.sheets <= w.sheets
      && (w.failure.None? ==> w.sheets == body.sheets + MarketSheetsFrom(MarketSheets, market))
      && (w.failure.Some? ==> w.sheets == body.sheets)
      && (w.sheets != [] ==> w.failure == body.failure)
    ensures w.sheets == [] ==> w.failure == Some(NoVisibleSheetText)
  {
    var body := WriteGroups(Groups(cat, data));
    var inBlock := if body.failure.Some? then body else Written(body.sheets + MarketSheetsFrom(MarketSheets, market), None);
    if inBlock.sheets == [] then Written([], Some(NoVisibleSheetText)) else inBlock
  }

  /** When the first sheet group's merge or sort raises, the save reports the closing
      writer's error, not the merge's or the sort's. */
  lemma SaveFirstGroupRaises(cat: seq<Entry>, data: map<string, Table>, market: Cache)
    requires |Groups(cat, data)| > 0 && WriteSheet(Groups(cat, data)[0]).Failure?
    ensures Save(cat, data, market) == Written([], Some(NoVisibleSheetText))
  {
    var body := WriteGroups(Groups(cat, data));
    assert |body.sheets| == 0;
  }

  /** `code` with every `.` replaced by `_`. */
  function ReplaceDots(code: string): (r: string)
    ensures |r| == |code| && '.' !in r
    ensures forall i :: 0 <= i < |code| ==> r[i] == if code[i] == '.' then '_' else code[i]
  {
    seq(|code|, i requires 0 <= i < |code| => if code[i] == '.' then '_' else code[i])
  }

  /** `f'{code.replace(".", "_")}_{today}.xlsx'`: the code with its dots made underscores,
      an underscore, the date, and the Excel extension. */
  function FileName(code: string, today: string): (f: string)
    ensures |f| == |code| + |today| + 6
    ensures f[..|code|] == ReplaceDots(code) && f[|code|] == '_'
    ensures f[|code| + 1..|f| - 5] == today && f[|f| - 5..] == ".xlsx"
    ensures '.' !in f[..|code|]
  {
    var r := ReplaceDots(code);
    var f := r + "_" + today + ".xlsx";
    assert f[..|code|] == r;
    assert f[|code| + 1..|f| - 5] == today;
    f
  }
}
