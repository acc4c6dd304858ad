/** `StockFetcher`: per-security assembly of the catalogue datasets and the batch loop
    over a list of securities. Worker threads are modelled as running one security after
    another in list order; the lock-guarded counter is a plain parameter. */
module Stocks {
  import opened Wrappers
  import opened Text
  import opened Tables
  import opened Catalogue
  import opened Upstream
  import opened Market
  import opened Events
  import opened Workbook

  /** The endpoint names of a catalogue, in order. */
  function NamesOf(cat: seq<Entry>): (ns: seq<string>)
    ensures |ns| == |cat|
    ensures forall i :: 0 <= i < |cat| ==> ns[i] == cat[i].name
  {
    seq(|cat|, i requires 0 <= i < |cat| => cat[i].name)
  }

  /** None of the catalogue's endpoints is the benchmark index's daily endpoint. */
  lemma InterfacesOmitIndexDaily()
    ensures "index_daily" !in NamesOf(Interfaces)
  {
  }

  // ---------------------------------------------------------------- one endpoint

  predicate KnownMode(mode: string) {
    mode == "simple" || mode == "date" || mode == "market"
  }

  /** The keyword arguments each query mode passes: security-wide endpoints take the
      security, date-ranged ones the window, market-wide ones the window but no security. */
  function Keywords(mode: string): set<string> {
    if mode == "simple" then {"ts_code", "fields"}
    else if mode == "date" then {"ts_code", "start_date", "end_date", "fields"}
    else if mode == "market" then {"start_date", "end_date", "fields"}
    else {}
  }

  /** The value passed for keyword `k`. */
  function ArgValue(k: string, e: Entry, code: string, start: string, end: string): string {
    if k == "ts_code" then code
    else if k == "start_date" then start
    else if k == "end_date" then end
    else e.fields
  }

  /** The provider call `_api` makes for an entry; none for an unknown mode. */
  function ApiCall(e: Entry, code: string, start: string, end: string): (c: Option<Call>)
    ensures c.Some? <==> KnownMode(e.mode)
    ensures c.Some? ==> c.value.api == e.name
  {
    if e.mode == "simple" then
      Some(Call(e.name, map["ts_code" := code, "fields" := e.fields]))
    else if e.mode == "date" then
      Some(Call(e.name, map["ts_code" := code, "start_date" := start, "end_date" := end, "fields" := e.fields]))
    else if e.mode == "market" then
      Some(Call(e.name, map["start_date" := start, "end_date" := end, "fields" := e.fields]))
    else None
  }

  /** `_api`: the provider's reply (`None` included), or an empty table when the provider
      raised or the mode is unknown. */
  function Api(p: Provider, e: Entry, code: string, start: string, end: string): (r: Option<Table>)
    ensures !KnownMode(e.mode) ==> r == Some(EmptyTable)
  {
    match ApiCall(e, code, start, end)
    case None => Some(EmptyTable)
    case Some(c) =>
      match p(c)
      case Rows(t) => Some(t)
      case NoneReply => None
      case Raises(_) => Some(EmptyTable)
  }

  /** What `_fetch_one` keeps of one endpoint: the table under display labels, when the
      provider gave a non-empty one. */
  function Fetched(p: Provider, labels: Labels, e: Entry, code: string, start: string, end: string): (r: Option<Table>)
    ensures r.Some? ==> !IsEmpty(r.value)
  {
    match Api(p, e, code, start, end)
    case Some(t) => if IsEmpty(t) then None else Some(Rename(t, labels.fields))
    case None => None
  }

  /** The keyword arguments of an endpoint's call are exactly those of its mode, each
      carrying the security, the window or the field list. */
  lemma ApiCallArguments(e: Entry, code: string, start: string, end: string)
    requires KnownMode(e.mode)
    ensures var c := ApiCall(e, code, start, end).value;
      c.args.Keys == Keywords(e.mode) && forall k :: k in c.args ==> c.args[k] == ArgValue(k, e, code, start, end)
  {
  }

  /** How `_api` turns the provider's reply into its result, and what `_fetch_one` keeps:
      a table is kept, relabelled, exactly when the mode is known and the provider answered
      with a non-empty table; `None`, an exception and an unknown mode all keep nothing. */
  lemma FetchedFromReply(p: Provider, labels: Labels, e: Entry, code: string, start: string, end: string)
    ensures KnownMode(e.mode) ==>
      var reply := p(ApiCall(e, code, start, end).value);
      var r := Api(p, e, code, start, end);
      (reply.Rows? ==> r == Some(reply.table)) &&
      (reply.NoneReply? ==> r == None) &&
      (reply.Raises? ==> r == Some(EmptyTable))
    ensures var r := Fetched(p, labels, e, code, start, end);
      (r.Some? <==> KnownMode(e.mode) && p(ApiCall(e, code, start, end).value).Rows? &&
                    !IsEmpty(p(ApiCall(e, code, start, end).value).table)) &&
      (r.Some? ==> r.value == Rename(p(ApiCall(e, code, start, end).value).table, labels.fields))
  {
  }

  /** The calls the catalogue loop makes for one security: one per entry of known mode,
      in catalogue order, whatever the provider answers. */
  function CatalogueCalls(cat: seq<Entry>, code: string, start: string, end: string): (cs: seq<Call>)
    ensures |cs| <= |cat|
    ensures forall k :: 0 <= k < |cs| ==> cs[k].api in NamesOf(cat)
    decreases |cat|
  {
    if |cat| == 0 then []
    else
      var rest := CatalogueCalls(cat[1..], code, start, end);
      assert NamesOf(cat) == [cat[0].name] + NamesOf(cat[1..]);
      match ApiCall(cat[0], code, start, end)
      case Some(c) => [c] + rest
      case None => rest
  }

  /** The calls for a catalogue in two parts are those of the first part, then those of the
      second. */
  lemma {:induction false} CatalogueCallsAppend(a: seq<Entry>, b: seq<Entry>, code: string, start: string, end: string)
    ensures CatalogueCalls(a + b, code, start, end) == CatalogueCalls(a, code, start, end) + CatalogueCalls(b, code, start, end)
    decreases |a|
  {
    if |a| == 0 {
      assert a + b == b;
    } else {
      assert (a + b)[0] == a[0] && (a + b)[1..] == a[1..] + b;
      CatalogueCallsAppend(a[1..], b, code, start, end);
    }
  }

  /** A single entry calls its endpoint once when its mode is known, and not at all
      otherwise. */
  lemma CatalogueCallsOne(e: Entry, code: string, start: string, end: string)
    ensures CatalogueCalls([e], code, start, end) == if KnownMode(e.mode) then [ApiCall(e, code, start, end).value] else []
  {
    assert [e][1..] == [];
  }

  /** `_api`'s warning for an endpoint whose call raised: `f"  {code} {name}: {e}"`. */
  function ApiWarning(code: string, name: string, text: string): string {
    "  " + code + " " + name + ": " + text
  }

  /** The warnings the catalogue loop logs for one security, in catalogue order: one for
      each endpoint of known mode whose call raised. */
  function ApiWarnings(p: Provider, cat: seq<Entry>, code: string, start: string, end: string): (w: seq<string>)
    ensures |w| <= |cat|
    decreases |cat|
  {
    if |cat| == 0 then []
    else
      var rest := ApiWarnings(p, cat[1..], code, start, end);
      match ApiCall(cat[0], code, start, end)
      case Some(c) => if p(c).Raises? then [ApiWarning(code, cat[0].name, p(c).message)] + rest else rest
      case None => rest
  }

  /** The calls among `cs` whose reply is an exception. */
  function Raising(p: Provider, cs: seq<Call>): (r: seq<Call>)
    ensures forall k :: 0 <= k < |r| ==> p(r[k]).Raises?
  {
    if |cs| == 0 then [] else (if p(cs[0]).Raises? then [cs[0]] else []) + Raising(p, cs[1..])
  }

  /** There is one warning per catalogue call that raised, each naming the endpoint and
      carrying the exception's full text. */
  lemma {:induction false} ApiWarningsRaised(p: Provider, cat: seq<Entry>, code: string, start: string, end: string)
    ensures var w := ApiWarnings(p, cat, code, start, end);
      var bad := Raising(p, CatalogueCalls(cat, code, start, end));
      |w| == |bad| && forall k :: 0 <= k < |w| ==> w[k] == ApiWarning(code, bad[k].api, p(bad[k]).message)
    decreases |cat|
  {
    if |cat| > 0 {
      ApiWarningsRaised(p, cat[1..], code, start, end);
      var rest := CatalogueCalls(cat[1..], code, start, end);
      match ApiCall(cat[0], code, start, end)
      case Some(c) =>
        assert ([c] + rest)[0] == c && ([c] + rest)[1..] == rest;
      case None =>
    }
  }

  // ---------------------------------------------------------------- one security

  /** `f"{sheet[3:]}:{len(df)}"`: the sheet name without its two-digit prefix and the
      underscore, and the row count. */
  function InfoItem(sheet: string, rows: nat): string {
    (if |sheet| >= 3 then sheet[3..] else "") + ":" + NatToString(rows)
  }

  /** The catalogue loop's result: the kept datasets by endpoint, the summary items and the
      total row count `sum(len(d) for d in data.values())`. */
  datatype Collected = Collected(data: map<string, Table>, info: seq<string>, count: nat)

  /** What the catalogue loop gets for each entry, in catalogue order. */
  function Slots(p: Provider, cat: seq<Entry>, labels: Labels, code: string, start: string, end: string): (s: seq<Option<Table>>)
    ensures |s| == |cat|
  {
    seq(|cat|, i requires 0 <= i < |cat| => Fetched(p, labels, cat[i], code, start, end))
  }

  /** The well-formed slot sequences of a catalogue. */
  predicate SlotsFit(cat: seq<Entry>, slots: seq<Option<Table>>) {
    |slots| == |cat| && forall i :: 0 <= i < |slots| && slots[i].Some? ==> !IsEmpty(slots[i].value)
  }

  lemma TailFits(cat: seq<Entry>, slots: seq<Option<Table>>)
    requires SlotsFit(cat, slots) && |cat| > 0
    ensures SlotsFit(cat[1..], slots[1..])
  {
    assert forall i :: 0 <= i < |slots[1..]| ==> slots[1..][i] == slots[i + 1];
  }

  /** The catalogue loop of `_fetch_one` over what each entry got: every entry whose table
      came back non-empty adds a summary item and (re)binds its endpoint name, a later entry
      of the same name winning. */
  function Collect(cat: seq<Entry>, slots: seq<Option<Table>>): (c: Collected)
    requires SlotsFit(cat, slots)
    ensures forall n :: n in c.data ==> !IsEmpty(c.data[n])
    ensures |c.info| >= |c.data|
    ensures c.info == [] <==> |c.data| == 0
    ensures c.count >= |c.data|
    ensures c.count == 0 <==> |c.data| == 0
    decreases |cat|
  {
    if |cat| == 0 then Collected(map[], [], 0)
    else
      TailFits(cat, slots);
      var rest := Collect(cat[1..], slots[1..]);
      var n := cat[0].name;
      match slots[0]
      case None => rest
      case Some(t) =>
        var item := InfoItem(cat[0].sheet, |t.rows|);
        if n in rest.data then Collected(rest.data, [item] + rest.info, rest.count)
        else Collected(rest.data[n := t], [item] + rest.info, |t.rows| + rest.count)
  }

  /** The rows of the datasets `m` holds under `keys`, summed in any order. */
  ghost function SumRows(m: map<string, Table>, keys: set<string>): nat
    requires keys <= m.Keys
    decreases keys
  {
    if keys == {} then 0
    else
      var k :| k in keys;
      |m[k].rows| + SumRows(m, keys - {k})
  }

  /** `sum(len(d) for d in data.values())`: the rows of all kept datasets. */
  ghost function MapRows(m: map<string, Table>): nat {
    SumRows(m, m.Keys)
  }

  /** The sum does not depend on the order the datasets are visited in. */
  lemma {:induction false} SumRowsRemove(m: map<string, Table>, keys: set<string>, k: string)
    requires keys <= m.Keys && k in keys
    ensures SumRows(m, keys) == |m[k].rows| + SumRows(m, keys - {k})
    decreases keys
  {
    var j :| j in keys && SumRows(m, keys) == |m[j].rows| + SumRows(m, keys - {j});
    if j != k {
      SumRowsRemove(m, keys - {j}, k);
      SumRowsRemove(m, keys - {k}, j);
      assert keys - {j} - {k} == keys - {k} - {j};
    }
  }

  /** The sum reads only the datasets under the keys summed. */
  lemma {:induction false} SumRowsSame(m1: map<string, Table>, m2: map<string, Table>, keys: set<string>)
    requires keys <= m1.Keys && keys <= m2.Keys
    requires forall k :: k in keys ==> m1[k] == m2[k]
    ensures SumRows(m1, keys) == SumRows(m2, keys)
    decreases keys
  {
    if keys != {} {
      var k :| k in keys;
      SumRowsRemove(m1, keys, k);
      SumRowsRemove(m2, keys, k);
      SumRowsSame(m1, m2, keys - {k});
    }
  }

  /** Binding a new dataset adds its rows to the sum. */
  lemma MapRowsInsert(m: map<string, Table>, n: string, t: Table)
    requires n !in m
    ensures MapRows(m[n := t]) == MapRows(m) + |t.rows|
  {
    var m2 := m[n := t];
    SumRowsRemove(m2, m2.Keys, n);
    assert m2.Keys - {n} == m.Keys;
    SumRowsSame(m2, m, m.Keys);
  }

  /** The row count a security reports is the sum of the rows of the datasets it keeps: a
      dataset replaced by a later entry of the same name is not counted. */
  lemma {:induction false} CollectCount(cat: seq<Entry>, slots: seq<Option<Table>>)
    requires SlotsFit(cat, slots)
    ensures Collect(cat, slots).count == MapRows(Collect(cat, slots).data)
    decreases |cat|
  {
    if |cat| > 0 {
      TailFits(cat, slots);
      var rest := Collect(cat[1..], slots[1..]);
      CollectCount(cat[1..], slots[1..]);
      if slots[0].Some? && cat[0].name !in rest.data {
        MapRowsInsert(rest.data, cat[0].name, slots[0].value);
      }
    }
  }

  /** How many entries got a table. */
  function CountSome(slots: seq<Option<Table>>): (n: nat)
    ensures n <= |slots|
  {
    if |slots| == 0 then 0 else (if slots[0].Some? then 1 else 0) + CountSome(slots[1..])
  }

  /** There is one summary item per entry that got a table. */
  lemma {:induction false} CollectInfoLength(cat: seq<Entry>, slots: seq<Option<Table>>)
    requires SlotsFit(cat, slots)
    ensures |Collect(cat, slots).info| == CountSome(slots)
    decreases |cat|
  {
    if |cat| > 0 {
      TailFits(cat, slots);
      CollectInfoLength(cat[1..], slots[1..]);
    }
  }

  /** The entry at position `i` that got a table contributes the summary item at the
      position given by the entries before it that got one: the items follow catalogue
      order, repeated names included. */
  lemma {:induction false} CollectInfoAt(cat: seq<Entry>, slots: seq<Option<Table>>, i: nat)
    requires SlotsFit(cat, slots)
    requires i < |cat| && slots[i].Some?
    ensures var info := Collect(cat, slots).info;
      CountSome(slots[..i]) < |info| && info[CountSome(slots[..i])] == InfoItem(cat[i].sheet, |slots[i].value.rows|)
    decreases i
  {
    TailFits(cat, slots);
    CollectInfoLength(cat, slots);
    if i > 0 {
      CollectInfoAt(cat[1..], slots[1..], i - 1);
      assert slots[..i][1..] == slots[1..][..i - 1];
      assert cat[1..][i - 1] == cat[i] && slots[1..][i - 1] == slots[i];
    } else {
      assert slots[..0] == [];
    }
  }

  /** The slots of one security: every kept table is non-empty. */
  lemma SlotsNonEmpty(p: Provider, cat: seq<Entry>, labels: Labels, code: string, start: string, end: string)
    ensures SlotsFit(cat, Slots(p, cat, labels, code, start, end))
  {
  }

  /** Only catalogue endpoints are kept. */
  lemma {:induction false} CollectNamed(cat: seq<Entry>, slots: seq<Option<Table>>)
    requires SlotsFit(cat, slots)
    ensures forall n :: n in Collect(cat, slots).data ==> n in NamesOf(cat)
    decreases |cat|
  {
    if |cat| > 0 {
      TailFits(cat, slots);
      CollectNamed(cat[1..], slots[1..]);
      assert NamesOf(cat) == [cat[0].name] + NamesOf(cat[1..]);
    }
  }

  /** An endpoint whose table came back non-empty is kept under its name. */
  lemma {:induction false} CollectHas(cat: seq<Entry>, slots: seq<Option<Table>>, i: nat)
    requires SlotsFit(cat, slots)
    requires i < |cat| && slots[i].Some?
    ensures cat[i].name in Collect(cat, slots).data
    decreases i
  {
    TailFits(cat, slots);
    var rest := Collect(cat[1..], slots[1..]);
    if i > 0 {
      CollectHas(cat[1..], slots[1..], i - 1);
      assert cat[1..][i - 1] == cat[i];
    }
  }

  /** No two catalogue entries share an endpoint name. */
  predicate UniqueNames(cat: seq<Entry>) {
    forall i, j :: 0 <= i < j < |cat| ==> cat[i].name != cat[j].name
  }

  /** In a catalogue without repeated names, an endpoint is kept exactly when its table came
      back non-empty, and the kept table is that table. */
  lemma {:induction false} CollectKeeps(cat: seq<Entry>, slots: seq<Option<Table>>, i: nat)
    requires SlotsFit(cat, slots)
    requires UniqueNames(cat)
    requires i < |cat|
    ensures var data := Collect(cat, slots).data;
      (cat[i].name in data <==> slots[i].Some?) &&
      (cat[i].name in data ==> data[cat[i].name] == slots[i].value)
    decreases i
  {
    assert NamesOf(cat) == [cat[0].name] + NamesOf(cat[1..]);
    assert UniqueNames(cat[1..]) by {
      forall a, b | 0 <= a < b < |cat[1..]| ensures cat[1..][a].name != cat[1..][b].name {
        assert cat[1..][a] == cat[a + 1] && cat[1..][b] == cat[b + 1];
      }
    }
    assert cat[0].name !in NamesOf(cat[1..]) by {
      forall j | 0 <= j < |cat[1..]| ensures NamesOf(cat[1..])[j] != cat[0].name {
        assert cat[1..][j] == cat[j + 1];
      }
    }
    TailFits(cat, slots);
    CollectNamed(cat[1..], slots[1..]);
    if i > 0 {
      CollectKeeps(cat[1..], slots[1..], i - 1);
      assert cat[1..][i - 1] == cat[i] && slots[1..][i - 1] == slots[i];
      assert cat[i].name != cat[0].name;
    }
  }

  /** `f"[{done}/{total}]"`. */
  function Progress(done: nat, total: nat): (s: string)
    ensures ' ' !in s
  {
    var d := NatToString(done);
    var t := NatToString(total);
    assert ' ' !in d && ' ' !in t;
    "[" + d + "/" + t + "]"
  }

  /** The progress tag reads back as its two counts: a bracket, the done count, a slash,
      the total, a bracket. */
  lemma ProgressParts(done: nat, total: nat)
    ensures var s := Progress(done, total);
      |s| >= 2 && s[0] == '[' && s[|s| - 1] == ']' &&
      Split(s[1..|s| - 1], '/') == [NatToString(done), NatToString(total)]
  {
    var d := NatToString(done);
    var t := NatToString(total);
    var s := Progress(done, total);
    assert s[1..|s| - 1] == d + "/" + t;
    assert Join([d, t], '/') == d + "/" + t;
    assert '/' !in d && '/' !in t;
    SplitJoin([d, t], '/');
  }

  /** The detail shown for one security: at most five summary items, `...` when there are
      more, `无数据` ("no data") when there are none. */
  function Detail(prog: string, info: seq<string>): (d: string)
    ensures prog <= d
  {
    if |info| == 0 then prog + " 无数据"
    else prog + " " + Join(info[..Min(|info|, 5)], ' ') + (if |info| > 5 then "..." else "")
  }

  /** Read back word by word, the detail is the progress tag followed by the first five
      items, the fifth carrying the ellipsis when some were cut. */
  lemma DetailWords(prog: string, info: seq<string>)
    requires ' ' !in prog
    requires forall k :: 0 <= k < |info| ==> ' ' !in info[k]
    ensures |info| == 0 ==> Split(Detail(prog, info), ' ') == [prog, "无数据"]
    ensures 1 <= |info| <= 5 ==> Split(Detail(prog, info), ' ') == [prog] + info
    ensures |info| > 5 ==> Split(Detail(prog, info), ' ') == [prog] + info[..4] + [info[4] + "..."]
  {
    var d := Detail(prog, info);
    if |info| == 0 {
      var parts := [prog, "无数据"];
      assert Join(parts, ' ') == d;
      SplitJoin(parts, ' ');
    } else {
      var shown := info[..Min(|info|, 5)];
      var parts := [prog] + shown;
      assert parts[1..] == shown;
      assert Join(parts, ' ') == prog + " " + Join(shown, ' ');
      if |info| <= 5 {
        assert shown == info;
        assert d == Join(parts, ' ');
        SplitJoin(parts, ' ');
      } else {
        var ext := parts[..|parts| - 1] + [parts[|parts| - 1] + "..."];
        JoinExtendLast(parts, "...", ' ');
        assert ext == [prog] + info[..4] + [info[4] + "..."];
        assert ' ' !in info[4] + "...";
        SplitJoin(ext, ' ');
      }
    }
  }

  /** One security's save: the workbook's file name and the datasets handed to `_save`. */
  datatype File = File(name: string, data: map<string, Table>, market: Cache)

  /** The sheets the save writes into the file. */
  function Book(cat: seq<Entry>, f: File): Written {
    Save(cat, f.data, f.market)
  }

  /** `_fetch_one`'s error line for a save that raised: `f"  {code} 保存失败: {e}"`. */
  function SaveFailureLine(code: string, text: string): string {
    "  " + code + " 保存失败: " + text
  }

  /** What the save logs: its error line when a workbook was written and the writer raised. */
  function SaveLogs(cat: seq<Entry>, code: string, file: Option<File>): (w: seq<string>)
    ensures |w| <= 1
  {
    if file.Some? && Book(cat, file.value).failure.Some? then [SaveFailureLine(code, Book(cat, file.value).failure.value)] else []
  }

  /** What `_fetch_one` hands back and leaves behind for one security: the datasets, the row
      count and summary items, the workbook written, the provider calls, the log lines, and
      the exception that ended it, if any. */
  datatype CodeResult = CodeResult(data: map<string, Table>, count: nat, info: seq<string>, file: Option<File>,
                                   calls: seq<Call>, logs: seq<string>, raised: Option<string>)

  /** `_fetch_one` for one security. A workbook is written only when the security has
      catalogue data or market sheets; a save error is logged and swallowed, leaving what
      the writer had written. An exception of the market side ends the security before the
      save. */
  function FetchOne(p: Provider, cat: seq<Entry>, labels: Labels, cache: Cache, code: string, start: string, end: string,
                    today: string): (r: CodeResult)
    ensures var c := Collect(cat, Slots(p, cat, labels, code, start, end));
      r.data == c.data && r.count == c.count && r.info == c.info
    ensures var market := GetSheets(cache, p, labels, code, start, end);
      && r.raised == market.raised
      && r.calls == CatalogueCalls(cat, code, start, end) + market.calls
      && (r.raised.Some? ==> r.file.None?)
      && (r.raised.None? ==> (r.file.Some? <==> |r.data| > 0 || |market.cache| > 0))
      && (r.file.Some? ==> r.file.value == File(FileName(code, today), r.data, market.cache))
      && r.logs == ApiWarnings(p, cat, code, start, end) + market.logs + SaveLogs(cat, code, r.file)
    ensures |r.logs| <= |cat| + 3
  {
    var slots := Slots(p, cat, labels, code, start, end);
    SlotsNonEmpty(p, cat, labels, code, start, end);
    var c := Collect(cat, slots);
    var market := GetSheets(cache, p, labels, code, start, end);
    var file := if market.raised.None? && (|c.data| > 0 || |market.cache| > 0)
      then Some(File(FileName(code, today), c.data, market.cache))
      else None;
    CodeResult(c.data, c.count, c.info, file, CatalogueCalls(cat, code, start, end) + market.calls,
               ApiWarnings(p, cat, code, start, end) + market.logs + SaveLogs(cat, code, file), market.raised)
  }

  /** A security's calls reach only catalogue endpoints and the two industry lookups. */
  lemma FetchOneAvoids(p: Provider, cat: seq<Entry>, labels: Labels, cache: Cache, code: string, start: string, end: string,
                       today: string, api: string)
    requires api !in NamesOf(cat) && api != "index_member_all" && api != "sw_daily"
    ensures CountApi(FetchOne(p, cat, labels, cache, code, start, end, today).calls, api) == 0
  {
    var own := CatalogueCalls(cat, code, start, end);
    var market := GetSheets(cache, p, labels, code, start, end).calls;
    CountApiAbsent(own, api);
    CountApiAbsent(market, api);
    CountApiAppend(own, market, api);
  }

  // ---------------------------------------------------------------- the batch

  /** `f"✓ {code} | {cnt:,}条 | {detail}"`: the log line for a finished security. */
  function ResultLine(code: string, count: nat, detail: string): string {
    "✓ " + code + " | " + Grouped(count) + "条 | " + detail
  }

  /** `f"✗ {code} | {str(e)[:80]}"`: the log line for a security that raised. */
  function FailLine(code: string, text: string): string {
    "✗ " + code + " | " + Take(text, 80)
  }

  /** The queue records one security produces, processed as number `done + 1` when it
      succeeds: its log lines, then (with `report`) the progress callback's status and the
      result line; or its log lines and the failure line. */
  function CodeEvents(code: string, one: CodeResult, done: nat, total: nat, report: bool): (s: seq<Event>)
    ensures |s| > |one.logs|
  {
    if one.raised.Some? then Logs(one.logs) + [Log(FailLine(code, one.raised.value))]
    else
      Logs(one.logs) + (if report then [Status(done + 1, total)] else []) +
      [Log(ResultLine(code, one.count, Detail(Progress(done + 1, total), one.info)))]
  }

  /** The per-security part of a batch, with the success and failure counters. */
  datatype Run = Run(results: map<string, map<string, Table>>, calls: seq<Call>, events: seq<Event>, files: seq<File>,
                     ok: nat, fail: nat)

  /** The futures of a batch, one per security of the list. */
  function Outcomes(p: Provider, cat: seq<Entry>, labels: Labels, cache: Cache, codes: seq<string>, start: string, end: string,
                    today: string): (outs: seq<CodeResult>)
    ensures |outs| == |codes|
  {
    seq(|codes|, k requires 0 <= k < |codes| => FetchOne(p, cat, labels, cache, codes[k], start, end, today))
  }

  /** How many of the securities raised. */
  function Failures(outs: seq<CodeResult>): (n: nat)
    ensures n <= |outs|
  {
    if |outs| == 0 then 0 else (if outs[0].raised.Some? then 1 else 0) + Failures(outs[1..])
  }

  /** How many of the first `k` securities returned. */
  function Returned(outs: seq<CodeResult>, k: nat): (n: nat)
    requires k <= |outs|
    ensures n <= k
    decreases k
  {
    if k == 0 then 0 else (if outs[0].raised.None? then 1 else 0) + Returned(outs[1..], k - 1)
  }

  /** The securities that returned and those that raised make up the list. */
  lemma {:induction false} ReturnedFailures(outs: seq<CodeResult>)
    ensures Returned(outs, |outs|) + Failures(outs) == |outs|
    decreases |outs|
  {
    if |outs| > 0 {
      ReturnedFailures(outs[1..]);
    }
  }

  /** The records of a batch's securities, one block per security in list order, each
      numbered after the securities before it that returned, `done` of them counted
      before the batch. */
  function Blocks(codes: seq<string>, outs: seq<CodeResult>, done: nat, total: nat, report: bool): (bs: seq<seq<Event>>)
    requires |outs| == |codes|
    ensures |bs| == |codes| && forall k :: 0 <= k < |bs| ==> |bs[k]| > 0
  {
    seq(|codes|, k requires 0 <= k < |codes| => CodeEvents(codes[k], outs[k], done + Returned(outs, k), total, report))
  }

  /** The blocks one after the other. */
  function Flatten(bs: seq<seq<Event>>): (s: seq<Event>)
    ensures (forall k :: 0 <= k < |bs| ==> |bs[k]| > 0) ==> |s| >= |bs|
    decreases |bs|
  {
    if |bs| == 0 then [] else bs[0] + Flatten(bs[1..])
  }

  /** The records of a batch's securities, in list order. */
  function Stream(codes: seq<string>, outs: seq<CodeResult>, done: nat, total: nat, report: bool): (s: seq<Event>)
    requires |outs| == |codes|
    ensures |s| >= |codes|
  {
    Flatten(Blocks(codes, outs, done, total, report))
  }

  /** The main thread's side of `as_completed`, securities finishing in list order, `done`
      of them counted before the batch: a security that raised counts as a failure and
      stores nothing; one that returned is stored under its code (a repeated code
      overwriting the earlier one), counts as a success and moves the counter. Calls,
      records and files join the trace in list order. */
  function Assemble(codes: seq<string>, outs: seq<CodeResult>, done: nat, total: nat, report: bool): (r: Run)
    requires |outs| == |codes|
    ensures r.ok + r.fail == |codes| && r.fail == Failures(outs)
    ensures |r.files| <= r.ok
  {
    ReturnedFailures(outs);
    Run(Stored(codes, outs), AllCalls(outs), Stream(codes, outs, done, total, report), Written(outs),
        Returned(outs, |outs|), Failures(outs))
  }

  /** The results map the main thread builds: each security that returned under its code,
      a later occurrence of a code overwriting an earlier one. */
  function Stored(codes: seq<string>, outs: seq<CodeResult>): map<string, map<string, Table>>
    requires |outs| == |codes|
    decreases |codes|
  {
    if |codes| == 0 then map[]
    else
      var rest := Stored(codes[1..], outs[1..]);
      if outs[0].raised.None? then map[codes[0] := outs[0].data] + rest else rest
  }

  /** The calls of every security, in list order. */
  function AllCalls(outs: seq<CodeResult>): seq<Call>
    decreases |outs|
  {
    if |outs| == 0 then [] else outs[0].calls + AllCalls(outs[1..])
  }

  /** The workbooks the securities that returned wrote, in list order. */
  function Written(outs: seq<CodeResult>): (fs: seq<File>)
    ensures |fs| <= Returned(outs, |outs|)
    decreases |outs|
  {
    if |outs| == 0 then []
    else (if outs[0].raised.None? && outs[0].file.Some? then [outs[0].file.value] else []) + Written(outs[1..])
  }

  /** The status events `[from+1/total]`, …, `[from+n/total]`. */
  function Counts(from: nat, n: nat, total: nat): (s: seq<Event>)
    ensures |s| == n && forall i :: 0 <= i < n ==> s[i] == Status(from + i + 1, total)
    decreases n
  {
    if n == 0 then [] else [Status(from + 1, total)] + Counts(from + 1, n - 1, total)
  }

  /** A security's records carry its progress status when the callback is on and it
      returned, and none otherwise. */
  lemma CodeEventsStatuses(code: string, one: CodeResult, done: nat, total: nat, report: bool)
    ensures Statuses(CodeEvents(code, one, done, total, report))
         == if report && one.raised.None? then [Status(done + 1, total)] else []
  {
    StatusesLogs(one.logs);
    if one.raised.Some? {
      StatusesAppend(Logs(one.logs), [Log(FailLine(code, one.raised.value))]);
    } else {
      var st := if report then [Status(done + 1, total)] else [];
      var line := [Log(ResultLine(code, one.count, Detail(Progress(done + 1, total), one.info)))];
      StatusesAppend(Logs(one.logs) + st, line);
      StatusesAppend(Logs(one.logs), st);
      assert Statuses(line) == [];
      if report {
        assert Statuses(st) == [Status(done + 1, total)];
      } else {
        assert Statuses(st) == [];
      }
    }
  }

  /** The statuses of the blocks one after the other. */
  lemma {:induction false} FlattenStatuses(bs: seq<seq<Event>>, ss: seq<seq<Event>>)
    requires |bs| == |ss| && forall k :: 0 <= k < |bs| ==> Statuses(bs[k]) == ss[k]
    ensures Statuses(Flatten(bs)) == Flatten(ss)
    decreases |bs|
  {
    if |bs| > 0 {
      FlattenStatuses(bs[1..], ss[1..]);
      StatusesAppend(bs[0], Flatten(bs[1..]));
    }
  }

  /** The status each security of a batch reports. */
  function Reported(outs: seq<CodeResult>, done: nat, total: nat, report: bool): (ss: seq<seq<Event>>)
    ensures |ss| == |outs|
  {
    seq(|outs|, k requires 0 <= k < |outs| =>
      if report && outs[k].raised.None? then [Status(done + Returned(outs, k) + 1, total)] else [])
  }

  /** The reported statuses count up by one per security that returned. */
  lemma {:induction false} ReportedCounts(outs: seq<CodeResult>, done: nat, total: nat, report: bool)
    ensures Flatten(Reported(outs, done, total, report))
         == if report then Counts(done, Returned(outs, |outs|), total) else []
    decreases |outs|
  {
    if |outs| > 0 {
      var next := if outs[0].raised.Some? then done else done + 1;
      var ss := Reported(outs, done, total, report);
      var m := Returned(outs[1..], |outs| - 1);
      ReportedTail(outs, done, total, report);
      ReportedCounts(outs[1..], next, total, report);
      assert Flatten(ss) == ss[0] + Flatten(ss[1..]);
      assert Returned(outs, |outs|) == (if outs[0].raised.None? then 1 else 0) + m;
      if report && outs[0].raised.None? {
        assert Counts(done, m + 1, total) == [Status(done + 1, total)] + Counts(done + 1, m, total);
      }
    }
  }

  /** After the first security, the reported statuses are those of the rest, numbered from
      where the first left the counter. */
  lemma ReportedTail(outs: seq<CodeResult>, done: nat, total: nat, report: bool)
    requires |outs| > 0
    ensures var next := if outs[0].raised.Some? then done else done + 1;
      var ss := Reported(outs, done, total, report);
      && ss[0] == (if report && outs[0].raised.None? then [Status(done + 1, total)] else [])
      && ss[1..] == Reported(outs[1..], next, total, report)
  {
    var next := if outs[0].raised.Some? then done else done + 1;
    var ss, tail := Reported(outs, done, total, report), Reported(outs[1..], next, total, report);
    forall k | 0 <= k < |tail| ensures ss[1..][k] == tail[k] {
      assert Returned(outs, k + 1) == (if outs[0].raised.None? then 1 else 0) + Returned(outs[1..], k);
      assert outs[1..][k] == outs[k + 1];
    }
  }

  /** With the progress callback on, the status events of a batch count up by one per
      security that returned, in order; a security that raised reports nothing. Without the
      callback there are none. */
  lemma AssembleProgress(codes: seq<string>, outs: seq<CodeResult>, done: nat, total: nat, report: bool)
    requires |outs| == |codes|
    ensures var r := Assemble(codes, outs, done, total, report);
      Statuses(r.events) == if report then Counts(done, r.ok, total) else []
  {
    var bs := Blocks(codes, outs, done, total, report);
    var ss := Reported(outs, done, total, report);
    BlocksStatuses(codes, outs, done, total, report);
    FlattenStatuses(bs, ss);
    ReportedCounts(outs, done, total, report);
  }

  /** Each security's block carries exactly the status it reports. */
  lemma BlocksStatuses(codes: seq<string>, outs: seq<CodeResult>, done: nat, total: nat, report: bool)
    requires |outs| == |codes|
    ensures var bs, ss := Blocks(codes, outs, done, total, report), Reported(outs, done, total, report);
      |bs| == |ss| && forall k :: 0 <= k < |bs| ==> Statuses(bs[k]) == ss[k]
  {
    var bs := Blocks(codes, outs, done, total, report);
    var ss := Reported(outs, done, total, report);
    forall k | 0 <= k < |bs| ensures Statuses(bs[k]) == ss[k] {
      CodeEventsStatuses(codes[k], outs[k], done + Returned(outs, k), total, report);
    }
  }

  /** `a` occurs in `b` starting at position `i`. */
  predicate OccursAt(a: seq<Event>, b: seq<Event>, i: int) {
    0 <= i && i + |a| <= |b| && b[i..i + |a|] == a
  }

  /** An occurrence in `c` is one in `b + c`, `|b|` further on. */
  lemma OccursShift(a: seq<Event>, b: seq<Event>, c: seq<Event>, i: int)
    requires OccursAt(a, c, i)
    ensures OccursAt(a, b + c, |b| + i)
  {
    assert (b + c)[|b| + i..|b| + i + |a|] == c[i..i + |a|];
  }

  /** Where block `k` starts: after the blocks before it. */
  function Offset(bs: seq<seq<Event>>, k: nat): nat
    requires k <= |bs|
    decreases k
  {
    if k == 0 then 0 else |bs[0]| + Offset(bs[1..], k - 1)
  }

  /** Every block occurs, whole, where its offset says. */
  lemma {:induction false} FlattenOccurs(bs: seq<seq<Event>>, k: nat)
    requires k < |bs|
    ensures OccursAt(bs[k], Flatten(bs), Offset(bs, k))
    decreases k
  {
    if k == 0 {
      assert bs[0] == (bs[0] + Flatten(bs[1..]))[0..|bs[0]|];
    } else {
      FlattenOccurs(bs[1..], k - 1);
      OccursShift(bs[1..][k - 1], bs[0], Flatten(bs[1..]), Offset(bs[1..], k - 1));
    }
  }

  /** Where the records of security `k` start in the batch's stream: after those of every
      security before it. */
  function Position(codes: seq<string>, outs: seq<CodeResult>, done: nat, total: nat, report: bool, k: nat): nat
    requires |outs| == |codes| && k <= |codes|
  {
    Offset(Blocks(codes, outs, done, total, report), k)
  }

  /** The records of security `k` appear together in the batch's stream, after those of
      the securities before it, and a security that returned is numbered after the ones
      before it that returned. */
  lemma StreamLines(codes: seq<string>, outs: seq<CodeResult>, done: nat, total: nat, report: bool, k: nat)
    requires |outs| == |codes| && k < |codes|
    ensures OccursAt(CodeEvents(codes[k], outs[k], done + Returned(outs, k), total, report),
                     Stream(codes, outs, done, total, report), Position(codes, outs, done, total, report, k))
  {
    var bs := Blocks(codes, outs, done, total, report);
    var ce := CodeEvents(codes[k], outs[k], done + Returned(outs, k), total, report);
    assert bs[k] == ce;
    FlattenOccurs(bs, k);
    assert OccursAt(ce, Flatten(bs), Offset(bs, k));
  }

  /** The codes with a stored result are exactly those of the securities that returned. */
  lemma {:induction false} StoredKeys(codes: seq<string>, outs: seq<CodeResult>)
    requires |outs| == |codes|
    ensures Stored(codes, outs).Keys == set k | 0 <= k < |codes| && outs[k].raised.None? :: codes[k]
    decreases |codes|
  {
    if |codes| > 0 {
      StoredKeys(codes[1..], outs[1..]);
      assert (set k | 0 <= k < |codes| && outs[k].raised.None? :: codes[k]) ==
        (if outs[0].raised.None? then {codes[0]} else {}) +
        (set k | 0 <= k < |codes[1..]| && outs[1..][k].raised.None? :: codes[1..][k]) by {
        forall k | 1 <= k < |codes| ensures codes[k] == codes[1..][k - 1] && outs[k] == outs[1..][k - 1] {}
        forall k | 0 <= k < |codes[1..]| ensures codes[1..][k] == codes[k + 1] && outs[1..][k] == outs[k + 1] {}
      }
    }
  }

  /** The result stored for a security is that of its last occurrence in the list, when
      that occurrence returned. */
  lemma {:induction false} StoredLast(codes: seq<string>, outs: seq<CodeResult>, k: nat)
    requires |outs| == |codes| && k < |codes|
    requires codes[k] !in codes[k + 1..] && outs[k].raised.None?
    ensures codes[k] in Stored(codes, outs) && Stored(codes, outs)[codes[k]] == outs[k].data
    decreases k
  {
    var rest := Stored(codes[1..], outs[1..]);
    if k > 0 {
      assert codes[1..][k - 1..] == codes[k..] && codes[1..][k..] == codes[k + 1..];
      StoredLast(codes[1..], outs[1..], k - 1);
      assert codes[1..][k - 1] == codes[k] && outs[1..][k - 1] == outs[k];
    } else {
      assert codes[0] !in rest by {
        StoredKeys(codes[1..], outs[1..]);
        assert codes[1..] == codes[k + 1..];
      }
    }
  }

  /** A call no security makes is absent from the batch's trace. */
  lemma {:induction false} AllCallsAvoid(outs: seq<CodeResult>, api: string)
    requires forall k :: 0 <= k < |outs| ==> CountApi(outs[k].calls, api) == 0
    ensures CountApi(AllCalls(outs), api) == 0
    decreases |outs|
  {
    if |outs| > 0 {
      assert forall k :: 0 <= k < |outs[1..]| ==> outs[1..][k] == outs[k + 1];
      AllCallsAvoid(outs[1..], api);
      CountApiAppend(outs[0].calls, AllCalls(outs[1..]), api);
    }
  }

  /** The `codes` argument: a comma-separated string, or a ready list. */
  datatype CodesArg = Joined(text: string) | Listed(codes: seq<string>)

  function CodeList(a: CodesArg): seq<string> {
    match a
    case Joined(text) => ParseCodes(text)
    case Listed(codes) => codes
  }

  /** Python's `value or default` on an optional string: absent and empty both fall back. */
  function OrDefault(v: Option<string>, default: string): (r: string)
    ensures v.Some? && v.value != "" ==> r == v.value
    ensures v.None? || v.value == "" ==> r == default
  {
    if v.Some? && v.value != "" then v.value else default
  }

  /** What a fetch reads from the calendar, the clock and the file system: today's date and
      the default start date `years` back (both `YYYYMMDD`); whether `strptime` accepts a
      date, and the text of the `ValueError` it raises when not; the day count from a start
      to an end date; today's output directory; and the elapsed seconds as the summary
      prints them (`f"{secs:.1f}"`). */
  datatype Calendar = Calendar(today: string, defaultStart: string, parses: string -> bool, dateError: string -> string,
                               days: (string, string) -> int, saveDir: string, elapsed: string)

  /** `"=" * 60`. */
  function Rule(): string {
    Repeat('=', 60)
  }

  /** The five lines `fetch` logs before anything else: the number of securities, the pool
      size and the day count; the date range; the output directory. */
  function Banner(total: nat, days: int, start: string, end: string, saveDir: string): (lines: seq<string>)
    ensures |lines| == 5
  {
    [Rule(),
     "股票: " + NatToString(total) + "只 | 并发: " + NatToString(Min(total, MaxWorkers)) + "线程 | 周期: " + IntToString(days) + "天",
     "数据: " + start + " ~ " + end,
     "保存: " + saveDir + "/",
     Rule()]
  }

  /** The three lines `fetch` logs at the end: the success and failure counts and the time
      taken. */
  function Summary(ok: nat, fail: nat, elapsed: string): (lines: seq<string>)
    ensures |lines| == 3
  {
    [Rule(), "完成! 成功:" + NatToString(ok) + " 失败:" + NatToString(fail) + " 耗时:" + elapsed + "秒", Rule()]
  }

  /** A batch's outcome: the datasets per security, the success and failure counters, the
      worker-pool size, the shared cache afterwards, the trace of calls, queue records and
      files, and the exception that ended the batch, if any (the shared fill's). */
  datatype Batch = Batch(results: map<string, map<string, Table>>, ok: nat, fail: nat, workers: nat,
                         cache: Cache, calls: seq<Call>, events: seq<Event>, files: seq<File>, raised: Option<string>)

  /** The batch proper, once the dates are settled and the list is non-empty: the shared
      tables are fetched first, then every security on a pool of at most `MaxWorkers`, and
      the summary closes the log. An exception of the shared fill propagates before any
      security starts. */
  function RunBatch(p: Provider, cat: seq<Entry>, labels: Labels, cache: Cache, list: seq<string>, start: string,
                    end: string, today: string, elapsed: string, report: bool): (b: Batch)
    requires |list| > 0
  {
    var shared := FetchShared(cache, p, labels, start, end);
    if shared.raised.Some? then
      Batch(map[], 0, 0, 0, shared.cache, shared.calls, Logs(shared.logs), [], shared.raised)
    else
      var run := Assemble(list, Outcomes(p, cat, labels, shared.cache, list, start, end, today), 0, |list|, report);
      var events := Logs(shared.logs) + run.events + Logs(Summary(run.ok, run.fail, elapsed));
      Batch(run.results, run.ok, run.fail, Min(|list|, MaxWorkers), shared.cache, shared.calls + run.calls,
            events, run.files, None)
  }

  /** A batch leaves the shared cache as the shared fill left it and logs the fill's lines
      first; when the fill raised, the batch is nothing but that fill, and no security is
      fetched. */
  lemma RunBatchShared(p: Provider, cat: seq<Entry>, labels: Labels, cache: Cache, list: seq<string>, start: string,
                       end: string, today: string, elapsed: string, report: bool)
    requires |list| > 0
    ensures var b := RunBatch(p, cat, labels, cache, list, start, end, today, elapsed, report);
      var shared := FetchShared(cache, p, labels, start, end);
      && b.cache == shared.cache && b.raised == shared.raised && Logs(shared.logs) <= b.events
      && (b.raised.Some? ==> b == Batch(map[], 0, 0, 0, shared.cache, shared.calls, Logs(shared.logs), [], shared.raised))
  {
  }

  /** A batch whose shared fill did not raise accounts for every security as a success or a
      failure, runs a pool of at most `MaxWorkers` threads, and logs at least one line per
      security before the summary, which comes last. */
  lemma RunBatchCounts(p: Provider, cat: seq<Entry>, labels: Labels, cache: Cache, list: seq<string>, start: string,
                       end: string, today: string, elapsed: string, report: bool)
    requires |list| > 0
    ensures var b := RunBatch(p, cat, labels, cache, list, start, end, today, elapsed, report);
      b.raised.None? ==>
        && b.ok + b.fail == |list|
        && b.workers == Min(|list|, MaxWorkers) && 1 <= b.workers <= MaxWorkers
        && |b.events| >= |list| + 3
        && b.events[|b.events| - 3..] == Logs(Summary(b.ok, b.fail, elapsed))
  {
    var shared := FetchShared(cache, p, labels, start, end);
    if shared.raised.None? {
      var run := Assemble(list, Outcomes(p, cat, labels, shared.cache, list, start, end, today), 0, |list|, report);
      var summary := Logs(Summary(run.ok, run.fail, elapsed));
      SuffixAfter(Logs(shared.logs) + run.events, summary, 3);
      assert summary[|summary| - 3..] == summary;
    }
  }

  /** The securities with a stored result are exactly those whose fetch returned. */
  lemma RunBatchResults(p: Provider, cat: seq<Entry>, labels: Labels, cache: Cache, list: seq<string>, start: string,
                        end: string, today: string, elapsed: string, report: bool)
    requires |list| > 0
    ensures var b := RunBatch(p, cat, labels, cache, list, start, end, today, elapsed, report);
      var outs := Outcomes(p, cat, labels, FetchShared(cache, p, labels, start, end).cache, list, start, end, today);
      b.raised.None? ==> b.results.Keys == set k | 0 <= k < |list| && outs[k].raised.None? :: list[k]
  {
    var shared := FetchShared(cache, p, labels, start, end);
    if shared.raised.None? {
      StoredKeys(list, Outcomes(p, cat, labels, shared.cache, list, start, end, today));
    }
  }

  /** No security of a batch calls an endpoint outside the catalogue and the industry lookups. */
  lemma OutcomesAvoid(p: Provider, cat: seq<Entry>, labels: Labels, cache: Cache, codes: seq<string>, start: string,
                      end: string, today: string, api: string)
    requires api !in NamesOf(cat) && api != "index_member_all" && api != "sw_daily"
    ensures var outs := Outcomes(p, cat, labels, cache, codes, start, end, today);
      forall k :: 0 <= k < |outs| ==> CountApi(outs[k].calls, api) == 0
  {
    var outs := Outcomes(p, cat, labels, cache, codes, start, end, today);
    forall k | 0 <= k < |outs| ensures CountApi(outs[k].calls, api) == 0 {
      FetchOneAvoids(p, cat, labels, cache, codes[k], start, end, today, api);
    }
  }

  /** The shared fill requests the benchmark index once from an empty cache, and not at all
      from a filled one. */
  lemma SharedIndexDaily(cache: Cache, p: Provider, labels: Labels, start: string, end: string)
    ensures CountApi(FetchShared(cache, p, labels, start, end).calls, "index_daily") == if |cache| == 0 then 1 else 0
  {
    var shared := FetchShared(cache, p, labels, start, end);
    if |cache| == 0 {
      var d := IndexDailyCall(start, end);
      var b := IndexBasicCall(start, end);
      assert d.api == "index_daily" && b.api == "index_dailybasic";
      assert shared.calls == [d] || shared.calls == [d, b];
      assert CountApi([b], "index_daily") == 0 by {
        assert [b][1..] == [];
      }
      assert CountApi([d], "index_daily") == 1 by {
        assert [d][1..] == [];
      }
      assert CountApi([d, b], "index_daily") == 1 by {
        assert [d, b][1..] == [b];
      }
    }
  }

  /** A batch requests the benchmark index once when it starts from an empty cache, and not
      at all when the cache is already filled. */
  lemma RunBatchIndexDaily(p: Provider, cat: seq<Entry>, labels: Labels, cache: Cache, list: seq<string>, start: string,
                           end: string, today: string, elapsed: string, report: bool)
    requires |list| > 0
    requires "index_daily" !in NamesOf(cat)
    ensures CountApi(RunBatch(p, cat, labels, cache, list, start, end, today, elapsed, report).calls, "index_daily")
         == if |cache| == 0 then 1 else 0
  {
    var shared := FetchShared(cache, p, labels, start, end);
    SharedIndexDaily(cache, p, labels, start, end);
    if shared.raised.None? {
      var outs := Outcomes(p, cat, labels, shared.cache, list, start, end, today);
      var run := Assemble(list, outs, 0, |list|, report);
      OutcomesAvoid(p, cat, labels, shared.cache, list, start, end, today, "index_daily");
      AllCallsAvoid(outs, "index_daily");
      CountApiAppend(shared.calls, run.calls, "index_daily");
    }
  }

  /** `fetch`. The dates fall back to today and the default start; the day count between
      them is computed before anything is logged, the end date parsed first, so a malformed
      date raises even for an empty list. The banner is logged next, and an empty list ends
      the fetch there. */
  function Fetch(p: Provider, cat: seq<Entry>, labels: Labels, cache: Cache, codes: CodesArg, start: Option<string>,
                 end: Option<string>, cal: Calendar, report: bool): (r: Result<Batch, string>)
    ensures var s := OrDefault(start, cal.defaultStart); var e := OrDefault(end, cal.today);
      (r.Failure? <==> !cal.parses(e) || !cal.parses(s)) &&
      (!cal.parses(e) ==> r == Failure(cal.dateError(e))) &&
      (cal.parses(e) && !cal.parses(s) ==> r == Failure(cal.dateError(s)))
    ensures r.Success? ==> var s := OrDefault(start, cal.defaultStart); var e := OrDefault(end, cal.today);
      Logs(Banner(|CodeList(codes)|, cal.days(s, e), s, e, cal.saveDir)) <= r.value.events
    ensures r.Success? && |CodeList(codes)| == 0 ==>
      var s := OrDefault(start, cal.defaultStart); var e := OrDefault(end, cal.today);
      r.value == Batch(map[], 0, 0, 0, cache, [], Logs(Banner(0, cal.days(s, e), s, e, cal.saveDir)), [], None)
    ensures r.Success? && |CodeList(codes)| > 0 ==>
      var s := OrDefault(start, cal.defaultStart); var e := OrDefault(end, cal.today);
      var b := RunBatch(p, cat, labels, cache, CodeList(codes), s, e, cal.today, cal.elapsed, report);
      r.value == b.(events := Logs(Banner(|CodeList(codes)|, cal.days(s, e), s, e, cal.saveDir)) + b.events)
  {
    var list := CodeList(codes);
    var s := OrDefault(start, cal.defaultStart);
    var e := OrDefault(end, cal.today);
    if !cal.parses(e) then Failure(cal.dateError(e))
    else if !cal.parses(s) then Failure(cal.dateError(s))
    else
      var banner := Logs(Banner(|list|, cal.days(s, e), s, e, cal.saveDir));
      if |list| == 0 then Success(Batch(map[], 0, 0, 0, cache, [], banner, [], None))
      else
        var b := RunBatch(p, cat, labels, cache, list, s, e, cal.today, cal.elapsed, report);
        Success(b.(events := banner + b.events))
  }

  /** A fetch that did not raise accounts for every security as a success or a failure. */
  lemma FetchCounts(p: Provider, cat: seq<Entry>, labels: Labels, cache: Cache, codes: CodesArg, start: Option<string>,
                    end: Option<string>, cal: Calendar, report: bool)
    requires Fetch(p, cat, labels, cache, codes, start, end, cal, report).Success?
    ensures var b := Fetch(p, cat, labels, cache, codes, start, end, cal, report).value;
      b.raised.None? ==> b.ok + b.fail == |CodeList(codes)|
  {
    var list := CodeList(codes);
    if |list| > 0 {
      var s := OrDefault(start, cal.defaultStart);
      var e := OrDefault(end, cal.today);
      RunBatchCounts(p, cat, labels, cache, list, s, e, cal.today, cal.elapsed, report);
    }
  }

  /** A fetch over a non-empty list that did not raise logs at least the banner, one line
      per security and the summary, the summary last. */
  lemma FetchSummary(p: Provider, cat: seq<Entry>, labels: Labels, cache: Cache, codes: CodesArg, start: Option<string>,
                     end: Option<string>, cal: Calendar, report: bool)
    requires Fetch(p, cat, labels, cache, codes, start, end, cal, report).Success?
    ensures var b := Fetch(p, cat, labels, cache, codes, start, end, cal, report).value;
      b.raised.None? && |CodeList(codes)| > 0 ==>
        |b.events| >= |CodeList(codes)| + 8 && b.events[|b.events| - 3..] == Logs(Summary(b.ok, b.fail, cal.elapsed))
  {
    var list := CodeList(codes);
    if |list| > 0 {
      var s := OrDefault(start, cal.defaultStart);
      var e := OrDefault(end, cal.today);
      var b := RunBatch(p, cat, labels, cache, list, s, e, cal.today, cal.elapsed, report);
      var banner := Logs(Banner(|list|, cal.days(s, e), s, e, cal.saveDir));
      RunBatchCounts(p, cat, labels, cache, list, s, e, cal.today, cal.elapsed, report);
      if b.raised.None? {
        BannerKeepsSummary(banner, b.events, |list|, Logs(Summary(b.ok, b.fail, cal.elapsed)));
      }
    }
  }

  /** Five banner lines before a batch's records that end in a summary keep the summary
      last. */
  lemma BannerKeepsSummary(banner: seq<Event>, events: seq<Event>, n: nat, summary: seq<Event>)
    requires |banner| == 5 && |events| >= n + 3 && events[|events| - 3..] == summary
    ensures |banner + events| >= n + 8 && (banner + events)[|banner + events| - 3..] == summary
  {
    SuffixAfter(banner, events, 3);
  }

  /** The last `n` items of `a + b` are those of `b`, when `b` has `n` items. */
  lemma SuffixAfter<T>(a: seq<T>, b: seq<T>, n: nat)
    requires n <= |b|
    ensures (a + b)[|a + b| - n..] == b[|b| - n..]
  {
    var x, y := (a + b)[|a + b| - n..], b[|b| - n..];
    assert forall i :: 0 <= i < n ==> x[i] == y[i];
  }

  /** With the progress callback on, the status events of a batch are `[1/n]`, `[2/n]`, …
      up to the number of securities that returned: shared-fill and summary lines carry no
      status. */
  lemma RunBatchProgress(p: Provider, cat: seq<Entry>, labels: Labels, cache: Cache, list: seq<string>, start: string,
                         end: string, today: string, elapsed: string)
    requires |list| > 0
    ensures var b := RunBatch(p, cat, labels, cache, list, start, end, today, elapsed, true);
      Statuses(b.events) == Counts(0, b.ok, |list|)
  {
    var shared := FetchShared(cache, p, labels, start, end);
    StatusesLogs(shared.logs);
    if shared.raised.None? {
      var outs := Outcomes(p, cat, labels, shared.cache, list, start, end, today);
      var run := Assemble(list, outs, 0, |list|, true);
      AssembleProgress(list, outs, 0, |list|, true);
      StatusesLogs(Summary(run.ok, run.fail, elapsed));
      StatusesBetween(Logs(shared.logs), run.events, Logs(Summary(run.ok, run.fail, elapsed)));
    }
  }

  /** With the progress callback on, the status events of a fetch are `[1/n]`, `[2/n]`, …
      up to the number of securities that returned, `n` being the list's length: the banner
      carries no status. */
  lemma FetchProgress(p: Provider, cat: seq<Entry>, labels: Labels, cache: Cache, codes: CodesArg, start: Option<string>,
                      end: Option<string>, cal: Calendar)
    requires Fetch(p, cat, labels, cache, codes, start, end, cal, true).Success?
    ensures var b := Fetch(p, cat, labels, cache, codes, start, end, cal, true).value;
      Statuses(b.events) == Counts(0, b.ok, |CodeList(codes)|)
  {
    var list := CodeList(codes);
    var s := OrDefault(start, cal.defaultStart);
    var e := OrDefault(end, cal.today);
    var banner := Banner(|list|, cal.days(s, e), s, e, cal.saveDir);
    StatusesLogs(banner);
    if |list| > 0 {
      var b := RunBatch(p, cat, labels, cache, list, s, e, cal.today, cal.elapsed, true);
      RunBatchProgress(p, cat, labels, cache, list, s, e, cal.today, cal.elapsed);
      StatusesAppend(Logs(banner), b.events);
    }
  }

  /** The benchmark index is requested at most once per batch: exactly once when the batch
      starts from an empty cache and has a security to fetch, never otherwise. */
  lemma IndexDailyOnce(p: Provider, cat: seq<Entry>, labels: Labels, cache: Cache, codes: CodesArg, start: Option<string>,
                       end: Option<string>, cal: Calendar, report: bool)
    requires "index_daily" !in NamesOf(cat)
    requires cal.parses(OrDefault(start, cal.defaultStart)) && cal.parses(OrDefault(end, cal.today))
    ensures Fetch(p, cat, labels, cache, codes, start, end, cal, report).Success?
    ensures CountApi(Fetch(p, cat, labels, cache, codes, start, end, cal, report).value.calls, "index_daily")
         == if |cache| == 0 && |CodeList(codes)| > 0 then 1 else 0
  {
    var list := CodeList(codes);
    if |list| > 0 {
      RunBatchIndexDaily(p, cat, labels, cache, list, OrDefault(start, cal.defaultStart), OrDefault(end, cal.today),
                         cal.today, cal.elapsed, report);
    }
  }
}
