/** `MarketFetcher`: the benchmark-index tables every workbook shares, cached once per
    task in a process-wide map, and the industry-index table looked up per security. */
module Market {
  import opened Wrappers
  import opened Tables
  import opened Catalogue
  import opened Text
  import opened Upstream

  /** `MarketFetcher._shared_cache`: market dataset name to its prepared table. */
  type Cache = map<string, Table>

  const IndexDailyFields: string := "ts_code,trade_date,open,high,low,close,pre_close,change,pct_chg,vol,amount"
  const IndexBasicFields: string := "ts_code,trade_date,total_mv,float_mv,total_share,float_share,turnover_rate,turnover_rate_f,pe,pe_ttm,pb"
  const SwDailyFields: string := "ts_code,trade_date,name,open,close,high,low,change,pct_change,vol,amount,pe,pb,float_mv,total_mv"

  /** The display label of the trade-date column, the only one the market tables sort on. */
  const TradeDate: string := "交易日期"

  function IndexDailyCall(start: string, end: string): Call {
    Call("index_daily", map["ts_code" := Csi300, "start_date" := start, "end_date" := end, "fields" := IndexDailyFields])
  }

  function IndexBasicCall(start: string, end: string): Call {
    Call("index_dailybasic", map["ts_code" := Csi300, "start_date" := start, "end_date" := end, "fields" := IndexBasicFields])
  }

  function SwDailyCall(l1: string, start: string, end: string): Call {
    Call("sw_daily", map["ts_code" := l1, "start_date" := start, "end_date" := end, "fields" := SwDailyFields])
  }

  /** The industry-classification lookup `_get_sw_l1` makes. */
  function MemberCall(code: string): Call {
    Call("index_member_all", map["ts_code" := code, "is_new" := "Y", "fields" := "l1_code,l1_name"])
  }

  /** `_sort(_rename(df, mapping))`: display labels, then newest trade date first. The sort
      raises when the relabelled header carries the trade-date label twice. */
  function Prepare(t: Table, mapping: map<string, string>): (r: Result<Table, string>)
    ensures r.Failure? <==> Repeated(Rename(t, mapping).columns, TradeDate)
    ensures r.Failure? ==> r.error == NotUniqueText(TradeDate)
    ensures r.Success? ==> IsEmpty(r.value) == IsEmpty(t) && multiset(r.value.rows) == multiset(t.rows)
    ensures r.Success? ==> r.value.columns == Rename(t, mapping).columns
    ensures r.Success? && TradeDate in r.value.columns ==> SortedDesc(r.value.rows, IndexOf(r.value.columns, TradeDate))
  {
    SortBy(Rename(t, mapping), TradeDate)
  }

  /** The warning `_call` logs when the provider raises: the endpoint and the first 100
      characters of the exception's text. */
  function CallWarnings(p: Provider, c: Call): (w: seq<string>)
    ensures |w| <= 1 && (|w| == 1 <==> p(c).Raises?)
  {
    if p(c).Raises? then ["  ✗ " + c.api + ": " + Take(p(c).message, 100)] else []
  }

  /** The info line for a stored table: `f"  ✓ {what}{len(df):,} 条"`. */
  function StoredLine(what: string, rows: nat): string {
    "  ✓ " + what + Grouped(rows) + " 条"
  }

  /** A reply's table can be stored: it is non-empty and its preparation does not raise. */
  predicate Storable(t: Table, mapping: map<string, string>) {
    !IsEmpty(t) && Prepare(t, mapping).Success?
  }

  /** A shared-cache operation's result: the new cache, the provider calls it made, the log
      lines it wrote, and the exception it raised, if any. */
  datatype CacheStep = CacheStep(cache: Cache, calls: seq<Call>, logs: seq<string>, raised: Option<string>)

  /** One `_call` whose non-empty reply is prepared and stored under `key`, followed by its
      info line; an exception of the preparation propagates and nothing is stored. */
  function Store(cache: Cache, p: Provider, c: Call, key: string, what: string, mapping: map<string, string>): (r: CacheStep)
    ensures var t := CallTable(p, c);
      && r.calls == [c]
      && (r.raised.Some? <==> !IsEmpty(t) && Prepare(t, mapping).Failure?)
      && (r.raised.Some? ==> r.raised.value == NotUniqueText(TradeDate))
      && r.cache == (if Storable(t, mapping) then cache[key := Prepare(t, mapping).value] else cache)
      && r.logs == CallWarnings(p, c) + (if Storable(t, mapping) then [StoredLine(what, |t.rows|)] else [])
      && |r.logs| <= 1
  {
    var t := CallTable(p, c);
    var warn := CallWarnings(p, c);
    if IsEmpty(t) then CacheStep(cache, [c], warn, None)
    else
      match Prepare(t, mapping)
      case Failure(e) => CacheStep(cache, [c], warn, Some(e))
      case Success(u) => CacheStep(cache[key := u], [c], warn + [StoredLine(what, |t.rows|)], None)
  }

  /** `fetch_shared`: under the cache lock, fill the cache only if it is empty, storing each
      of the two index tables only when it came back non-empty. A preparation that raises
      ends the fill there: the benchmark's daily table stays stored if the valuation
      table's preparation raised, and the valuation table is not requested if the daily
      one's did. */
  function FetchShared(cache: Cache, p: Provider, labels: Labels, start: string, end: string): (r: CacheStep)
    ensures |cache| > 0 ==> r == CacheStep(cache, [], [], None)
    ensures |cache| == 0 ==>
      var daily := CallTable(p, IndexDailyCall(start, end));
      var basic := CallTable(p, IndexBasicCall(start, end));
      var dailyRaises := !IsEmpty(daily) && Prepare(daily, labels.market).Failure?;
      var basicRaises := !IsEmpty(basic) && Prepare(basic, labels.market).Failure?;
      && r.calls == [IndexDailyCall(start, end)] + (if dailyRaises then [] else [IndexBasicCall(start, end)])
      && (r.raised.Some? <==> dailyRaises || (!dailyRaises && basicRaises))
      && (r.raised.Some? ==> r.raised.value == NotUniqueText(TradeDate))
      && r.cache.Keys <= {"index_daily", "index_dailybasic"}
      && ("index_daily" in r.cache <==> Storable(daily, labels.market))
      && ("index_daily" in r.cache ==> r.cache["index_daily"] == Prepare(daily, labels.market).value)
      && ("index_dailybasic" in r.cache <==> !dailyRaises && Storable(basic, labels.market))
      && ("index_dailybasic" in r.cache ==> r.cache["index_dailybasic"] == Prepare(basic, labels.market).value)
    ensures |r.logs| <= 2
    ensures forall k :: k in r.cache ==> !IsEmpty(r.cache[k]) || (k in cache && r.cache[k] == cache[k])
  {
    if |cache| > 0 then CacheStep(cache, [], [], None)
    else
      var first := Store(cache, p, IndexDailyCall(start, end), "index_daily", "大盘日线: ", labels.market);
      if first.raised.Some? then first
      else
        var second := Store(first.cache, p, IndexBasicCall(start, end), "index_dailybasic", "大盘估值: ", labels.market);
        CacheStep(second.cache, first.calls + second.calls, first.logs + second.logs, second.raised)
  }

  /** The log lines of a fill from an empty cache: for each index call made, its warning
      when the provider raised, or its info line with the row count when the table was
      stored. */
  lemma FetchSharedLogs(p: Provider, labels: Labels, start: string, end: string)
    ensures var r := FetchShared(map[], p, labels, start, end);
      var daily := CallTable(p, IndexDailyCall(start, end));
      var basic := CallTable(p, IndexBasicCall(start, end));
      var dailyLogs := CallWarnings(p, IndexDailyCall(start, end)) +
        (if Storable(daily, labels.market) then [StoredLine("大盘日线: ", |daily.rows|)] else []);
      var basicLogs := CallWarnings(p, IndexBasicCall(start, end)) +
        (if Storable(basic, labels.market) then [StoredLine("大盘估值: ", |basic.rows|)] else []);
      r.logs == dailyLogs + (if r.calls == [IndexDailyCall(start, end)] then [] else basicLogs)
  {
  }

  /** `clear_cache`. */
  function ClearCache(): (c: Cache)
    ensures |c| == 0
  {
    map[]
  }

  /** Once the cache holds anything, further `fetch_shared` calls change nothing, call
      nobody and log nothing; while it is empty, the next call asks the provider again. */
  lemma FetchSharedOnce(cache: Cache, p: Provider, labels: Labels, start: string, end: string, start2: string, end2: string)
    ensures var first := FetchShared(cache, p, labels, start, end);
      |first.cache| > 0 ==> FetchShared(first.cache, p, labels, start2, end2) == CacheStep(first.cache, [], [], None)
    ensures var first := FetchShared(cache, p, labels, start, end);
      |first.cache| == 0 ==> FetchShared(first.cache, p, labels, start2, end2).calls[0] == IndexDailyCall(start2, end2)
  {
  }

  /** After a clear, the next `fetch_shared` consults the provider: nothing from an earlier
      task survives into the next. */
  lemma ClearThenFetch(cache: Cache, p: Provider, labels: Labels, start: string, end: string)
    ensures FetchShared(ClearCache(), p, labels, start, end).calls[0] == IndexDailyCall(start, end)
    ensures FetchShared(ClearCache(), p, labels, start, end).cache.Keys <= {"index_daily", "index_dailybasic"}
  {
  }

  /** A security's level-1 industry: its code and the name as the info line prints it. */
  datatype Industry = Industry(code: string, name: string)

  /** What `_get_sw_l1` returns, and the warning it logged, if any. */
  datatype SwFound = SwFound(industry: Option<Industry>, logs: seq<string>)

  /** `f"{value}"` of a cell: its text, `None` when missing. */
  function ShowValue(v: Value): string {
    match v
    case Cell(s) => s
    case Null => "None"
  }

  /** The warning `_get_sw_l1` logs for an exception inside its `try`. */
  function MemberWarning(code: string, text: string): string {
    "  ✗ index_member_all(" + code + "): " + Take(text, 80)
  }

  /** The first row of a lookup reply carries a usable industry: both columns exist and the
      code is a non-blank value. */
  predicate HasIndustry(t: Table) {
    && !IsEmpty(t) && "l1_code" in t.columns && "l1_name" in t.columns
    && Lookup(t.columns, t.rows[0], "l1_code").Cell? && Lookup(t.columns, t.rows[0], "l1_code").text != ""
  }

  /** `_get_sw_l1`: the first row's level-1 industry code and name. Nothing is found when the
      lookup raised, returned `None` or an empty table, lacked a column, or gave a blank code.
      An exception inside the `try` (the provider's, or the `KeyError` of a missing column,
      the code column read first) is logged as a warning. */
  function SwL1(p: Provider, code: string): (r: SwFound)
    ensures r.industry.Some? <==> p(MemberCall(code)).Rows? && HasIndustry(p(MemberCall(code)).table)
    ensures r.industry.Some? ==> var t := p(MemberCall(code)).table;
      r.industry.value == Industry(Lookup(t.columns, t.rows[0], "l1_code").text, ShowValue(Lookup(t.columns, t.rows[0], "l1_name")))
    ensures r.industry.Some? ==> r.logs == []
    ensures p(MemberCall(code)).Raises? ==> r.logs == [MemberWarning(code, p(MemberCall(code)).message)]
    ensures p(MemberCall(code)).NoneReply? ==> r.logs == []
    ensures p(MemberCall(code)).Rows? ==> var t := p(MemberCall(code)).table;
      && (IsEmpty(t) ==> r.logs == [])
      && (!IsEmpty(t) && "l1_code" !in t.columns ==> r.logs == [MemberWarning(code, KeyErrorText("l1_code"))])
      && (!IsEmpty(t) && "l1_code" in t.columns && "l1_name" !in t.columns ==>
            r.logs == [MemberWarning(code, KeyErrorText("l1_name"))])
      && (!IsEmpty(t) && "l1_code" in t.columns && "l1_name" in t.columns ==> r.logs == [])
  {
    match p(MemberCall(code))
    case Raises(m) => SwFound(None, [MemberWarning(code, m)])
    case NoneReply => SwFound(None, [])
    case Rows(t) =>
      if IsEmpty(t) then SwFound(None, [])
      else if "l1_code" !in t.columns then SwFound(None, [MemberWarning(code, KeyErrorText("l1_code"))])
      else if "l1_name" !in t.columns then SwFound(None, [MemberWarning(code, KeyErrorText("l1_name"))])
      else
        var l1 := Lookup(t.columns, t.rows[0], "l1_code");
        if l1.Cell? && l1.text != "" then
          SwFound(Some(Industry(l1.text, ShowValue(Lookup(t.columns, t.rows[0], "l1_name")))), [])
        else SwFound(None, [])
  }

  /** The warning `get_sheets` logs when no industry was found. */
  function NotFoundLine(code: string): string {
    "  - " + code + " 未找到申万一级行业，跳过"
  }

  /** What the industry info line shows before the row count. */
  function IndustryLabel(code: string, ind: Industry): string {
    code + " 申万行业: " + ind.name + "(" + ind.code + ") | "
  }

  /** `get_sheets`: a copy of the shared cache, plus the industry-index table when the
      security's level-1 industry was found and its table is non-empty. The cache itself is
      not an output: it is left as it was. An exception of the industry table's preparation
      propagates. */
  function GetSheets(cache: Cache, p: Provider, labels: Labels, code: string, start: string, end: string): (r: CacheStep)
    ensures forall k :: k in cache && k != "sw_daily" ==> k in r.cache && r.cache[k] == cache[k]
    ensures r.cache.Keys == cache.Keys || r.cache.Keys == cache.Keys + {"sw_daily"}
    ensures |r.logs| <= 2
    ensures var sw := SwL1(p, code);
      sw.industry.None? ==> r == CacheStep(cache, [MemberCall(code)], sw.logs + [NotFoundLine(code)], None)
    ensures var sw := SwL1(p, code);
      sw.industry.Some? ==>
        var c := SwDailyCall(sw.industry.value.code, start, end);
        var t := CallTable(p, c);
        && r.calls == [MemberCall(code), c]
        && (r.raised.Some? <==> !IsEmpty(t) && Prepare(t, labels.industry).Failure?)
        && (r.raised.Some? ==> r.raised.value == NotUniqueText(TradeDate))
        && r.cache == (if Storable(t, labels.industry) then cache["sw_daily" := Prepare(t, labels.industry).value] else cache)
        && r.logs == CallWarnings(p, c) +
             (if Storable(t, labels.industry) then [StoredLine(IndustryLabel(code, sw.industry.value), |t.rows|)] else [])
  {
    var sw := SwL1(p, code);
    match sw.industry
    case None => CacheStep(cache, [MemberCall(code)], sw.logs + [NotFoundLine(code)], None)
    case Some(ind) =>
      var c := SwDailyCall(ind.code, start, end);
      var st := Store(cache, p, c, "sw_daily", IndustryLabel(code, ind), labels.industry);
      CacheStep(st.cache, [MemberCall(code)] + st.calls, st.logs, st.raised)
  }

  /** Every table a security gets from the market side is non-empty when the cache holds
      only non-empty tables. */
  lemma GetSheetsNonEmpty(cache: Cache, p: Provider, labels: Labels, code: string, start: string, end: string)
    requires forall k :: k in cache ==> !IsEmpty(cache[k])
    ensures var r := GetSheets(cache, p, labels, code, start, end).cache;
      forall k :: k in r ==> !IsEmpty(r[k])
  {
  }
}
