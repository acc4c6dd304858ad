/** The upstream data provider, seen only through its calls and replies. Which table a
    call returns is not known to the program, so the provider is a parameter: any
    function from calls to replies. */
module Upstream {
  import opened Wrappers
  import opened Tables

  /** One provider request: the endpoint name and its keyword arguments. */
  datatype Call = Call(api: string, args: map<string, string>)

  /** What a call gives back: a table, Python `None`, or a raised exception. */
  datatype Reply = Rows(table: Table) | NoneReply | Raises(message: string)

  type Provider = Call -> Reply

  /** `MarketFetcher._call`: the provider's table, or an empty table when it returned `None`
      or raised (the exception is logged and swallowed). */
  function CallTable(p: Provider, c: Call): (t: Table)
    ensures p(c).Rows? ==> t == p(c).table
    ensures !p(c).Rows? ==> t == EmptyTable && IsEmpty(t)
  {
    match p(c)
    case Rows(t) => t
    case _ => EmptyTable
  }

  /** The number of calls to endpoint `api` in a call trace. */
  function CountApi(calls: seq<Call>, api: string): nat
  {
    if |calls| == 0 then 0
    else (if calls[0].api == api then 1 else 0) + CountApi(calls[1..], api)
  }

  lemma {:induction false} CountApiAppend(a: seq<Call>, b: seq<Call>, api: string)
    ensures CountApi(a + b, api) == CountApi(a, api) + CountApi(b, api)
  {
    if |a| == 0 {
      assert a + b == b;
    } else {
      CountApiAppend(a[1..], b, api);
      assert (a + b)[1..] == a[1..] + b;
    }
  }

  /** A trace without any call to `api` counts none. */
  lemma {:induction false} CountApiAbsent(calls: seq<Call>, api: string)
    requires forall k :: 0 <= k < |calls| ==> calls[k].api != api
    ensures CountApi(calls, api) == 0
    decreases |calls|
  {
    if |calls| > 0 {
      CountApiAbsent(calls[1..], api);
    }
  }
}
