/**
  fetch_stock_data and the loop that fills stock_data and stock_info
  (stock_comparison.py:21-28, 122-129). The market-data provider is the
  caller-supplied `provider`: its answer for (symbol, start, end) is the
  price history and metadata, or None where the history or metadata lookup
  raises ValueError.
*/
module Fetching {
  import opened Wrappers
  import opened Console
  import opened Dates
  import opened OrderedDict

  /** One row of price history. Only whether a series has rows matters here. */
  datatype Row = Row(date: Date, open: real, high: real, low: real, close: real, volume: int)

  type Series = seq<Row>

  /** Metadata for one ticker, its values already rendered as text. */
  type Info = map<string, string>

  type Provider = (string, Date, Date) -> Option<(Series, Info)>

  datatype Fetched = Fetched(series: Series, info: Info, trace: seq<Event>)

  function NoDataFound(symbol: string): string {
    "No data found for stock symbol: " + symbol + ". Please re-enter."
  }

  /** fetch_stock_data (lines 21-28): the provider's history and metadata, or,
      when the lookup fails, an empty series, an empty map and a message naming the symbol. */
  function FetchStockData(symbol: string, start: Date, end: Date, provider: Provider): (r: Fetched)
    ensures provider(symbol, start, end).None? ==> r.series == [] && r.info == map[] && r.trace == [Print(NoDataFound(symbol))]
    ensures provider(symbol, start, end).Some? ==> (r.series, r.info) == provider(symbol, start, end).value && r.trace == []
  {
    match provider(symbol, start, end)
    case None => Fetched([], map[], [Print(NoDataFound(symbol))])
    case Some((series, info)) => Fetched(series, info, [])
  }

  /** Whether the symbol's fetched series has rows (`not data.empty`). */
  predicate HasData(symbol: string, start: Date, end: Date, provider: Provider) {
    FetchStockData(symbol, start, end, provider).series != []
  }

  /** The symbols whose fetch gives rows, in the order they are fetched. */
  function Kept(symbols: seq<string>, start: Date, end: Date, provider: Provider): (r: seq<string>)
    ensures forall k :: k in r <==> k in symbols && HasData(k, start, end, provider)
    ensures |r| <= |symbols|
  {
    if symbols == [] then []
    else
      var prefix := Kept(symbols[..|symbols| - 1], start, end, provider);
      var last := symbols[|symbols| - 1];
      assert symbols == symbols[..|symbols| - 1] + [last];
      if HasData(last, start, end, provider) then prefix + [last] else prefix
  }

  /** The symbols whose fetch fails, in the order they are fetched. */
  function Failed(symbols: seq<string>, start: Date, end: Date, provider: Provider): (r: seq<string>)
    ensures forall k :: k in r <==> k in symbols && provider(k, start, end).None?
    ensures |r| <= |symbols|
  {
    if symbols == [] then []
    else
      var prefix := Failed(symbols[..|symbols| - 1], start, end, provider);
      var last := symbols[|symbols| - 1];
      assert symbols == symbols[..|symbols| - 1] + [last];
      if provider(last, start, end).None? then prefix + [last] else prefix
  }

  /** Kept goes through the list in order: keeping from `a + b` is keeping
      from `a`, then from `b`. With `|Kept([x])| <= 1` this fixes the order. */
  lemma {:induction false} KeptAppend(a: seq<string>, b: seq<string>, start: Date, end: Date, provider: Provider)
    ensures Kept(a + b, start, end, provider) == Kept(a, start, end, provider) + Kept(b, start, end, provider)
  {
    if b != [] {
      var b' := b[..|b| - 1];
      KeptAppend(a, b', start, end, provider);
      assert (a + b)[..|a + b| - 1] == a + b';
      assert (a + b)[|a + b| - 1] == b[|b| - 1];
    } else {
      assert a + b == a;
    }
  }

  /** Failed goes through the list in order, as Kept does. */
  lemma {:induction false} FailedAppend(a: seq<string>, b: seq<string>, start: Date, end: Date, provider: Provider)
    ensures Failed(a + b, start, end, provider) == Failed(a, start, end, provider) + Failed(b, start, end, provider)
  {
    if b != [] {
      var b' := b[..|b| - 1];
      FailedAppend(a, b', start, end, provider);
      assert (a + b)[..|a + b| - 1] == a + b';
      assert (a + b)[|a + b| - 1] == b[|b| - 1];
    } else {
      assert a + b == a;
    }
  }

  /** Of two kept symbols, the one kept first occurs first in the list. */
  lemma {:induction false} KeptFirstOrder(symbols: seq<string>, start: Date, end: Date, provider: Provider)
    ensures var kept := Kept(symbols, start, end, provider);
      forall x, y :: x in kept && y in kept && FirstIndex(kept, x) < FirstIndex(kept, y) ==>
        FirstIndex(symbols, x) < FirstIndex(symbols, y)
  {
    if symbols != [] {
      var n := |symbols| - 1;
      var p, last := symbols[..n], symbols[n];
      KeptFirstOrder(p, start, end, provider);
      var kp := Kept(p, start, end, provider);
      var kept := Kept(symbols, start, end, provider);
      assert symbols == p + [last];
      assert kept == kp || kept == kp + [last];
      forall x, y | x in kept && y in kept && FirstIndex(kept, x) < FirstIndex(kept, y)
        ensures FirstIndex(symbols, x) < FirstIndex(symbols, y)
      {
        KeptFirstStep(symbols, kp, kept, x, y);
      }
    }
  }

  /** The inductive step of KeptFirstOrder for one pair of symbols, with
      `kp` and `kept` what is kept from `symbols` without and with its last element. */
  lemma KeptFirstStep(symbols: seq<string>, kp: seq<string>, kept: seq<string>, x: string, y: string)
    requires symbols != []
    requires var n := |symbols| - 1;
      && (kept == kp || kept == kp + [symbols[n]])
      && (forall k :: k in kept && k in symbols[..n] ==> k in kp)
      && (forall k :: k in kp ==> k in symbols[..n])
    requires x in kp && y in kp && FirstIndex(kp, x) < FirstIndex(kp, y) ==>
      FirstIndex(symbols[..|symbols| - 1], x) < FirstIndex(symbols[..|symbols| - 1], y)
    requires x in kept && y in kept && FirstIndex(kept, x) < FirstIndex(kept, y)
    ensures FirstIndex(symbols, x) < FirstIndex(symbols, y)
  {
    var n := |symbols| - 1;
    var p := symbols[..n];
    assert kept[..|kp|] == kp;
    var fx := FirstIndex(kept, x);
    assert fx < |kp| && kept[fx] == kp[fx];
    FirstIndexPrefix(kept, |kp|, x);
    FirstIndexPrefix(symbols, n, x);
    if y in kp {
      FirstIndexPrefix(kept, |kp|, y);
      FirstIndexPrefix(symbols, n, y);
    } else {
      assert y !in p;
      FirstIndexLast(symbols, y);
    }
  }

  /** One NoDataFound message per symbol. */
  function FailureTrace(symbols: seq<string>): (r: seq<Event>)
    ensures |r| == |symbols|
    ensures forall i :: 0 <= i < |symbols| ==> r[i] == Print(NoDataFound(symbols[i]))
  {
    if symbols == [] then [] else FailureTrace(symbols[..|symbols| - 1]) + [Print(NoDataFound(symbols[|symbols| - 1]))]
  }

  datatype Aggregated = Aggregated(data: Dict<Series>, info: Dict<Info>, trace: seq<Event>)

  /** One iteration of the fetch loop (lines 126-129). */
  function Step(a: Aggregated, symbol: string, f: Fetched): (r: Aggregated)
    requires Valid(a.data) && Valid(a.info)
    ensures Valid(r.data) && Valid(r.info)
  {
    if f.series != [] then Aggregated(Put(a.data, symbol, f.series), Put(a.info, symbol, f.info), a.trace + f.trace)
    else Aggregated(a.data, a.info, a.trace + f.trace)
  }

  /** The dictionaries and messages the fetch loop (lines 122-129) leaves after
      going through `symbols` in order. */
  function Aggregate(symbols: seq<string>, start: Date, end: Date, provider: Provider): (r: Aggregated)
    ensures Valid(r.data) && Valid(r.info)
  {
    if symbols == [] then Aggregated(Empty(), Empty(), [])
    else
      var last := symbols[|symbols| - 1];
      Step(Aggregate(symbols[..|symbols| - 1], start, end, provider), last, FetchStockData(last, start, end, provider))
  }

  /** What the fetch loop promises: stock_data and stock_info have the same keys,
      namely the symbols with a non-empty series in order of first insertion;
      each holds that symbol's fetched series and metadata; one message is
      printed per failed fetch. */
  lemma AggregateSpec(symbols: seq<string>, start: Date, end: Date, provider: Provider)
    ensures var r := Aggregate(symbols, start, end, provider);
      && r.data.keys == r.info.keys == InsertionOrder(Kept(symbols, start, end, provider))
      && (forall k :: k in r.data.entries ==>
            && r.data.entries[k] == FetchStockData(k, start, end, provider).series
            && r.data.entries[k] != []
            && r.info.entries[k] == FetchStockData(k, start, end, provider).info)
      && r.trace == FailureTrace(Failed(symbols, start, end, provider))
  {
    AggregateKeys(symbols, start, end, provider);
    AggregateValues(symbols, start, end, provider);
    AggregateTrace(symbols, start, end, provider);
  }

  lemma {:induction false} AggregateKeys(symbols: seq<string>, start: Date, end: Date, provider: Provider)
    ensures var r := Aggregate(symbols, start, end, provider);
      r.data.keys == r.info.keys == InsertionOrder(Kept(symbols, start, end, provider))
  {
    if symbols != [] {
      var prefix := symbols[..|symbols| - 1];
      var last := symbols[|symbols| - 1];
      AggregateKeys(prefix, start, end, provider);
      var a := Aggregate(prefix, start, end, provider);
      var kept := Kept(prefix, start, end, provider);
      assert (kept + [last])[..|kept|] == kept;
      assert last in a.data.entries <==> last in a.data.keys;
      assert last in a.info.entries <==> last in a.info.keys;
    }
  }

  lemma {:induction false} AggregateValues(symbols: seq<string>, start: Date, end: Date, provider: Provider)
    ensures var r := Aggregate(symbols, start, end, provider);
      forall k :: k in r.data.entries ==>
        && k in r.info.entries
        && r.data.entries[k] == FetchStockData(k, start, end, provider).series
        && r.data.entries[k] != []
        && r.info.entries[k] == FetchStockData(k, start, end, provider).info
  {
    if symbols != [] {
      AggregateValues(symbols[..|symbols| - 1], start, end, provider);
    }
  }

  lemma {:induction false} AggregateTrace(symbols: seq<string>, start: Date, end: Date, provider: Provider)
    ensures Aggregate(symbols, start, end, provider).trace == FailureTrace(Failed(symbols, start, end, provider))
  {
    if symbols != [] {
      var prefix := symbols[..|symbols| - 1];
      var last := symbols[|symbols| - 1];
      AggregateTrace(prefix, start, end, provider);
      var failed := Failed(prefix, start, end, provider);
      if provider(last, start, end).None? {
        assert (failed + [last])[..|failed|] == failed;
      }
    }
  }

  /** A symbol is in the dictionaries exactly when it was fetched and its series is non-empty. */
  lemma AggregateMembers(symbols: seq<string>, start: Date, end: Date, provider: Provider)
    ensures var r := Aggregate(symbols, start, end, provider);
      forall k :: (k in r.data.entries <==> k in r.info.entries) && (k in r.data.entries <==> k in symbols && HasData(k, start, end, provider))
  {
    AggregateSpec(symbols, start, end, provider);
  }

  /** stock_data and stock_info iterate their keys in the order the symbols
      were entered: of two keys, the first one occurs first in `symbols`. */
  lemma AggregateOrder(symbols: seq<string>, start: Date, end: Date, provider: Provider)
    ensures FirstOrdered(symbols, Aggregate(symbols, start, end, provider).data.keys)
  {
    var kept := Kept(symbols, start, end, provider);
    var keys := Aggregate(symbols, start, end, provider).data.keys;
    AggregateKeys(symbols, start, end, provider);
    InsertionOrderFirst(kept);
    KeptFirstOrder(symbols, start, end, provider);
    assert forall k :: k in keys ==> k in kept;
  }

  /** The fetch loop (lines 122-129). */
  method FetchAll(symbols: seq<string>, start: Date, end: Date, provider: Provider)
    returns (stockData: Dict<Series>, stockInfo: Dict<Info>, trace: seq<Event>)
    ensures Aggregated(stockData, stockInfo, trace) == Aggregate(symbols, start, end, provider)
    ensures Valid(stockData) && Valid(stockInfo)
    ensures stockData.keys == stockInfo.keys == InsertionOrder(Kept(symbols, start, end, provider))
    ensures forall k :: k in stockData.entries <==> k in symbols && HasData(k, start, end, provider)
    ensures FirstOrdered(symbols, stockData.keys)
  {
    stockData, stockInfo, trace := Empty(), Empty(), [];
    var i := 0;
    while i < |symbols|
      invariant i <= |symbols|
      invariant Aggregated(stockData, stockInfo, trace) == Aggregate(symbols[..i], start, end, provider)
    {
      var symbol := symbols[i];
      var fetched := FetchStockData(symbol, start, end, provider);
      if fetched.series != [] {
        stockData := Put(stockData, symbol, fetched.series);
        stockInfo := Put(stockInfo, symbol, fetched.info);
      }
      trace := trace + fetched.trace;
      assert symbols[..i + 1][..i] == symbols[..i];
      i := i + 1;
    }
    assert symbols[..i] == symbols;
    AggregateSpec(symbols, start, end, provider);
    AggregateMembers(symbols, start, end, provider);
    AggregateOrder(symbols, start, end, provider);
  }
}
