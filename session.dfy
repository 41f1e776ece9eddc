/**
  The script as a whole (stock_comparison.py:68-139): the three prompt
  loops read successive lines of one input stream, the accepted symbols
  are fetched for the accepted range, and the report and the chart are
  shown depending on what was fetched (lines 132-139).
*/
module Session {
  import opened Wrappers
  import opened Console
  import opened OrderedDict
  import opened Dates
  import opened Symbols
  import opened Fetching
  import opened Summary

  const NoValidData := "No valid data found for any stock symbols. Exiting the program."

  /** A sequence of runs each made only of Print events concatenates to Print events only. */
  lemma {:induction false} ConcatPrints(bs: seq<seq<Event>>)
    requires forall i, k :: 0 <= i < |bs| && 0 <= k < |bs[i]| ==> bs[i][k].Print?
    ensures forall k :: 0 <= k < |Concat(bs)| ==> Concat(bs)[k].Print?
  {
    if bs != [] {
      ConcatPrints(bs[..|bs| - 1]);
    }
  }

  /** The summary report only prints. */
  lemma ReportPrints(stockInfo: Dict<Info>)
    requires Valid(stockInfo)
    ensures |Report(stockInfo)| >= 2
    ensures forall k :: 0 <= k < |Report(stockInfo)| ==> Report(stockInfo)[k].Print?
  {
    var bs: seq<seq<Event>> := BlocksOf(stockInfo.keys, stockInfo.entries);
    forall i: int, k: int | 0 <= i < |bs| && 0 <= k < |bs[i]| ensures bs[i][k].Print? {
      assert bs[i] == Block(stockInfo.keys[i], stockInfo.entries[stockInfo.keys[i]]);
    }
    ConcatPrints(bs);
  }

  /** What lines 132-139 show: the report when stock_info is non-empty, then
      the chart of stock_data when it is non-empty, or else the closing message. */
  function Gate(stockData: Dict<Series>, stockInfo: Dict<Info>): (r: seq<Event>)
    requires Valid(stockInfo)
    ensures |r| > 0
    ensures r[|r| - 1] == if NonEmpty(stockData) then Plot(stockData.keys) else Print(NoValidData)
    ensures forall i :: 0 <= i < |r| - 1 ==> r[i].Print?
    ensures NonEmpty(stockInfo) <==> |r| > 1
    ensures NonEmpty(stockInfo) ==> r[..|r| - 1] == Report(stockInfo)
  {
    ReportPrints(stockInfo);
    var report := if NonEmpty(stockInfo) then Report(stockInfo) else [];
    var r := report + [if NonEmpty(stockData) then Plot(stockData.keys) else Print(NoValidData)];
    assert r[..|r| - 1] == report;
    r
  }

  /** The report/plot gating (lines 132-139). */
  method Finish(stockData: Dict<Series>, stockInfo: Dict<Info>) returns (trace: seq<Event>)
    requires Valid(stockInfo)
    ensures trace == Gate(stockData, stockInfo)
  {
    trace := [];
    if NonEmpty(stockInfo) {
      trace := GenerateSummaryReport(stockInfo);
    }
    if NonEmpty(stockData) {
      trace := trace + [Plot(stockData.keys)];
    } else {
      trace := trace + [Print(NoValidData)];
    }
  }

  /** When the two dictionaries have the same keys, as the fetch loop leaves
      them, the report is shown exactly when the chart is. */
  lemma ReportIffPlot(stockData: Dict<Series>, stockInfo: Dict<Info>)
    requires Valid(stockInfo) && stockData.keys == stockInfo.keys
    ensures var r := Gate(stockData, stockInfo);
      (r[0] == Print(Title)) <==> r[|r| - 1].Plot?
  {
    var r := Gate(stockData, stockInfo);
    if NonEmpty(stockInfo) {
      GateStarts(stockData, stockInfo);
    } else {
      assert r == [Print(NoValidData)];
      assert |Title| == 15 && |NoValidData| > 15;
    }
  }

  /** With metadata to show, the output opens with the report's title. */
  lemma GateStarts(stockData: Dict<Series>, stockInfo: Dict<Info>)
    requires Valid(stockInfo) && NonEmpty(stockInfo)
    ensures Gate(stockData, stockInfo)[0] == Print(Title)
  {
    var r := Gate(stockData, stockInfo);
    assert r[0] == r[..|r| - 1][0];
  }

  // ---------------------------------------------------------------- the whole run

  datatype Outcome =
    | InputExhausted
    | Completed(symbols: seq<string>, start: Date, end: Date, stockData: Dict<Series>, stockInfo: Dict<Info>)

  /** What the three prompt loops (lines 71-119) read and show. */
  datatype Answers = Answers(trace: seq<Event>, symbols: Option<seq<string>>, start: Option<Date>, end: Option<Date>)

  /** The three prompt loops on successive lines of `input`; a loop that runs
      out of input leaves its answer (and every later one) missing. */
  function Ask(input: seq<string>, isValid: string -> bool, parse: string -> Option<Date>, today: Date): (r: Answers)
    ensures r.start.Some? ==> r.symbols.Some?
    ensures r.end.Some? ==> r.start.Some?
  {
    var s := Retry(input, JudgeSymbols(isValid));
    if s.accepted.None? then Answers(s.trace, None, None, None)
    else
      var rest := input[s.consumed..];
      var a := Retry(rest, JudgeStart(parse, today));
      if a.accepted.None? then Answers(s.trace + a.trace, s.accepted, None, None)
      else
        var b := Retry(rest[a.consumed..], JudgeEnd(parse, a.accepted.value, today));
        Answers(s.trace + a.trace + b.trace, s.accepted, a.accepted, b.accepted)
  }

  /** The script run on the lines of `input`: everything it shows, and where it
      ends. When the input runs out inside a prompt loop (input() raising
      EOFError) the run stops there. */
  function Script(input: seq<string>, isValid: string -> bool, parse: string -> Option<Date>, today: Date, provider: Provider): (seq<Event>, Outcome) {
    var q := Ask(input, isValid, parse, today);
    if q.end.None? then (q.trace, InputExhausted)
    else Complete(q.trace, q.symbols.value, q.start.value, q.end.value, provider)
  }

  /** The prompts only print. */
  lemma AskPrints(input: seq<string>, isValid: string -> bool, parse: string -> Option<Date>, today: Date)
    ensures OnlyPrints(Ask(input, isValid, parse, today).trace)
  {
    var s := Retry(input, JudgeSymbols(isValid));
    RetryPrints(input, JudgeSymbols(isValid));
    if s.accepted.Some? {
      var rest := input[s.consumed..];
      var a := Retry(rest, JudgeStart(parse, today));
      RetryPrints(rest, JudgeStart(parse, today));
      PrintsAppend(s.trace, a.trace);
      if a.accepted.Some? {
        var b := Retry(rest[a.consumed..], JudgeEnd(parse, a.accepted.value, today));
        RetryPrints(rest[a.consumed..], JudgeEnd(parse, a.accepted.value, today));
        PrintsAppend(s.trace + a.trace, b.trace);
      }
    }
  }

  /** Answers that got through all three prompts are a non-empty list of
      symbols the provider accepts and a range that is ordered and not in the future. */
  lemma AskAccepts(input: seq<string>, isValid: string -> bool, parse: string -> Option<Date>, today: Date)
    ensures var q := Ask(input, isValid, parse, today);
      q.end.Some? ==>
        && |q.symbols.value| > 0
        && (forall i :: 0 <= i < |q.symbols.value| ==> isValid(q.symbols.value[i]))
        && Le(q.start.value, q.end.value) && Le(q.end.value, today)
  {
    var s := Retry(input, JudgeSymbols(isValid));
    if s.accepted.Some? {
      var line := input[s.consumed - 1];
      assert JudgeSymbolsLine(line, isValid) == Accept(s.accepted.value);
      assert |s.accepted.value| == |Normalise(line)| > 0;
      var rest := input[s.consumed..];
      var a := Retry(rest, JudgeStart(parse, today));
      if a.accepted.Some? {
        var b := Retry(rest[a.consumed..], JudgeEnd(parse, a.accepted.value, today));
        if b.accepted.Some? {
          AcceptedRange(rest, rest[a.consumed..], parse, today);
        }
      }
    }
  }

  /** The run after the prompts (lines 122-139), following the messages `shown` so far. */
  function Complete(shown: seq<Event>, symbols: seq<string>, start: Date, end: Date, provider: Provider): (seq<Event>, Outcome) {
    var agg := Aggregate(symbols, start, end, provider);
    (shown + agg.trace + Gate(agg.data, agg.info), Completed(symbols, start, end, agg.data, agg.info))
  }

  /** What a completed run guarantees: every symbol was validated in the same
      line, the range is ordered and not in the future, both dictionaries hold
      exactly the symbols with data in order of first insertion, and the run
      ends with the chart of those symbols or, when there are none, with the
      closing message. */
  ghost predicate CompletedWell(trace: seq<Event>, outcome: Outcome, isValid: string -> bool, today: Date, provider: Provider)
    requires outcome.Completed?
  {
    && |outcome.symbols| > 0
    && (forall i :: 0 <= i < |outcome.symbols| ==> isValid(outcome.symbols[i]))
    && Le(outcome.start, outcome.end) && Le(outcome.end, today)
    && outcome.stockData.keys == outcome.stockInfo.keys == InsertionOrder(Kept(outcome.symbols, outcome.start, outcome.end, provider))
    && |trace| > 0
    && trace[|trace| - 1] == (if outcome.stockData.keys != [] then Plot(outcome.stockData.keys) else Print(NoValidData))
  }

  /** A run whose input runs out shows only messages: no chart. */
  ghost predicate OnlyPrints(trace: seq<Event>) {
    forall i :: 0 <= i < |trace| ==> trace[i].Print?
  }

  lemma PrintsAppend(a: seq<Event>, b: seq<Event>)
    requires OnlyPrints(a) && OnlyPrints(b)
    ensures OnlyPrints(a + b)
  {
  }

  /** A run that gets through the three prompts keeps the promises of CompletedWell. */
  lemma ScriptCompletes(input: seq<string>, isValid: string -> bool, parse: string -> Option<Date>, today: Date, provider: Provider)
    ensures var r := Script(input, isValid, parse, today, provider);
      r.1.Completed? ==> CompletedWell(r.0, r.1, isValid, today, provider)
  {
    var q := Ask(input, isValid, parse, today);
    if q.end.Some? {
      AskAccepts(input, isValid, parse, today);
      CompleteSpec(q.trace, q.symbols.value, q.start.value, q.end.value, provider, isValid, today);
    }
  }

  /** A run whose input runs out inside a prompt loop has shown only messages. */
  lemma ScriptStopsQuietly(input: seq<string>, isValid: string -> bool, parse: string -> Option<Date>, today: Date, provider: Provider)
    ensures var r := Script(input, isValid, parse, today, provider);
      r.1.InputExhausted? ==> OnlyPrints(r.0)
  {
    AskPrints(input, isValid, parse, today);
  }

  /** After prompts that accepted valid symbols and an ordered range, the run
      keeps the promises of CompletedWell. */
  lemma CompleteSpec(shown: seq<Event>, symbols: seq<string>, start: Date, end: Date, provider: Provider, isValid: string -> bool, today: Date)
    requires |symbols| > 0 && forall i :: 0 <= i < |symbols| ==> isValid(symbols[i])
    requires Le(start, end) && Le(end, today)
    ensures var r := Complete(shown, symbols, start, end, provider);
      r.1.Completed? && CompletedWell(r.0, r.1, isValid, today, provider)
  {
    var r := Complete(shown, symbols, start, end, provider);
    var agg := Aggregate(symbols, start, end, provider);
    var g := Gate(agg.data, agg.info);
    assert r.0 == (shown + agg.trace) + g;
    assert r.0[|r.0| - 1] == g[|g| - 1];
    AggregateSpec(symbols, start, end, provider);
  }

  /** The three prompt loops (lines 71-119), each reading on where the one before stopped. */
  method AskAll(input: seq<string>, isValid: string -> bool, parse: string -> Option<Date>, today: Date)
    returns (answers: Answers)
    ensures answers == Ask(input, isValid, parse, today)
  {
    var c1, symbols, t1 := CollectSymbols(input, isValid);
    if symbols.None? {
      return Answers(t1, None, None, None);
    }
    var rest := input[c1..];
    var c2, start, t2 := CollectStartDate(rest, parse, today);
    if start.None? {
      return Answers(t1 + t2, symbols, None, None);
    }
    var c3, end, t3 := CollectEndDate(rest[c2..], parse, start.value, today);
    answers := Answers(t1 + t2 + t3, symbols, start, end);
  }

  /** The script (lines 68-139), with the console, the provider and the clock as parameters. */
  method Run(input: seq<string>, isValid: string -> bool, parse: string -> Option<Date>, today: Date, provider: Provider)
    returns (trace: seq<Event>, outcome: Outcome)
    ensures (trace, outcome) == Script(input, isValid, parse, today, provider)
  {
    var answers := AskAll(input, isValid, parse, today);
    if answers.end.None? {
      return answers.trace, InputExhausted;
    }
    var symbols, start, end := answers.symbols.value, answers.start.value, answers.end.value;
    var stockData, stockInfo, t4 := FetchAll(symbols, start, end, provider);
    var t5 := Finish(stockData, stockInfo);
    trace := answers.trace + t4 + t5;
    outcome := Completed(symbols, start, end, stockData, stockInfo);
  }

  // ---------------------------------------------------------------- scenarios

  /** Two tickers that both have data: the report comes first and the chart
      shows exactly those two, in the order given. */
  lemma TwoTickers(start: Date, end: Date, provider: Provider)
    requires HasData("AAPL", start, end, provider) && HasData("MSFT", start, end, provider)
    ensures var agg := Aggregate(["AAPL", "MSFT"], start, end, provider);
      var r := Gate(agg.data, agg.info);
      && agg.data.keys == ["AAPL", "MSFT"]
      && r[0] == Print(Title)
      && r[|r| - 1] == Plot(["AAPL", "MSFT"])
  {
    var symbols := ["AAPL", "MSFT"];
    assert symbols[..1] == ["AAPL"] && ["AAPL"][..0] == [];
    assert Kept(["AAPL"], start, end, provider) == ["AAPL"];
    assert Kept(symbols, start, end, provider) == symbols;
    assert symbols[0] != symbols[1];
    InsertionOrderDistinct(symbols);
    AggregateSpec(symbols, start, end, provider);
    var agg := Aggregate(symbols, start, end, provider);
    GateStarts(agg.data, agg.info);
  }

  /** When no validated ticker has data, no report and no chart are shown:
      only the closing message. */
  lemma NoDataNoPlot(symbols: seq<string>, start: Date, end: Date, provider: Provider)
    requires forall s :: s in symbols ==> !HasData(s, start, end, provider)
    ensures var agg := Aggregate(symbols, start, end, provider);
      Gate(agg.data, agg.info) == [Print(NoValidData)]
  {
    AggregateSpec(symbols, start, end, provider);
    var kept := Kept(symbols, start, end, provider);
    assert forall k :: k !in kept;
    assert kept == [];
  }
}
