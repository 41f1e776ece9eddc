/**
  The symbol prompt loop (stock_comparison.py:71-90): a line of
  comma-separated tickers is normalised, then checked one by one against
  the provider's `isValid` (validate_stock_name), stopping at the first
  symbol it rejects. The line is accepted only when every symbol passed.
*/
module Symbols {
  import opened Wrappers
  import opened Text
  import opened Console

  /** A normalised entry: no comma, no lower-case letter, no surrounding whitespace. */
  predicate IsNormal(t: string) {
    && ',' !in t
    && (forall i :: 0 <= i < |t| ==> !IsLower(t[i]))
    && (t == [] || (!IsSpace(t[0]) && !IsSpace(t[|t| - 1])))
  }

  /** `[symbol.strip().upper() for symbol in stock_input.split(',')]` (line 76):
      one entry per comma-separated token, one more than there are commas. */
  function Normalise(raw: string): (r: seq<string>)
    ensures |r| == Count(raw, ',') + 1
    ensures forall i :: 0 <= i < |r| ==> r[i] == Upper(Strip(Split(raw, ',')[i])) && IsNormal(r[i])
  {
    var parts := Split(raw, ',');
    forall i | 0 <= i < |parts| ensures IsNormal(Upper(Strip(parts[i]))) {
      NormalToken(parts[i]);
    }
    seq(|parts|, i requires 0 <= i < |parts| => Upper(Strip(parts[i])))
  }

  lemma NormalToken(p: string)
    requires ',' !in p
    ensures IsNormal(Upper(Strip(p)))
  {
    var s := Strip(p);
    var u := Upper(s);
    StripSub(p, ',');
    UpperKeeps(s, ',');
    assert ',' !in u;
    assert forall i :: 0 <= i < |u| ==> !IsLower(u[i]);
    if s != [] {
      UpperCharSpace(s[0]);
      UpperCharSpace(s[|s| - 1]);
      assert !IsSpace(u[0]) && !IsSpace(u[|u| - 1]);
    }
  }

  /** An empty line normalises to one empty symbol. */
  lemma NormaliseEmpty()
    ensures Normalise("") == [""]
  {
    var r := Normalise("");
    assert Count("", ',') == 0;
    assert Split("", ',') == [""];
    assert Strip("") == "" && Upper("") == "";
    assert r[0] == "";
  }

  /** Normalising is idempotent: re-joining the normalised entries with commas
      and normalising again gives the same list. */
  lemma NormaliseIdempotent(raw: string)
    ensures Normalise(Join(Normalise(raw), ',')) == Normalise(raw)
  {
    var r := Normalise(raw);
    var joined := Join(r, ',');
    SplitJoin(r, ',');
    assert Split(joined, ',') == r;
    var r2 := Normalise(joined);
    assert |r2| == |r| by {
      assert |r2| == Count(joined, ',') + 1 == |Split(joined, ',')|;
    }
    forall i | 0 <= i < |r| ensures r2[i] == r[i] {
      assert r2[i] == Upper(Strip(r[i]));
      NormalFixed(r[i]);
    }
  }

  /** A normalised entry is its own normalisation. */
  lemma NormalFixed(t: string)
    requires IsNormal(t)
    ensures Upper(Strip(t)) == t
  {
    StripFixed(t);
    UpperFixed(t);
  }

  const NoSymbols := "Please enter at least one stock symbol."

  function InvalidSymbol(symbol: string): string {
    "Invalid stock symbol: " + symbol + ". Please re-enter."
  }

  /** What the checking loop (lines 80-86) leaves in valid_symbols: the longest
      prefix of `symbols` whose every entry the provider accepts. */
  function ValidPrefix(symbols: seq<string>, isValid: string -> bool): (r: seq<string>)
    ensures |r| <= |symbols| && r == symbols[..|r|]
    ensures forall i :: 0 <= i < |r| ==> isValid(r[i])
    ensures |r| < |symbols| ==> !isValid(symbols[|r|])
  {
    if symbols == [] || !isValid(symbols[0]) then []
    else [symbols[0]] + ValidPrefix(symbols[1..], isValid)
  }

  /** ValidPrefix is the only prefix with its contract. */
  lemma {:induction false} ValidPrefixUnique(symbols: seq<string>, isValid: string -> bool, n: nat)
    requires n <= |symbols|
    requires forall i :: 0 <= i < n ==> isValid(symbols[i])
    requires n < |symbols| ==> !isValid(symbols[n])
    ensures ValidPrefix(symbols, isValid) == symbols[..n]
  {
    if n > 0 {
      ValidPrefixUnique(symbols[1..], isValid, n - 1);
      assert [symbols[0]] + symbols[1..][..n - 1] == symbols[..n];
    }
  }

  /** The whole prefix is valid exactly when every symbol is. */
  lemma ValidPrefixFull(symbols: seq<string>, isValid: string -> bool)
    ensures |ValidPrefix(symbols, isValid)| == |symbols| <==> forall i :: 0 <= i < |symbols| ==> isValid(symbols[i])
  {
    var r := ValidPrefix(symbols, isValid);
    if |r| == |symbols| {
      assert r == symbols;
    }
  }

  /** One iteration of the symbol loop (lines 73-90). A rejection names the
      first symbol the provider rejects, where the checking loop stops. */
  function JudgeSymbolsLine(raw: string, isValid: string -> bool): (r: Verdict<seq<string>>)
    ensures r.Accept? <==> forall i :: 0 <= i < |Normalise(raw)| ==> isValid(Normalise(raw)[i])
    ensures r.Accept? ==> r.value == Normalise(raw)
    ensures r.Reject? ==> exists i :: 0 <= i < |Normalise(raw)| && !isValid(Normalise(raw)[i]) && r.message == InvalidSymbol(Normalise(raw)[i])
    ensures r.Reject? ==>
      && |ValidPrefix(Normalise(raw), isValid)| < |Normalise(raw)|
      && r.message == InvalidSymbol(Normalise(raw)[|ValidPrefix(Normalise(raw), isValid)|])
  {
    var symbols := Normalise(raw);
    ValidPrefixFull(symbols, isValid);
    if symbols == [] then Reject(NoSymbols)
    else
      var valid := ValidPrefix(symbols, isValid);
      if |valid| == |symbols| then Accept(valid) else Reject(InvalidSymbol(symbols[|valid|]))
  }

  function JudgeSymbols(isValid: string -> bool): string -> Verdict<seq<string>> {
    raw => JudgeSymbolsLine(raw, isValid)
  }

  /** The "Please enter at least one stock symbol." branch (line 90) is never
      taken: normalisation never gives an empty list. */
  lemma NoSymbolsUnreachable(raw: string, isValid: string -> bool)
    ensures JudgeSymbolsLine(raw, isValid) != Reject(NoSymbols)
  {
    var r := JudgeSymbolsLine(raw, isValid);
    if r.Reject? {
      var i :| 0 <= i < |Normalise(raw)| && r.message == InvalidSymbol(Normalise(raw)[i]);
      assert r.message[0] == 'I' != NoSymbols[0];
    }
  }

  /** A line in which the provider rejects any one symbol is never accepted. */
  lemma OneInvalidRejects(raw: string, isValid: string -> bool, i: nat)
    requires i < |Normalise(raw)| && !isValid(Normalise(raw)[i])
    ensures JudgeSymbolsLine(raw, isValid).Reject?
  {
  }

  /** The checking loop (lines 80-86): valid_symbols is reset, then extended
      symbol by symbol until the provider rejects one, which is reported. */
  method ValidateSymbols(symbols: seq<string>, isValid: string -> bool) returns (valid: seq<string>, trace: seq<Event>)
    ensures valid == ValidPrefix(symbols, isValid)
    ensures trace == if |valid| < |symbols| then [Print(InvalidSymbol(symbols[|valid|]))] else []
  {
    valid, trace := [], [];
    var i := 0;
    while i < |symbols|
      invariant i <= |symbols|
      invariant valid == symbols[..i]
      invariant forall k :: 0 <= k < i ==> isValid(symbols[k])
      invariant trace == []
    {
      var symbol := symbols[i];
      if isValid(symbol) {
        valid := valid + [symbol];
      } else {
        trace := [Print(InvalidSymbol(symbol))];
        break;
      }
      i := i + 1;
    }
    ValidPrefixUnique(symbols, isValid, i);
  }

  /** One pass of the loop body (lines 74-90) on the line read: the line's
      symbols when all of them validate, otherwise the message printed. */
  method CheckLine(raw: string, isValid: string -> bool) returns (symbols: Option<seq<string>>, messages: seq<Event>)
    ensures var v := JudgeSymbolsLine(raw, isValid);
      && (symbols.Some? <==> v.Accept?)
      && (v.Accept? ==> symbols.value == v.value && messages == [])
      && (v.Reject? ==> messages == [Print(v.message)])
  {
    var stockSymbols := Normalise(raw);
    if stockSymbols != [] {
      var valid;
      valid, messages := ValidateSymbols(stockSymbols, isValid);
      if |valid| == |stockSymbols| {
        symbols := Some(valid);
      } else {
        symbols := None;
      }
    } else {
      symbols, messages := None, [Print(NoSymbols)];
    }
  }

  /** The symbol prompt loop (lines 71-90): repeats the whole line until one
      line's symbols all validate; leaves that line's symbols in valid_symbols. */
  method CollectSymbols(input: seq<string>, isValid: string -> bool)
    returns (consumed: nat, symbols: Option<seq<string>>, trace: seq<Event>)
    ensures Prompted(consumed, symbols, trace) == Retry(input, JudgeSymbols(isValid))
    ensures symbols.Some? ==> 0 < consumed <= |input| && symbols.value == Normalise(input[consumed - 1])
    ensures symbols.Some? ==> forall i :: 0 <= i < |symbols.value| ==> isValid(symbols.value[i])
    ensures symbols.None? ==> consumed == |input|
  {
    ghost var judge := JudgeSymbols(isValid);
    consumed, trace := 0, [];
    while consumed < |input|
      invariant RejectedSoFar(input, judge, consumed, trace)
    {
      var accepted, messages := CheckLine(input[consumed], isValid);
      ghost var verdict := judge(input[consumed]);
      assert verdict == JudgeSymbolsLine(input[consumed], isValid);
      if accepted.Some? {
        RetryAccepts(input, judge, consumed, trace, accepted.value);
        consumed, symbols := consumed + 1, accepted;
        return;
      }
      RejectStep(input, judge, consumed, trace, verdict.message);
      trace := trace + messages;
      consumed := consumed + 1;
    }
    RetryExhausts(input, judge, trace);
    symbols := None;
  }
}
