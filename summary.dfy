/**
  generate_summary_report (stock_comparison.py:42-65): for each ticker in
  stock_info, in iteration order, a header line and fifteen labelled lines,
  each label left-justified to 17 columns, with "N/A" for each missing key.
*/
module Summary {
  import opened Text
  import opened Console
  import opened OrderedDict
  import opened Fetching

  /** One entry of essential_info: a single metadata key, or a low/high pair shown as a range. */
  datatype Field = Single(name: string, key: string) | Range(name: string, low: string, high: string)

  /** The entries of essential_info, in the dict's order (lines 45-61). */
  const Fields: seq<Field> := [
    Single("Symbol", "symbol"),
    Single("Company Name", "longName"),
    Single("Sector", "sector"),
    Single("Industry", "industry"),
    Single("Market Cap", "marketCap"),
    Single("Previous Close", "previousClose"),
    Single("Open", "open"),
    Range("Day Range", "dayLow", "dayHigh"),
    Range("52-Week Range", "fiftyTwoWeekLow", "fiftyTwoWeekHigh"),
    Single("Volume", "volume"),
    Single("Average Volume", "averageVolume"),
    Single("P/E Ratio", "trailingPE"),
    Single("Dividend Rate", "dividendRate"),
    Single("Dividend Yield", "dividendYield"),
    Single("Beta", "beta")
  ]

  const Labels: seq<string> := [
    "Symbol", "Company Name", "Sector", "Industry", "Market Cap", "Previous Close", "Open",
    "Day Range", "52-Week Range", "Volume", "Average Volume", "P/E Ratio", "Dividend Rate",
    "Dividend Yield", "Beta"
  ]

  const Missing := "N/A"
  const LabelWidth := 17
  const Title := "\nStock Summary:"

  /** info.get(key, 'N/A') */
  function Get(info: Info, key: string): (r: string)
    ensures key in info ==> r == info[key]
    ensures key !in info ==> r == Missing
  {
    if key in info then info[key] else Missing
  }

  /** The value shown for a field; a range is "<low> - <high>", each side defaulting on its own. */
  function Value(info: Info, f: Field): string {
    match f
    case Single(_, key) => Get(info, key)
    case Range(_, low, high) => Get(info, low) + " - " + Get(info, high)
  }

  /** f"{key:<17} {value}" (line 64). */
  function Line(f: Field, info: Info): string {
    LeftJustify(f.name, LabelWidth) + " " + Value(info, f)
  }

  function Header(symbol: string): string {
    "\nStock: " + symbol
  }

  /** One printed line per field, in order. */
  function Lines(fields: seq<Field>, info: Info): (r: seq<Event>)
    ensures |r| == |fields|
  {
    seq(|fields|, i requires 0 <= i < |fields| => Print(Line(fields[i], info)))
  }

  /** What the report prints for one ticker (lines 45-64). */
  function Block(symbol: string, info: Info): (r: seq<Event>)
    ensures |r| == 16
  {
    [Print(Header(symbol))] + Lines(Fields, info)
  }

  /** The block of each given ticker. */
  function BlocksOf(keys: seq<string>, entries: map<string, Info>): (r: seq<seq<Event>>)
    requires forall k :: k in keys ==> k in entries
    ensures |r| == |keys| && forall i :: 0 <= i < |keys| ==> r[i] == Block(keys[i], entries[keys[i]])
  {
    seq(|keys|, i requires 0 <= i < |keys| => Block(keys[i], entries[keys[i]]))
  }

  /** The given sequences one after another. */
  function Concat<T>(bs: seq<seq<T>>): seq<T> {
    if bs == [] then [] else Concat(bs[..|bs| - 1]) + bs[|bs| - 1]
  }

  /** Everything generate_summary_report prints. */
  function Report(stockInfo: Dict<Info>): seq<Event>
    requires Valid(stockInfo)
  {
    [Print(Title)] + Concat(BlocksOf(stockInfo.keys, stockInfo.entries)) + [Print("")]
  }

  // ---------------------------------------------------------------- layout

  /** Reads a report line back: the label is the first 17 columns with the
      padding removed, the value is everything after the separating space. */
  function ParseLine(line: string): (string, string)
    requires |line| > LabelWidth
  {
    (TrimEnd(line[..LabelWidth]), line[LabelWidth + 1..])
  }

  /** Each field's line is its label padded to exactly 17 columns, a space, then
      the value; reading the line back recovers both. */
  lemma LineLayout(i: nat, info: Info)
    requires i < |Fields|
    ensures var line := Line(Fields[i], info);
      && |line| > LabelWidth
      && line[..LabelWidth] == LeftJustify(Labels[i], LabelWidth)
      && line[LabelWidth] == ' '
      && ParseLine(line) == (Labels[i], Value(info, Fields[i]))
  {
    FieldLabel(i);
    FieldLayout(Fields[i], info);
  }

  /** Every label is non-empty, fits in the column and does not end in whitespace. */
  lemma FieldLabel(i: nat)
    requires i < |Fields|
    ensures Fields[i].name == Labels[i]
    ensures 0 < |Labels[i]| < LabelWidth && !IsSpace(Labels[i][|Labels[i]| - 1])
  {
  }

  /** The layout of one line, for a label that fits the column. */
  lemma FieldLayout(f: Field, info: Info)
    requires 0 < |f.name| < LabelWidth && !IsSpace(f.name[|f.name| - 1])
    ensures var line := Line(f, info);
      && |line| > LabelWidth
      && line[..LabelWidth] == LeftJustify(f.name, LabelWidth)
      && line[LabelWidth] == ' '
      && ParseLine(line) == (f.name, Value(info, f))
  {
    var padded := LeftJustify(f.name, LabelWidth);
    var line := Line(f, info);
    assert line[..LabelWidth] == padded;
    assert line[LabelWidth + 1..] == Value(info, f);
    PaddingTrimmed(f.name, LabelWidth);
  }

  /** Right-trimming a left-justified text that does not end in whitespace gives the text back. */
  lemma PaddingTrimmed(s: string, width: nat)
    requires s != [] && !IsSpace(s[|s| - 1])
    ensures TrimEnd(LeftJustify(s, width)) == s
  {
    var p := LeftJustify(s, width);
    assert p[|s| - 1] == s[|s| - 1];
    TrailingUnique(p, |p| - |s|);
  }

  /** A ticker's block is a header naming it followed by exactly fifteen lines,
      whose labels come in the fixed order and whose values are the field values. */
  lemma BlockShape(symbol: string, info: Info)
    ensures var b := Block(symbol, info);
      && |b| == 16
      && b[0] == Print("\nStock: " + symbol)
      && forall j :: 1 <= j < 16 ==>
           && b[j] == Print(Line(Fields[j - 1], info))
           && |b[j].text| > LabelWidth && ParseLine(b[j].text) == (Labels[j - 1], Value(info, Fields[j - 1]))
  {
    var b := Block(symbol, info);
    var lines := Lines(Fields, info);
    assert b == [Print(Header(symbol))] + lines;
    forall j | 1 <= j < 16
      ensures b[j] == Print(Line(Fields[j - 1], info))
      ensures |b[j].text| > LabelWidth && ParseLine(b[j].text) == (Labels[j - 1], Value(info, Fields[j - 1]))
    {
      assert b[j] == lines[j - 1] == Print(Line(Fields[j - 1], info));
      LineLayout(j - 1, info);
    }
  }

  /** Missing keys show as N/A: a single-key field shows the stored value if
      present and N/A otherwise, a range shows each side, defaulting on its own. */
  lemma ValueDefaults(info: Info, i: nat)
    requires i < |Fields|
    ensures Fields[i].Single? ==> Value(info, Fields[i]) == (if Fields[i].key in info then info[Fields[i].key] else "N/A")
    ensures Fields[i].Range? ==>
      (Value(info, Fields[i]) == (if Fields[i].low in info then info[Fields[i].low] else "N/A") + " - " + (if Fields[i].high in info then info[Fields[i].high] else "N/A"))
  {
  }

  /** For a ticker without metadata every value reads N/A, the two ranges "N/A - N/A". */
  lemma EmptyInfoValues()
    ensures forall i :: 0 <= i < |Fields| ==> Value(map[], Fields[i]) == if i == 7 || i == 8 then "N/A - N/A" else "N/A"
  {
    forall i | 0 <= i < |Fields| ensures Value(map[], Fields[i]) == if i == 7 || i == 8 then "N/A - N/A" else "N/A" {
      assert Fields[i].Range? <==> i == 7 || i == 8;
    }
  }

  /** The `j`-th run of sixteen elements. */
  function Chunk<T>(b: seq<T>, j: nat): seq<T>
    requires 16 * j + 16 <= |b|
  {
    b[16 * j .. 16 * j + 16]
  }

  /** The report is a title, one 16-line block per ticker in iteration order, and a blank line. */
  lemma ReportShape(stockInfo: Dict<Info>)
    requires Valid(stockInfo)
    ensures var r := Report(stockInfo);
      && |r| == 2 + 16 * |stockInfo.keys|
      && r[0] == Print(Title) && r[|r| - 1] == Print("")
      && forall j :: 0 <= j < |stockInfo.keys| ==>
           Chunk(r[1..], j) == Block(stockInfo.keys[j], stockInfo.entries[stockInfo.keys[j]])
  {
    var bs := BlocksOf(stockInfo.keys, stockInfo.entries);
    ConcatChunks(bs);
    var b := Concat(bs);
    var r := Report(stockInfo);
    DropFirst(Print(Title), b, Print(""));
    forall j | 0 <= j < |stockInfo.keys|
      ensures Chunk(r[1..], j) == Block(stockInfo.keys[j], stockInfo.entries[stockInfo.keys[j]])
    {
      SliceLeft(b, [Print("")], 16 * j, 16 * j + 16);
      assert Chunk(r[1..], j) == Chunk(b, j);
    }
  }

  /** Concatenating runs of sixteen: the `j`-th chunk of the result is the `j`-th run. */
  lemma {:induction false} ConcatChunks<T>(bs: seq<seq<T>>)
    requires forall i :: 0 <= i < |bs| ==> |bs[i]| == 16
    ensures |Concat(bs)| == 16 * |bs|
    ensures forall j :: 0 <= j < |bs| ==> Chunk(Concat(bs), j) == bs[j]
  {
    if bs != [] {
      var n := |bs| - 1;
      var prefix := bs[..n];
      ConcatChunks(prefix);
      var p := Concat(prefix);
      var b := p + bs[n];
      assert Concat(bs) == b;
      forall j | 0 <= j < |bs| ensures Chunk(b, j) == bs[j] {
        if j < n {
          SliceLeft(p, bs[n], 16 * j, 16 * j + 16);
          assert Chunk(b, j) == Chunk(p, j);
        } else {
          SliceRight(p, bs[n], 0, 16);
          assert Chunk(b, j) == bs[n];
        }
      }
    }
  }

  /** Dropping the first of `[x] + b + [y]` leaves `b + [y]`. */
  lemma DropFirst<T>(x: T, b: seq<T>, y: T)
    ensures ([x] + b + [y])[1..] == b + [y]
  {
  }

  /** A slice that lies inside the left operand of a concatenation. */
  lemma SliceLeft<T>(p: seq<T>, q: seq<T>, a: nat, b: nat)
    requires a <= b <= |p|
    ensures (p + q)[a..b] == p[a..b]
  {
  }

  /** A slice that lies inside the right operand of a concatenation. */
  lemma SliceRight<T>(p: seq<T>, q: seq<T>, a: nat, b: nat)
    requires a <= b <= |q|
    ensures (p + q)[|p| + a..|p| + b] == q[a..b]
  {
  }

  // ---------------------------------------------------------------- printing

  /** The blocks of one more ticker are those before it followed by its block. */
  lemma BlocksStep(keys: seq<string>, entries: map<string, Info>, i: nat)
    requires i < |keys| && forall k :: k in keys ==> k in entries
    ensures Concat(BlocksOf(keys[..i + 1], entries)) == Concat(BlocksOf(keys[..i], entries)) + Block(keys[i], entries[keys[i]])
  {
    var before := BlocksOf(keys[..i], entries);
    var after := BlocksOf(keys[..i + 1], entries);
    assert after == before + [Block(keys[i], entries[keys[i]])];
    assert after[..i] == before;
  }

  /** The print loop over essential_info (lines 62-64). */
  method PrintLines(fields: seq<Field>, info: Info) returns (trace: seq<Event>)
    ensures trace == Lines(fields, info)
  {
    trace := [];
    var i := 0;
    while i < |fields|
      invariant i <= |fields|
      invariant trace == Lines(fields, info)[..i]
    {
      assert Lines(fields, info)[..i + 1] == trace + [Print(Line(fields[i], info))];
      trace := trace + [Print(Line(fields[i], info))];
      i := i + 1;
    }
    assert Lines(fields, info)[..i] == Lines(fields, info);
  }

  /** One ticker's part of the report (lines 62-64): its header, then its lines. */
  method PrintBlock(symbol: string, info: Info) returns (trace: seq<Event>)
    ensures trace == Block(symbol, info)
  {
    var lines := PrintLines(Fields, info);
    trace := [Print(Header(symbol))] + lines;
  }

  /** generate_summary_report (lines 42-65). */
  method GenerateSummaryReport(stockInfo: Dict<Info>) returns (trace: seq<Event>)
    requires Valid(stockInfo)
    ensures trace == Report(stockInfo)
  {
    var blocks: seq<Event> := [];
    var i := 0;
    while i < |stockInfo.keys|
      invariant i <= |stockInfo.keys|
      invariant blocks == Concat(BlocksOf(stockInfo.keys[..i], stockInfo.entries))
    {
      var symbol := stockInfo.keys[i];
      var block := PrintBlock(symbol, stockInfo.entries[symbol]);
      BlocksStep(stockInfo.keys, stockInfo.entries, i);
      blocks := blocks + block;
      i := i + 1;
    }
    assert stockInfo.keys[..i] == stockInfo.keys;
    trace := [Print(Title)] + blocks + [Print("")];
  }
}
