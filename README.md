# Stock comparison script, modelled in Dafny

`stock_comparison.py` is an interactive script. It runs in five steps:

1. It reads a comma-separated list of ticker symbols, normalises them and checks each symbol with the market-data provider. It asks again until every symbol of one line is accepted.
2. It reads a start date and then an end date, asking again until each is valid.
3. It fetches the price history and metadata of each symbol.
4. It prints a fixed-layout summary for every symbol that has data.
5. It shows a price chart of those symbols, or prints a closing message when none has data.

This project models that logic. The provider, the date parser and the clock are caller-supplied parameters:

- `isValid` plays the role of `validate_stock_name`.
- `parse` is `strptime` with `%Y-%m-%d`. It gives `None` where `strptime` raises `ValueError`.
- `provider` is the history/metadata lookup. It gives `None` where the history or metadata lookup raises `ValueError`.
- `today` is the current date.

The console is modelled like this:

- User input is one sequence of lines. The three prompt loops read it in turn.
- What the script shows is a trace of events: one `Print(text)` per `print()` call, and one `Plot(symbols)` per chart shown.

Modules follow the script's parts:

| module | file | models |
|---|---|---|
| `Text` | `text.dfy` | `str.split`, `str.strip`, `str.upper` and `:<17` on ASCII text |
| `OrderedDict` | `ordered_dict.dfy` | Python dicts with insertion-ordered keys |
| `Console` | `console.dfy` | the common shape of the three `while True` prompt loops (`Retry`) |
| `Symbols` | `symbols.dfy` | the symbol loop |
| `Dates` | `dates.dfy` | the two date loops |
| `Fetching` | `fetching.dfy` | `fetch_stock_data` and the fetch loop |
| `Summary` | `summary.dfy` | `generate_summary_report` |
| `Session` | `session.dfy` | the report/chart gating and the whole run |

Most loops of the script are methods:

- the symbol check loop;
- the three prompt loops;
- the fetch loop that fills `stock_data` and `stock_info`;
- the print loops of the report.

Each method is proved equal to a function that specifies it. The properties are proved about those functions.

These are the main results:

- **Normalisation.** A line gives one entry per comma-separated token, each token stripped and upper-cased. There is one more entry than there are commas, so the list is never empty. The "Please enter at least one stock symbol." branch can therefore never be taken. An empty line gives `[""]`.
- **Symbol loop.** `valid_symbols` is always the longest accepted prefix of the line's symbols, and checking stops at the first rejected one. A line is accepted exactly when every one of its symbols is accepted.
- **Dates.** A start date is accepted exactly when it parses and is not after today. An end date is accepted exactly when it parses and lies between the start date and today. The accepted range is ordered and not in the future.
- **Fetching.** `stock_data` and `stock_info` end with the same keys. The keys are the symbols whose series is non-empty, in order of first insertion: of two keys, the one entered first comes first. Every failed lookup prints one message naming the symbol.
- **Report.** Each ticker gives a header and exactly fifteen lines. The labels come in a fixed order, and each label is padded to 17 columns. Reading a line back gives the label and the value. A missing key shows as `N/A`, and each side of the two ranges defaults on its own.
- **Gating.** The report is printed exactly when `stock_info` is non-empty. The chart is shown exactly when `stock_data` is non-empty; otherwise the closing message is printed. Since the two dictionaries have the same keys, the report appears exactly when the chart does.

The report has fifteen fields per ticker (lines 45-61).

## Model

| member | source | states |
|---|---|---|
| Text.Split | stock_comparison.py:76 | `str.split(',')` gives one piece more than there are separators, and no piece contains the separator |
| Text.JoinSplit | stock_comparison.py:76 | joining the pieces of a split with the separator gives back the original text |
| Text.SplitJoin | stock_comparison.py:76 | splitting a join of separator-free pieces gives back the pieces |
| Text.SplitNoSep | stock_comparison.py:76 | a text without the separator splits into itself alone |
| Text.SplitPrefix | stock_comparison.py:76 | splitting `p + sep + t` puts `p` in front of the pieces of `t` |
| Text.LeadingSpaces | stock_comparison.py:76 | counts the whitespace characters at the start of a text; the character after them is not whitespace |
| Text.TrailingSpaces | stock_comparison.py:76 | counts the whitespace characters at the end of a text; the character before them is not whitespace |
| Text.LeadingUnique | stock_comparison.py:76 | the leading whitespace run is the only run with the contract of LeadingSpaces |
| Text.TrailingUnique | stock_comparison.py:76 | the trailing whitespace run is the only run with the contract of TrailingSpaces |
| Text.TrimStart | stock_comparison.py:76 | `lstrip()` gives a suffix of the text that does not start with whitespace, and what it drops is all whitespace |
| Text.TrimEnd | stock_comparison.py:76 | `rstrip()` gives a prefix of the text that does not end with whitespace, and what it drops is all whitespace |
| Text.Strip | stock_comparison.py:76 | `strip()` gives a result no longer than the input that neither starts nor ends with whitespace |
| Text.StripSlice | stock_comparison.py:76 | the stripped text is a slice of the input with only whitespace before and after it |
| Text.StripCut | stock_comparison.py:76 | the stripped text starts right after the leading whitespace, and only whitespace follows it |
| Text.StripIdempotent | stock_comparison.py:76 | stripping twice is the same as stripping once |
| Text.StripFixed | stock_comparison.py:76 | a text that neither starts nor ends with whitespace is unchanged by strip |
| Text.StripSub | stock_comparison.py:76 | stripping introduces no character, so a comma-free token stays comma-free |
| Text.UpperChar | stock_comparison.py:76 | a lower-case letter becomes the capital 32 code points below it; every other character is kept; the result is never lower case |
| Text.UpperCharSpace | stock_comparison.py:76 | upper-casing turns no character into whitespace and no whitespace into anything else |
| Text.Upper | stock_comparison.py:76 | `upper()` keeps the length and upper-cases each character on its own |
| Text.UpperStrip | stock_comparison.py:76 | `s.strip().upper() == s.upper().strip()` |
| Text.UpperTrimStart | stock_comparison.py:76 | upper-casing commutes with `lstrip()` |
| Text.UpperTrimEnd | stock_comparison.py:76 | upper-casing commutes with `rstrip()` |
| Text.UpperTrailing | stock_comparison.py:76 | upper-casing keeps the length of the trailing whitespace run |
| Text.UpperSlice | stock_comparison.py:76 | upper-casing a prefix is taking that prefix of the upper-cased text |
| Text.UpperDrop | stock_comparison.py:76 | upper-casing a suffix is taking that suffix of the upper-cased text |
| Text.UpperFixed | stock_comparison.py:76 | a text with no lower-case letter is unchanged by upper-casing |
| Text.UpperKeeps | stock_comparison.py:76 | upper-casing introduces no character other than capital letters, so no comma appears |
| Text.LeftJustify | stock_comparison.py:64 | `f"{s:<width}"` is the text followed by spaces up to the width, never truncated |
| OrderedDict.Empty | stock_comparison.py:122-123 | `{}` is a valid dict with no keys |
| OrderedDict.Put | stock_comparison.py:128-129 | assignment updates the entry; an existing key keeps its place and a new key goes last; the dict stays valid |
| OrderedDict.NonEmptyIff | stock_comparison.py:132-136 | a dict's truth value is having at least one entry |
| OrderedDict.InsertionOrder | stock_comparison.py:125-129 | first-occurrence order has no repeats, holds exactly the inserted keys and is no longer than the insertions; InsertionOrderFirst states its order |
| OrderedDict.FirstIndex | stock_comparison.py:125-129 | the position where a key is first inserted: it holds the key, and no earlier position does |
| OrderedDict.InsertionOrderFirst | stock_comparison.py:125-129 | of two keys in iteration order, the earlier one was first inserted earlier |
| OrderedDict.InsertionOrderDistinct | stock_comparison.py:125-129 | inserting distinct keys iterates in the order of insertion |
| Console.Retry | stock_comparison.py:71-119 | a prompt loop reads lines until one is accepted (or the input runs out) and prints one message per rejected line, in order |
| Console.RetryUnique | stock_comparison.py:71-119 | Retry is the only loop outcome with that contract |
| Console.RejectStep | stock_comparison.py:71-119 | a rejected line appends its message and the loop goes on |
| Console.RetryAccepts | stock_comparison.py:71-119 | after `n` rejected lines, an accepted line ends the loop having read `n + 1` lines |
| Console.RetryExhausts | stock_comparison.py:71-119 | when every line is rejected, the loop reads all of them and accepts nothing |
| Console.RetryPrints | stock_comparison.py:71-119 | a prompt loop only prints messages |
| Dates.LeTotalOrder | stock_comparison.py:100-114 | date comparison is a total order |
| Dates.JudgeStartLine | stock_comparison.py:95-105 | a start line is accepted iff it parses to a date not after today; otherwise the format or future-date message is chosen |
| Dates.JudgeEndLine | stock_comparison.py:109-119 | an end line is accepted iff it parses to a date from the start date to today; otherwise the format or range message is chosen |
| Dates.CollectStartDate | stock_comparison.py:93-105 | the start-date loop is Retry; an accepted date was the parse of the last line read and is not after today |
| Dates.CollectEndDate | stock_comparison.py:108-119 | the end-date loop is Retry; an accepted date was the parse of the last line read and lies between start and today |
| Dates.AcceptedRange | stock_comparison.py:100-114 | the accepted range is ordered, ends no later than today and starts no later than today |
| Symbols.Normalise | stock_comparison.py:76 | one entry per comma-separated token, one more than the commas, each entry the stripped and upper-cased token, in normal form |
| Symbols.NormalToken | stock_comparison.py:76 | a stripped, upper-cased comma-free token has no comma, no lower-case letter and no whitespace at either end |
| Symbols.NormaliseEmpty | stock_comparison.py:76 | an empty line gives `[""]` |
| Symbols.NormalFixed | stock_comparison.py:76 | a normalised symbol is unchanged by `strip().upper()` |
| Symbols.NormaliseIdempotent | stock_comparison.py:76 | normalising the comma-joined normalised symbols again changes nothing |
| Symbols.ValidPrefix | stock_comparison.py:80-86 | the longest prefix whose symbols are all accepted; the next symbol, if any, is rejected |
| Symbols.ValidPrefixUnique | stock_comparison.py:80-86 | that prefix is the only one with this property |
| Symbols.ValidPrefixFull | stock_comparison.py:87 | the prefix is the whole list iff every symbol is accepted |
| Symbols.JudgeSymbolsLine | stock_comparison.py:73-90 | a line is accepted iff all its normalised symbols are valid, with those symbols as the value; a rejection names the first rejected symbol, where the checking loop stops |
| Symbols.NoSymbolsUnreachable | stock_comparison.py:79-90 | the "Please enter at least one stock symbol." message is never chosen |
| Symbols.OneInvalidRejects | stock_comparison.py:82-86 | a line with any one rejected symbol is rejected |
| Symbols.ValidateSymbols | stock_comparison.py:80-86 | the check loop leaves `valid_symbols` equal to the longest accepted prefix and prints the first rejected symbol, if any |
| Symbols.CheckLine | stock_comparison.py:76-90 | one iteration of the symbol loop gives the same verdict as JudgeSymbolsLine, and prints that verdict's message when it rejects |
| Symbols.CollectSymbols | stock_comparison.py:71-90 | the symbol loop is Retry; the accepted line's normalised symbols are all valid |
| Fetching.FetchStockData | stock_comparison.py:21-28 | a failed lookup gives an empty series, an empty map and one message naming the symbol; otherwise the provider's history and metadata |
| Fetching.Kept | stock_comparison.py:125-129 | a symbol is kept iff it is in the list and its series is non-empty; at most one entry per list element |
| Fetching.Failed | stock_comparison.py:26-27 | a symbol is listed iff it is in the list and its lookup fails; at most one entry per list element |
| Fetching.KeptAppend | stock_comparison.py:125-129 | the loop keeps symbols in list order: keeping from `a + b` is keeping from `a` then from `b` |
| Fetching.FailedAppend | stock_comparison.py:125-127 | failures are reported in list order: the failures of `a + b` are those of `a` then those of `b` |
| Fetching.KeptFirstOrder | stock_comparison.py:125-129 | of two kept symbols, the one kept first occurs first in the list |
| Fetching.FailureTrace | stock_comparison.py:27 | one "No data found" message per failed symbol, in order |
| Fetching.Step | stock_comparison.py:126-129 | one loop iteration keeps both dicts valid |
| Fetching.Aggregate | stock_comparison.py:122-129 | the dicts after the loop are valid |
| Fetching.AggregateSpec | stock_comparison.py:122-129 | both dicts have the same keys, namely the kept symbols in first-insertion order; they hold the fetched series, which are non-empty, and metadata; one message per failed lookup |
| Fetching.AggregateKeys | stock_comparison.py:125-129 | both dicts have the kept symbols as keys, in first-insertion order |
| Fetching.AggregateValues | stock_comparison.py:126-129 | every entry holds that symbol's fetched non-empty series and its metadata |
| Fetching.AggregateTrace | stock_comparison.py:126-127 | the loop prints exactly the failure messages, in order |
| Fetching.AggregateMembers | stock_comparison.py:125-129 | a symbol is in either dict iff it was fetched with a non-empty series |
| Fetching.AggregateOrder | stock_comparison.py:122-129 | of two keys of stock_data, the earlier one was entered earlier |
| Fetching.FetchAll | stock_comparison.py:122-129 | the fetch loop computes Aggregate; equal key lists in first-insertion order of the kept symbols, ordered as the symbols were entered |
| Summary.Get | stock_comparison.py:46-60 | `info.get(key, 'N/A')` |
| Summary.Lines | stock_comparison.py:63-64 | one printed line per field |
| Summary.Block | stock_comparison.py:62-64 | a ticker's block has 16 lines |
| Summary.BlocksOf | stock_comparison.py:44 | one block per ticker, in iteration order |
| Summary.LineLayout | stock_comparison.py:64 | each line is the label padded to 17 columns, a space, then the value; parsing the line back gives both |
| Summary.FieldLabel | stock_comparison.py:45-61 | the labels in order; each is non-empty, shorter than 17 and not ending in whitespace |
| Summary.FieldLayout | stock_comparison.py:64 | the layout of one line, for a label that fits the column |
| Summary.PaddingTrimmed | stock_comparison.py:64 | right-trimming a padded label gives the label back |
| Summary.BlockShape | stock_comparison.py:62-64 | a block is `"\nStock: " + symbol` followed by the fifteen field lines in the fixed order, each the field's padded label and value (LineLayout), parsing back to that label and value |
| Summary.ValueDefaults | stock_comparison.py:46-60 | a missing key shows as N/A; a range is `"<low> - <high>"` with each side defaulting on its own |
| Summary.EmptyInfoValues | stock_comparison.py:46-60 | with no metadata every value is N/A and the two ranges are "N/A - N/A" |
| Summary.ReportShape | stock_comparison.py:42-65 | the report is the title, one 16-line block per ticker in iteration order, then a blank line |
| Summary.ConcatChunks | stock_comparison.py:44 | concatenated 16-line blocks can be cut back into the same blocks |
| Summary.BlocksStep | stock_comparison.py:44 | the blocks of one more ticker are the previous blocks followed by its block |
| Summary.PrintLines | stock_comparison.py:63-64 | the print loop over essential_info prints Lines |
| Summary.PrintBlock | stock_comparison.py:62-64 | a ticker's printed part is Block |
| Summary.GenerateSummaryReport | stock_comparison.py:42-65 | the report printed is Report |
| Session.ConcatPrints | stock_comparison.py:42-65 | joining print-only blocks gives only prints |
| Session.ReportPrints | stock_comparison.py:42-65 | the report only prints, at least its title and closing blank line |
| Session.Gate | stock_comparison.py:132-139 | the output ends with the chart of stock_data's keys when stock_data is non-empty, and with the closing message otherwise; everything before is printed; the report is there iff stock_info is non-empty |
| Session.Finish | stock_comparison.py:132-139 | the gating code prints what Gate says |
| Session.ReportIffPlot | stock_comparison.py:132-139 | with equal keys, the report title opens the output iff a chart closes it |
| Session.GateStarts | stock_comparison.py:132-133 | with metadata to show, the output opens with the report title |
| Session.Ask | stock_comparison.py:71-119 | a later answer is present only when the earlier ones are |
| Session.AskPrints | stock_comparison.py:71-119 | the prompts only print |
| Session.AskAccepts | stock_comparison.py:71-119 | completed prompts give a non-empty list of valid symbols and an ordered range not after today |
| Session.ScriptCompletes | stock_comparison.py:68-139 | a completed run has valid non-empty symbols, an ordered range and equal dict keys (the kept symbols in order); it ends with their chart or, with no data, the closing message |
| Session.ScriptStopsQuietly | stock_comparison.py:71-119 | a run whose input runs out inside a prompt shows no chart |
| Session.CompleteSpec | stock_comparison.py:122-139 | after valid prompts, the rest of the run keeps the completed-run promises |
| Session.AskAll | stock_comparison.py:71-119 | the three prompt loops give Ask |
| Session.Run | stock_comparison.py:68-139 | the script computes Script |
| Session.TwoTickers | stock_comparison.py:125-139 | two tickers with data: both dicts keyed AAPL then MSFT, report first, chart of both last |
| Session.NoDataNoPlot | stock_comparison.py:125-139 | when no symbol has data, the output is only the closing message |

Some lemmas are sequence facts that the proofs use without modelling any line of the script. They have no row: Text.DropTake, Text.JoinCons, Summary.DropFirst, Summary.SliceLeft, Summary.SliceRight, Session.PrintsAppend, OrderedDict.FirstIndexPrefix, OrderedDict.FirstIndexLast, OrderedDict.FirstOrderedPrefix, OrderedDict.FirstOrderedExtend and Fetching.KeptFirstStep.

## Left out

- The yfinance calls (`yf.Ticker`, `.history`, `.info`) are foreign network calls. They become the parameters `isValid` and `provider`. Both are assumed to answer the same way every time they are asked within one run.
- Exceptions that escape the yfinance calls are not modelled. `yf.Ticker(symbol)` sits outside the `try` blocks (lines 12 and 22), and only `ValueError` is caught (lines 16 and 26). Anything `yf.Ticker` raises, and any other exception from `validate_stock_name` or `fetch_stock_data`, ends the script with a traceback, mid-prompt or mid-fetch. In the model `isValid` and `provider` are total, and a run ends only as `InputExhausted` or `Completed`.
- `plot_stock_data` (lines 32-39) is matplotlib drawing. The model records only that a chart is shown, and for which keys of `stock_data`, in order.
- `datetime.strptime` is library parsing. It is the abstract parameter `parse`; no stricter parser is modelled.
- `datetime.now()` is the clock. It is a single `today` parameter. The script re-reads the clock on every attempt, and that is not modelled.
- The prompt texts passed to `input()` are not part of the trace.
- End of input is modelled as the outcome `InputExhausted`. Python's `EOFError` stack trace is not modelled.
- Text.Strip, Text.Upper: only ASCII. Non-ASCII whitespace and non-ASCII case mappings are not modelled.
- Summary.Get: metadata values are opaque strings that have already been rendered. Python's formatting of floats, ints and `None` is not modelled, and a key present with the value `None` therefore shows the provider's rendering rather than `None`.
- A series is a sequence of rows where only emptiness matters. pandas DataFrame internals are not modelled.
