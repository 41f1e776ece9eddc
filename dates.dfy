/**
  The start-date and end-date prompt loops (stock_comparison.py:93-119).
  Parsing `%Y-%m-%d` is the caller-supplied `parse` (None where strptime
  raises ValueError) and the current date is the parameter `today`.
*/
module Dates {
  import opened Wrappers
  import opened Console

  datatype Date = Date(year: int, month: int, day: int)

  /** Python's `a <= b` on dates: lexicographic on (year, month, day). */
  predicate Le(a: Date, b: Date) {
    a.year < b.year || (a.year == b.year && (a.month < b.month || (a.month == b.month && a.day <= b.day)))
  }

  /** `<=` on dates is a total order. */
  lemma LeTotalOrder(a: Date, b: Date, c: Date)
    ensures Le(a, a)
    ensures Le(a, b) && Le(b, a) ==> a == b
    ensures Le(a, b) && Le(b, c) ==> Le(a, c)
    ensures Le(a, b) || Le(b, a)
  {
  }

  const BadStartFormat := "Invalid start date format. Please re-enter."
  const FutureStart := "Invalid input - start date cannot be in the future. Please re-enter."
  const BadEndFormat := "Invalid end date format. Please re-enter."
  const BadEndRange := "Invalid input - end date cannot be before the start date or in the future. Please re-enter."

  /** One iteration of the start-date loop: accepted iff it parses to a date not after today. */
  function JudgeStartLine(text: string, parse: string -> Option<Date>, today: Date): (r: Verdict<Date>)
    ensures r.Accept? <==> parse(text).Some? && Le(parse(text).value, today)
    ensures r.Accept? ==> parse(text) == Some(r.value)
    ensures r.Reject? ==> r.message == (if parse(text).None? then BadStartFormat else FutureStart)
  {
    match parse(text)
    case None => Reject(BadStartFormat)
    case Some(d) => if Le(d, today) then Accept(d) else Reject(FutureStart)
  }

  function JudgeStart(parse: string -> Option<Date>, today: Date): string -> Verdict<Date> {
    text => JudgeStartLine(text, parse, today)
  }

  /** One iteration of the end-date loop: accepted iff it parses to a date
      between the accepted start date and today, both included. */
  function JudgeEndLine(text: string, parse: string -> Option<Date>, start: Date, today: Date): (r: Verdict<Date>)
    ensures r.Accept? <==> parse(text).Some? && Le(start, parse(text).value) && Le(parse(text).value, today)
    ensures r.Accept? ==> parse(text) == Some(r.value)
    ensures r.Reject? ==> r.message == (if parse(text).None? then BadEndFormat else BadEndRange)
  {
    match parse(text)
    case None => Reject(BadEndFormat)
    case Some(d) => if Le(start, d) && Le(d, today) then Accept(d) else Reject(BadEndRange)
  }

  function JudgeEnd(parse: string -> Option<Date>, start: Date, today: Date): string -> Verdict<Date> {
    text => JudgeEndLine(text, parse, start, today)
  }

  /** The start-date loop (lines 93-105). */
  method CollectStartDate(input: seq<string>, parse: string -> Option<Date>, today: Date)
    returns (consumed: nat, start: Option<Date>, trace: seq<Event>)
    ensures Prompted(consumed, start, trace) == Retry(input, JudgeStart(parse, today))
    ensures start.Some? ==> 0 < consumed <= |input| && parse(input[consumed - 1]) == start && Le(start.value, today)
    ensures start.None? ==> consumed == |input|
  {
    ghost var judge := JudgeStart(parse, today);
    consumed, start, trace := 0, None, [];
    while consumed < |input|
      invariant RejectedSoFar(input, judge, consumed, trace)
    {
      var text := input[consumed];
      var message;
      match parse(text) {
        case None =>
          message := BadStartFormat;
        case Some(d) =>
          if Le(d, today) {
            RetryAccepts(input, judge, consumed, trace, d);
            consumed, start := consumed + 1, Some(d);
            return;
          }
          message := FutureStart;
      }
      RejectStep(input, judge, consumed, trace, message);
      trace := trace + [Print(message)];
      consumed := consumed + 1;
    }
    RetryExhausts(input, judge, trace);
  }

  /** The end-date loop (lines 108-119). */
  method CollectEndDate(input: seq<string>, parse: string -> Option<Date>, start: Date, today: Date)
    returns (consumed: nat, end: Option<Date>, trace: seq<Event>)
    ensures Prompted(consumed, end, trace) == Retry(input, JudgeEnd(parse, start, today))
    ensures end.Some? ==> 0 < consumed <= |input| && parse(input[consumed - 1]) == end && Le(start, end.value) && Le(end.value, today)
    ensures end.None? ==> consumed == |input|
  {
    ghost var judge := JudgeEnd(parse, start, today);
    consumed, end, trace := 0, None, [];
    while consumed < |input|
      invariant RejectedSoFar(input, judge, consumed, trace)
    {
      var text := input[consumed];
      var message;
      match parse(text) {
        case None =>
          message := BadEndFormat;
        case Some(d) =>
          if Le(start, d) && Le(d, today) {
            RetryAccepts(input, judge, consumed, trace, d);
            consumed, end := consumed + 1, Some(d);
            return;
          }
          message := BadEndRange;
      }
      RejectStep(input, judge, consumed, trace, message);
      trace := trace + [Print(message)];
      consumed := consumed + 1;
    }
    RetryExhausts(input, judge, trace);
  }

  /** The range the two loops accept is ordered, ends no later than today,
      and so also starts no later than today. */
  lemma AcceptedRange(startInput: seq<string>, endInput: seq<string>, parse: string -> Option<Date>, today: Date)
    requires Retry(startInput, JudgeStart(parse, today)).accepted.Some?
    requires Retry(endInput, JudgeEnd(parse, Retry(startInput, JudgeStart(parse, today)).accepted.value, today)).accepted.Some?
    ensures var start := Retry(startInput, JudgeStart(parse, today)).accepted.value;
      var end := Retry(endInput, JudgeEnd(parse, start, today)).accepted.value;
      Le(start, end) && Le(end, today) && Le(start, today)
  {
    var start := Retry(startInput, JudgeStart(parse, today)).accepted.value;
    var p := Retry(endInput, JudgeEnd(parse, start, today));
    assert JudgeEndLine(endInput[p.consumed - 1], parse, start, today) == Accept(p.accepted.value);
    LeTotalOrder(start, p.accepted.value, today);
  }
}
