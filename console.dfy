/**
  The console as the script uses it. Every prompt reads one line from the
  same stream, so user input is one sequence of lines; what the script
  shows is a trace of events: one Print per print() call, with its
  embedded newlines kept literally, and one Plot per chart shown.

  Each `while True:` prompt loop of the script has the same shape: read a
  line, judge it, either accept it and leave the loop or print one message
  and prompt again. Retry is that shape, once for all three loops.
*/
module Console {
  import opened Wrappers

  datatype Event = Print(text: string) | Plot(symbols: seq<string>)

  /** What one loop iteration makes of the line it read. */
  datatype Verdict<T> = Accept(value: T) | Reject(message: string)

  /** The outcome of a prompt loop over the input:
      `consumed` lines read, the accepted value if any, the messages printed. */
  datatype Prompted<T> = Prompted(consumed: nat, accepted: Option<T>, trace: seq<Event>)

  /** Rejected lines before the accepting one (or all lines, if none is accepted). */
  function Rejected<T>(p: Prompted<T>): nat {
    if p.accepted.Some? && p.consumed > 0 then p.consumed - 1 else p.consumed
  }

  /** The prompt loop: reads lines until `judge` accepts one. When the input
      runs out first (the script would stop with EOFError) nothing is accepted. */
  function Retry<T>(input: seq<string>, judge: string -> Verdict<T>): (r: Prompted<T>)
    ensures r.consumed <= |input|
    ensures r.accepted.Some? ==> 0 < r.consumed && judge(input[r.consumed - 1]) == Accept(r.accepted.value)
    ensures r.accepted.None? ==> r.consumed == |input|
    ensures |r.trace| == Rejected(r)
    ensures forall j :: 0 <= j < Rejected(r) ==> judge(input[j]).Reject? && r.trace[j] == Print(judge(input[j]).message)
  {
    if input == [] then Prompted(0, None, [])
    else match judge(input[0])
      case Accept(v) => Prompted(1, Some(v), [])
      case Reject(m) =>
        var rest := Retry(input[1..], judge);
        Prompted(rest.consumed + 1, rest.accepted, [Print(m)] + rest.trace)
  }

  /** Retry is determined by its contract: a loop outcome that reads the
      first accepted line, or every line when none is accepted, and prints
      one message per rejected line is the one Retry gives. */
  lemma {:induction false} RetryUnique<T>(input: seq<string>, judge: string -> Verdict<T>, p: Prompted<T>)
    requires p.consumed <= |input|
    requires p.accepted.Some? ==> 0 < p.consumed && judge(input[p.consumed - 1]) == Accept(p.accepted.value)
    requires p.accepted.None? ==> p.consumed == |input|
    requires |p.trace| == Rejected(p)
    requires forall j :: 0 <= j < Rejected(p) ==> judge(input[j]).Reject? && p.trace[j] == Print(judge(input[j]).message)
    ensures p == Retry(input, judge)
  {
    if input != [] {
      match judge(input[0])
      case Accept(v) =>
        assert Rejected(p) == 0;
      case Reject(m) =>
        assert p.consumed > 0 && Rejected(p) > 0;
        var q := Prompted(p.consumed - 1, p.accepted, p.trace[1..]);
        forall j | 0 <= j < Rejected(q)
          ensures judge(input[1..][j]).Reject? && q.trace[j] == Print(judge(input[1..][j]).message)
        {
          assert input[1..][j] == input[j + 1];
        }
        RetryUnique(input[1..], judge, q);
        assert p.trace == [Print(m)] + q.trace;
    }
  }

  /** The first `n` lines were all rejected and `trace` holds their messages, in order. */
  ghost predicate RejectedSoFar<T>(input: seq<string>, judge: string -> Verdict<T>, n: nat, trace: seq<Event>) {
    && n <= |input| && |trace| == n
    && forall j :: 0 <= j < n ==> judge(input[j]).Reject? && trace[j] == Print(judge(input[j]).message)
  }

  /** One more rejected line: its message goes at the end of the trace. */
  lemma RejectStep<T>(input: seq<string>, judge: string -> Verdict<T>, n: nat, trace: seq<Event>, message: string)
    requires RejectedSoFar(input, judge, n, trace)
    requires n < |input| && judge(input[n]) == Reject(message)
    ensures RejectedSoFar(input, judge, n + 1, trace + [Print(message)])
  {
  }

  /** After `n` rejected lines, an accepted line ends the loop having read `n + 1` lines. */
  lemma RetryAccepts<T>(input: seq<string>, judge: string -> Verdict<T>, n: nat, trace: seq<Event>, v: T)
    requires RejectedSoFar(input, judge, n, trace)
    requires n < |input| && judge(input[n]) == Accept(v)
    ensures Retry(input, judge) == Prompted(n + 1, Some(v), trace)
  {
    RetryUnique(input, judge, Prompted(n + 1, Some(v), trace));
  }

  /** When every line is rejected the loop reads the whole input and accepts nothing. */
  lemma RetryExhausts<T>(input: seq<string>, judge: string -> Verdict<T>, trace: seq<Event>)
    requires RejectedSoFar(input, judge, |input|, trace)
    ensures Retry(input, judge) == Prompted(|input|, None, trace)
  {
    RetryUnique(input, judge, Prompted(|input|, None, trace));
  }

  /** A prompt loop only prints. */
  lemma RetryPrints<T>(input: seq<string>, judge: string -> Verdict<T>)
    ensures forall k :: 0 <= k < |Retry(input, judge).trace| ==> Retry(input, judge).trace[k].Print?
  {
    var r := Retry(input, judge);
    forall k | 0 <= k < |r.trace| ensures r.trace[k].Print? {
      assert r.trace[k] == Print(judge(input[k]).message);
    }
  }
}
