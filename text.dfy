/**
  The Python string operations the script relies on, restricted to ASCII:
  str.split with a separator, str.strip() with no argument, str.upper(),
  and the left-justifying format specification `:<width`.
*/
module Text {

  /** A character str.strip() removes: \t \n \v \f \r (9-13), the
      separators \x1c-\x1f (28-31) and the space (32). */
  predicate IsSpace(c: char) {
    9 <= c as int <= 13 || 28 <= c as int <= 32
  }

  predicate AllSpace(s: string) {
    forall i :: 0 <= i < |s| ==> IsSpace(s[i])
  }

  predicate IsLower(c: char) {
    'a' <= c <= 'z'
  }

  // ---------------------------------------------------------------- split

  /** Number of occurrences of `c` in `s`. */
  function Count(s: string, c: char): nat {
    if s == [] then 0 else (if s[0] == c then 1 else 0) + Count(s[1..], c)
  }

  /** str.split(sep): the pieces between separators, one more than there are separators. */
  function Split(s: string, sep: char): (r: seq<string>)
    ensures |r| == Count(s, sep) + 1
    ensures forall i :: 0 <= i < |r| ==> sep !in r[i]
  {
    if s == [] then [""]
    else
      var rest := Split(s[1..], sep);
      if s[0] == sep then [""] + rest
      else [[s[0]] + rest[0]] + rest[1..]
  }

  /** sep.join(parts). */
  function Join(parts: seq<string>, sep: char): string
    requires |parts| > 0
  {
    if |parts| == 1 then parts[0] else parts[0] + [sep] + Join(parts[1..], sep)
  }

  /** Splitting loses nothing: joining the pieces gives back the text. */
  lemma {:induction false} JoinSplit(s: string, sep: char)
    ensures Join(Split(s, sep), sep) == s
  {
    if s != [] {
      var rest := Split(s[1..], sep);
      JoinSplit(s[1..], sep);
      if s[0] == sep {
        assert ([""] + rest)[1..] == rest;
        assert [sep] + s[1..] == s;
      } else {
        JoinCons(s[0], rest, sep);
        assert [s[0]] + s[1..] == s;
      }
    }
  }

  /** Putting a character in front of the first piece puts it in front of the joined text. */
  lemma JoinCons(c: char, parts: seq<string>, sep: char)
    requires |parts| > 0
    ensures Join([[c] + parts[0]] + parts[1..], sep) == [c] + Join(parts, sep)
  {
    var r := [[c] + parts[0]] + parts[1..];
    assert r[1..] == parts[1..];
  }

  /** Joining separator-free pieces and splitting again gives back the pieces. */
  lemma {:induction false} SplitJoin(parts: seq<string>, sep: char)
    requires |parts| > 0
    requires forall i :: 0 <= i < |parts| ==> sep !in parts[i]
    ensures Split(Join(parts, sep), sep) == parts
  {
    if |parts| == 1 {
      SplitNoSep(parts[0], sep);
    } else {
      SplitJoin(parts[1..], sep);
      SplitPrefix(parts[0], Join(parts[1..], sep), sep);
      assert [parts[0]] + parts[1..] == parts;
    }
  }

  /** A text without the separator is one piece. */
  lemma {:induction false} SplitNoSep(s: string, sep: char)
    requires sep !in s
    ensures Split(s, sep) == [s]
  {
    if s != [] {
      SplitNoSep(s[1..], sep);
      assert [s[0]] + s[1..] == s;
    }
  }

  /** Splitting `p + sep + t` where `p` has no separator puts `p` in front of the pieces of `t`. */
  lemma {:induction false} SplitPrefix(p: string, t: string, sep: char)
    requires sep !in p
    ensures Split(p + [sep] + t, sep) == [p] + Split(t, sep)
  {
    if p == [] {
      assert p + [sep] + t == [sep] + t;
      assert ([sep] + t)[1..] == t;
    } else {
      var s := p + [sep] + t;
      assert s[1..] == p[1..] + [sep] + t;
      SplitPrefix(p[1..], t, sep);
      assert [p[0]] + p[1..] == p;
    }
  }

  // ---------------------------------------------------------------- strip

  /** How many whitespace characters `s` starts with. */
  function LeadingSpaces(s: string): (n: nat)
    ensures n <= |s|
    ensures forall i :: 0 <= i < n ==> IsSpace(s[i])
    ensures n < |s| ==> !IsSpace(s[n])
  {
    if s != [] && IsSpace(s[0]) then
      var m := LeadingSpaces(s[1..]);
      assert forall i :: 0 < i <= m ==> s[i] == s[1..][i - 1];
      m + 1
    else 0
  }

  /** How many whitespace characters `s` ends with. */
  function TrailingSpaces(s: string): (n: nat)
    ensures n <= |s|
    ensures forall i :: |s| - n <= i < |s| ==> IsSpace(s[i])
    ensures n < |s| ==> !IsSpace(s[|s| - n - 1])
  {
    if s != [] && IsSpace(s[|s| - 1]) then
      var m := TrailingSpaces(s[..|s| - 1]);
      assert forall i :: |s| - 1 - m <= i < |s| - 1 ==> s[i] == s[..|s| - 1][i];
      m + 1
    else 0
  }

  /** The leading run of whitespace is the one the contract of LeadingSpaces describes. */
  lemma {:induction false} LeadingUnique(s: string, n: nat)
    requires n <= |s| && (forall i :: 0 <= i < n ==> IsSpace(s[i])) && (n < |s| ==> !IsSpace(s[n]))
    ensures LeadingSpaces(s) == n
  {
    if n > 0 {
      assert forall i :: 0 <= i < n - 1 ==> s[1..][i] == s[i + 1];
      LeadingUnique(s[1..], n - 1);
    }
  }

  /** The trailing run of whitespace is the one the contract of TrailingSpaces describes. */
  lemma {:induction false} TrailingUnique(s: string, n: nat)
    requires n <= |s| && (forall i :: |s| - n <= i < |s| ==> IsSpace(s[i])) && (n < |s| ==> !IsSpace(s[|s| - n - 1]))
    ensures TrailingSpaces(s) == n
  {
    if n > 0 {
      var t := s[..|s| - 1];
      assert forall i :: |t| - (n - 1) <= i < |t| ==> t[i] == s[i];
      assert n - 1 < |t| ==> t[|t| - (n - 1) - 1] == s[|s| - n - 1];
      TrailingUnique(t, n - 1);
    }
  }

  /** str.lstrip(): drops leading whitespace. */
  function TrimStart(s: string): (r: string)
    ensures |r| <= |s| && r == s[|s| - |r|..]
    ensures r == [] || !IsSpace(r[0])
    ensures AllSpace(s[..|s| - |r|])
  {
    s[LeadingSpaces(s)..]
  }

  /** str.rstrip(): drops trailing whitespace. */
  function TrimEnd(s: string): (r: string)
    ensures |r| <= |s| && r == s[..|r|]
    ensures r == [] || !IsSpace(r[|r| - 1])
    ensures AllSpace(s[|r|..])
  {
    s[..|s| - TrailingSpaces(s)]
  }

  /** str.strip(): drops whitespace at both ends. */
  function Strip(s: string): (r: string)
    ensures |r| <= |s|
    ensures r == [] || (!IsSpace(r[0]) && !IsSpace(r[|r| - 1]))
  {
    TrimEnd(TrimStart(s))
  }

  /** What strip keeps is a slice of `s` cut out between two runs of whitespace. */
  lemma StripSlice(s: string)
    ensures var r := Strip(s);
      exists i :: 0 <= i <= |s| - |r| && r == s[i..i + |r|] && AllSpace(s[..i]) && AllSpace(s[i + |r|..])
  {
    var r := Strip(s);
    var a := LeadingSpaces(s);
    StripCut(s);
    assert 0 <= a <= |s| - |r| && r == s[a..a + |r|] && AllSpace(s[..a]) && AllSpace(s[a + |r|..]);
  }

  /** Strip cuts `s` right after its leading whitespace. */
  lemma StripCut(s: string)
    ensures var a, r := LeadingSpaces(s), Strip(s);
      && a <= |s| - |r| && r == s[a..a + |r|] && AllSpace(s[..a]) && AllSpace(s[a + |r|..])
  {
    var t := TrimStart(s);
    var r := TrimEnd(t);
    var a := |s| - |t|;
    assert a == LeadingSpaces(s) && t == s[a..];
    DropTake(s, a, |r|);
    assert s[a + |r|..] == t[|r|..];
  }

  /** A prefix of a suffix is a slice. */
  lemma DropTake<T>(s: seq<T>, a: nat, m: nat)
    requires a + m <= |s|
    ensures s[a..][..m] == s[a..a + m]
  {
  }

  /** Stripping twice is stripping once. */
  lemma StripIdempotent(s: string)
    ensures Strip(Strip(s)) == Strip(s)
  {
    StripFixed(Strip(s));
  }

  /** A text that neither starts nor ends with whitespace is left alone by strip. */
  lemma StripFixed(s: string)
    requires s == [] || (!IsSpace(s[0]) && !IsSpace(s[|s| - 1]))
    ensures Strip(s) == s
  {
    assert LeadingSpaces(s) == 0;
    assert s[0..] == s;
    assert TrailingSpaces(s) == 0;
  }

  /** Stripping keeps out every character the text did not contain. */
  lemma StripSub(s: string, c: char)
    requires c !in s
    ensures c !in Strip(s)
  {
    var t := TrimStart(s);
    assert c !in t by {
      assert t == s[|s| - |t|..];
    }
    var r := TrimEnd(t);
    assert c !in r by {
      assert r == t[..|r|];
    }
  }

  // ---------------------------------------------------------------- upper

  /** str.upper() on one ASCII character: a lower-case letter becomes the
      capital 32 code points below it, anything else is kept. */
  function UpperChar(c: char): (r: char)
    ensures !IsLower(r)
    ensures IsLower(c) ==> r as int == c as int - 32 && 'A' <= r <= 'Z'
    ensures !IsLower(c) ==> r == c
  {
    if IsLower(c) then (c as int - 32) as char else c
  }

  /** Upper-casing a character never makes or removes whitespace. */
  lemma UpperCharSpace(c: char)
    ensures IsSpace(UpperChar(c)) <==> IsSpace(c)
  {
  }

  /** str.upper(): each character upper-cased on its own. */
  function Upper(s: string): (r: string)
    ensures |r| == |s|
    ensures forall i :: 0 <= i < |s| ==> r[i] == UpperChar(s[i])
  {
    if s == [] then [] else [UpperChar(s[0])] + Upper(s[1..])
  }

  /** Upper-casing changes no whitespace, so it commutes with strip. */
  lemma UpperStrip(s: string)
    ensures Upper(Strip(s)) == Strip(Upper(s))
  {
    UpperTrimStart(s);
    UpperTrimEnd(TrimStart(s));
  }

  lemma UpperTrimStart(s: string)
    ensures Upper(TrimStart(s)) == TrimStart(Upper(s))
  {
    var u := Upper(s);
    var n := LeadingSpaces(s);
    forall i | 0 <= i < n ensures IsSpace(u[i]) {
      UpperCharSpace(s[i]);
    }
    if n < |s| {
      UpperCharSpace(s[n]);
    }
    LeadingUnique(u, n);
    UpperDrop(s, n);
  }

  lemma UpperTrimEnd(s: string)
    ensures Upper(TrimEnd(s)) == TrimEnd(Upper(s))
  {
    var n := TrailingSpaces(s);
    UpperTrailing(s);
    UpperSlice(s, |s| - n);
  }

  /** Upper-casing keeps the trailing whitespace run. */
  lemma UpperTrailing(s: string)
    ensures TrailingSpaces(Upper(s)) == TrailingSpaces(s)
  {
    var u := Upper(s);
    var n := TrailingSpaces(s);
    forall i | |s| - n <= i < |s| ensures IsSpace(u[i]) {
      UpperCharSpace(s[i]);
    }
    if n < |s| {
      UpperCharSpace(s[|s| - n - 1]);
    }
    TrailingUnique(u, n);
  }

  /** Upper-casing a prefix is taking the prefix of the upper-cased text. */
  lemma UpperSlice(s: string, n: nat)
    requires n <= |s|
    ensures Upper(s)[..n] == Upper(s[..n])
  {
    var a, b := Upper(s)[..n], Upper(s[..n]);
    forall k | 0 <= k < n ensures a[k] == b[k] {
      assert a[k] == UpperChar(s[k]);
      assert b[k] == UpperChar(s[..n][k]);
    }
  }

  /** Upper-casing a suffix is taking the suffix of the upper-cased text. */
  lemma {:induction false} UpperDrop(s: string, n: nat)
    requires n <= |s|
    ensures Upper(s)[n..] == Upper(s[n..])
  {
    if n > 0 {
      UpperDrop(s[1..], n - 1);
      assert s[1..][n - 1..] == s[n..];
      assert Upper(s)[n..] == Upper(s)[1..][n - 1..];
    }
  }

  /** A text without lower-case letters is its own upper case. */
  lemma UpperFixed(s: string)
    requires forall i :: 0 <= i < |s| ==> !IsLower(s[i])
    ensures Upper(s) == s
  {
  }

  /** Upper-casing introduces no character other than a capital letter. */
  lemma UpperKeeps(s: string, c: char)
    requires !IsLower(c) && !('A' <= c <= 'Z')
    requires c !in s
    ensures c !in Upper(s)
  {
    var u := Upper(s);
    assert forall k :: 0 <= k < |u| ==> u[k] != c;
  }

  // ---------------------------------------------------------------- format

  /** f"{s:<width}": `s` followed by enough spaces to fill `width`; never truncated. */
  function LeftJustify(s: string, width: nat): (r: string)
    ensures |r| == if |s| < width then width else |s|
    ensures r[..|s|] == s
    ensures forall i :: |s| <= i < |r| ==> r[i] == ' '
  {
    if |s| >= width then s else s + seq(width - |s|, _ => ' ')
  }
}
