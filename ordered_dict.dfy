/**
  A Python dict with string keys: a finite map whose iteration order is the order in which
  keys were first inserted. Re-assigning an existing key updates its value
  and leaves its position unchanged.
*/
module OrderedDict {

  datatype Dict<V> = Dict(keys: seq<string>, entries: map<string, V>)

  /** The keys in iteration order are distinct and are exactly the map's keys. */
  ghost predicate Valid<V>(d: Dict<V>) {
    && (forall i, j :: 0 <= i < j < |d.keys| ==> d.keys[i] != d.keys[j])
    && (forall k :: k in d.entries <==> k in d.keys)
  }

  /** `{}` */
  function Empty<V>(): (r: Dict<V>)
    ensures Valid(r) && r.keys == [] && r.entries == map[]
  {
    Dict([], map[])
  }

  /** `d[k] = v` (and `d.update({k: v})`): an existing key keeps its place, a new one goes last. */
  function Put<V>(d: Dict<V>, k: string, v: V): (r: Dict<V>)
    requires Valid(d)
    ensures Valid(r)
    ensures r.entries == d.entries[k := v]
    ensures k in d.entries ==> r.keys == d.keys
    ensures k !in d.entries ==> r.keys == d.keys + [k]
  {
    if k in d.entries then Dict(d.keys, d.entries[k := v]) else Dict(d.keys + [k], d.entries[k := v])
  }

  /** Truth of a dict (`if d:`): it has an entry. For a valid dict this is
      the same as having a key to iterate over. */
  predicate NonEmpty<V>(d: Dict<V>) {
    d.keys != []
  }

  lemma NonEmptyIff<V>(d: Dict<V>)
    requires Valid(d)
    ensures NonEmpty(d) <==> d.entries != map[]
  {
    if NonEmpty(d) {
      assert d.keys[0] in d.entries;
    }
  }

  /** Keys of `s` in order of first occurrence: the iteration order of a dict
      filled by inserting the elements of `s` one after another. */
  function InsertionOrder(s: seq<string>): (r: seq<string>)
    ensures forall i, j :: 0 <= i < j < |r| ==> r[i] != r[j]
    ensures forall k :: k in r <==> k in s
    ensures |r| <= |s|
  {
    if s == [] then []
    else
      var r := InsertionOrder(s[..|s| - 1]);
      if s[|s| - 1] in r then r else r + [s[|s| - 1]]
  }

  /** Without repetitions, the first-occurrence order is the sequence itself. */
  lemma {:induction false} InsertionOrderDistinct(s: seq<string>)
    requires forall i, j :: 0 <= i < j < |s| ==> s[i] != s[j]
    ensures InsertionOrder(s) == s
  {
    if s != [] {
      var p := s[..|s| - 1];
      InsertionOrderDistinct(p);
      assert s[|s| - 1] !in p;
      assert p + [s[|s| - 1]] == s;
    }
  }

  /** The position of the first occurrence of `x` in `s`. */
  function FirstIndex(s: seq<string>, x: string): (r: nat)
    requires x in s
    ensures r < |s| && s[r] == x
    ensures forall i :: 0 <= i < r ==> s[i] != x
  {
    if s[0] == x then 0 else 1 + FirstIndex(s[1..], x)
  }

  /** A first occurrence inside a prefix is the first occurrence in the whole sequence. */
  lemma FirstIndexPrefix(s: seq<string>, n: nat, x: string)
    requires n <= |s| && x in s[..n]
    ensures FirstIndex(s[..n], x) == FirstIndex(s, x)
  {
    var a, b := FirstIndex(s[..n], x), FirstIndex(s, x);
    assert s[a] == x;
    assert b <= a;
    assert s[..n][b] == x;
  }

  /** An element that occurs only at the end has its first occurrence there. */
  lemma FirstIndexLast(s: seq<string>, x: string)
    requires x in s && x !in s[..|s| - 1]
    ensures FirstIndex(s, x) == |s| - 1
  {
    var f := FirstIndex(s, x);
    assert forall i :: 0 <= i < |s| - 1 ==> s[..|s| - 1][i] == s[i];
  }

  /** `r` lists elements of `s` in the order of their first occurrences in `s`. */
  ghost predicate FirstOrdered(s: seq<string>, r: seq<string>) {
    && (forall k :: k in r ==> k in s)
    && (forall i, j :: 0 <= i < j < |r| ==> FirstIndex(s, r[i]) < FirstIndex(s, r[j]))
  }

  /** Iteration order follows first insertion: of two keys, the one inserted
      first comes first. */
  lemma {:induction false} InsertionOrderFirst(s: seq<string>)
    ensures FirstOrdered(s, InsertionOrder(s))
  {
    if s != [] {
      var n := |s| - 1;
      var p, last := s[..n], s[n];
      var rp := InsertionOrder(p);
      InsertionOrderFirst(p);
      FirstOrderedPrefix(s, n, rp);
      if last !in rp {
        FirstOrderedExtend(s, rp);
      }
    }
  }

  lemma FirstOrderedPrefix(s: seq<string>, n: nat, r: seq<string>)
    requires n <= |s| && FirstOrdered(s[..n], r)
    ensures FirstOrdered(s, r)
  {
    forall k | k in r ensures k in s {
      assert k in s[..n];
    }
    forall i, j | 0 <= i < j < |r| ensures FirstIndex(s, r[i]) < FirstIndex(s, r[j]) {
      FirstIndexPrefix(s, n, r[i]);
      FirstIndexPrefix(s, n, r[j]);
    }
  }

  lemma FirstOrderedExtend(s: seq<string>, r: seq<string>)
    requires s != [] && FirstOrdered(s, r)
    requires forall k :: k in r <==> k in s[..|s| - 1]
    requires s[|s| - 1] !in r
    ensures FirstOrdered(s, r + [s[|s| - 1]])
  {
    var n := |s| - 1;
    var last := s[n];
    assert last !in s[..n];
    FirstIndexLast(s, last);
    var r2 := r + [last];
    forall i, j | 0 <= i < j < |r2| ensures FirstIndex(s, r2[i]) < FirstIndex(s, r2[j]) {
      assert r2[i] == r[i];
      if j < |r| {
        assert r2[j] == r[j];
      } else {
        assert r2[j] == last;
        assert r[i] in r;
        FirstIndexPrefix(s, n, r[i]);
      }
    }
  }
}
