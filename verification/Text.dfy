/**
  The string operations the reference syntax and the path layout rest on:
  `strings.IndexByte`, `LastIndexByte`, `Index`, `Split` and `Join`.  A Go string is a
  sequence of bytes; each `char` here stands for one byte.
 */
module Text {

  /** Position of the first `c` in `s`, or -1. */
  function IndexByte(s: string, c: char): (i: int)
    ensures -1 <= i < |s|
    ensures i < 0 <==> c !in s
    ensures i >= 0 ==> s[i] == c && c !in s[..i]
  {
    if s == "" then -1
    else if s[0] == c then 0
    else
      var j := IndexByte(s[1..], c);
      assert j >= 0 ==> s[..j + 1] == [s[0]] + s[1..][..j];
      if j < 0 then -1 else j + 1
  }

  /** Position of the last `c` in `s`, or -1. */
  function LastIndexByte(s: string, c: char): (i: int)
    ensures -1 <= i < |s|
    ensures i < 0 <==> c !in s
    ensures i >= 0 ==> s[i] == c && c !in s[i + 1..]
  {
    if s == "" then -1
    else
      var n := |s| - 1;
      assert s == s[..n] + [s[n]];
      if s[n] == c then n
      else
        var j := LastIndexByte(s[..n], c);
        assert j >= 0 ==> s[j + 1..] == s[..n][j + 1..] + [s[n]];
        j
  }

  /** `sub` occurs in `s` at position `k`. */
  predicate OccursAt(s: string, sub: string, k: int)
  {
    0 <= k <= |s| - |sub| && s[k..k + |sub|] == sub
  }

  lemma OccursInTail(s: string, sub: string)
    requires s != ""
    ensures forall k :: 1 <= k ==> OccursAt(s, sub, k) == OccursAt(s[1..], sub, k - 1)
  {
    forall k | 1 <= k ensures OccursAt(s, sub, k) == OccursAt(s[1..], sub, k - 1) {
      if k <= |s| - |sub| { SliceOfTail(s, k, |sub|); }
    }
  }

  lemma SliceOfTail(s: string, k: nat, n: nat)
    requires 1 <= k && k + n <= |s|
    ensures s[k..k + n] == s[1..][k - 1..k - 1 + n]
  {
  }

  /** Position of the first occurrence of `sub` in `s`, or -1. */
  function Index(s: string, sub: string): (i: int)
    ensures -1 <= i
    ensures i >= 0 ==> OccursAt(s, sub, i)
    ensures forall k :: OccursAt(s, sub, k) ==> 0 <= i <= k
  {
    if OccursAt(s, sub, 0) then 0
    else if s == "" then -1
    else
      var j := Index(s[1..], sub);
      OccursInTail(s, sub);
      if j < 0 then -1 else j + 1
  }

  /** `strings.Split(s, c)`: the pieces of `s` between the separators, at least one. */
  function Split(s: string, c: char): (parts: seq<string>)
    ensures |parts| >= 1
  {
    var i := IndexByte(s, c);
    if i < 0 then [s] else [s[..i]] + Split(s[i + 1..], c)
  }

  /** `strings.Join(parts, c)`. */
  function Join(parts: seq<string>, c: char): string
  {
    if parts == [] then ""
    else if |parts| == 1 then parts[0]
    else parts[0] + [c] + Join(parts[1..], c)
  }

  /** No piece contains the separator. */
  predicate Free(parts: seq<string>, c: char)
  {
    forall i :: 0 <= i < |parts| ==> c !in parts[i]
  }

  lemma {:induction false} SplitFree(s: string, c: char)
    ensures Free(Split(s, c), c)
    decreases |s|
  {
    var i := IndexByte(s, c);
    if i >= 0 {
      SplitFree(s[i + 1..], c);
    }
  }

  /** Without a separator there is one piece. */
  lemma SplitNone(s: string, c: char)
    requires c !in s
    ensures Split(s, c) == [s]
  {
  }

  lemma JoinOne(s: string, c: char)
    ensures Join([s], c) == s
  {
  }

  lemma JoinCons(a: string, parts: seq<string>, c: char)
    requires parts != []
    ensures Join([a] + parts, c) == a + [c] + Join(parts, c)
  {
    assert ([a] + parts)[1..] == parts;
  }

  lemma CutAt(s: string, i: nat)
    requires i < |s|
    ensures s == s[..i] + [s[i]] + s[i + 1..]
  {
  }

  lemma {:induction false} JoinSplit(s: string, c: char)
    ensures Join(Split(s, c), c) == s
    decreases |s|
  {
    var i := IndexByte(s, c);
    if i >= 0 {
      JoinSplit(s[i + 1..], c);
      JoinCons(s[..i], Split(s[i + 1..], c), c);
      CutAt(s, i);
    }
  }

  /** The first separator of `a + [c] + t` is right after a separator-free `a`. */
  lemma FirstSeparator(a: string, t: string, c: char)
    requires c !in a
    ensures IndexByte(a + [c] + t, c) == |a|
  {
    var s := a + [c] + t;
    var i := IndexByte(s, c);
    assert s[|a|] == c;
    assert i >= |a|;
    assert i <= |a|;
  }

  lemma SplitCons(a: string, t: string, c: char)
    requires c !in a
    ensures Split(a + [c] + t, c) == [a] + Split(t, c)
  {
    FirstSeparator(a, t, c);
    var s := a + [c] + t;
    assert s[..|a|] == a && s[|a| + 1..] == t;
  }

  lemma {:induction false} SplitJoin(parts: seq<string>, c: char)
    requires parts != [] && Free(parts, c)
    ensures Split(Join(parts, c), c) == parts
    decreases |parts|
  {
    if |parts| == 1 {
    } else {
      SplitJoin(parts[1..], c);
      SplitCons(parts[0], Join(parts[1..], c), c);
    }
  }

  lemma Regroup(a: string, x: string, y: string, c: char)
    ensures a + [c] + x + [c] + y == a + [c] + (x + [c] + y)
  {
  }

  lemma SplitStep(a: string, c: char)
    requires c in a
    ensures var i := IndexByte(a, c);
      0 <= i < |a| && a == a[..i] + [c] + a[i + 1..] && c !in a[..i]
      && Split(a, c) == [a[..i]] + Split(a[i + 1..], c)
  {
    CutAt(a, IndexByte(a, c));
  }

  /** Splitting distributes over a concatenation at a separator. */
  lemma {:induction false} SplitConcat(a: string, b: string, c: char)
    ensures Split(a + [c] + b, c) == Split(a, c) + Split(b, c)
    decreases |a|
  {
    hide IndexByte, Split;
    if c !in a {
      SplitNone(a, c);
      SplitCons(a, b, c);
    } else {
      SplitStep(a, c);
      var i := IndexByte(a, c);
      var head, rest := a[..i], a[i + 1..];
      calc {
        Split(a + [c] + b, c);
        { Regroup(head, rest, b, c); }
        Split(head + [c] + (rest + [c] + b), c);
        { SplitCons(head, rest + [c] + b, c); }
        [head] + Split(rest + [c] + b, c);
        { SplitConcat(rest, b, c); }
        [head] + (Split(rest, c) + Split(b, c));
        ([head] + Split(rest, c)) + Split(b, c);
        Split(a, c) + Split(b, c);
      }
    }
  }

  lemma {:induction false} JoinConcat(x: seq<string>, y: seq<string>, c: char)
    requires x != [] && y != []
    ensures Join(x + y, c) == Join(x, c) + [c] + Join(y, c)
    decreases |x|
  {
    if |x| == 1 {
      assert (x + y)[1..] == y;
    } else {
      assert (x + y)[1..] == x[1..] + y;
      JoinConcat(x[1..], y, c);
    }
  }
}
