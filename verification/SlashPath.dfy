/**
  Slash-separated paths: `path.Clean` and `path.Join` as a stack machine over path
  elements, and the test for paths that stay below their root.
 */
module SlashPath {
  import opened Base
  import opened Text

  /** A file-system location: the sequence of names from the root of the file system. */
  type Key = seq<string>

  const SLASH := '/'

  /** An element that `Clean` keeps as it is. */
  predicate Plain(e: string)
  {
    e != "" && e != "." && e != ".." && SLASH !in e
  }

  predicate AllPlain(es: seq<string>)
  {
    forall i :: 0 <= i < |es| ==> Plain(es[i])
  }

  /** One element arrives at the stack of elements kept so far. */
  function Push(rooted: bool, stack: seq<string>, e: string): seq<string>
  {
    if e == "" || e == "." then stack
    else if e == ".." then
      if stack != [] && stack[|stack| - 1] != ".." then stack[..|stack| - 1]
      else if rooted then stack
      else stack + [".."]
    else stack + [e]
  }

  function Reduce(rooted: bool, stack: seq<string>, es: seq<string>): seq<string>
    decreases |es|
  {
    if es == [] then stack else Reduce(rooted, Push(rooted, stack, es[0]), es[1..])
  }

  predicate Rooted(p: string)
  {
    p != "" && p[0] == SLASH
  }

  /** The elements left of `p` after cleaning. */
  function Elements(p: string): seq<string>
  {
    Reduce(Rooted(p), [], Split(p, SLASH))
  }

  function Render(rooted: bool, es: seq<string>): string
  {
    if rooted then [SLASH] + Join(es, SLASH)
    else if es == [] then "."
    else Join(es, SLASH)
  }

  /** `path.Clean`. */
  function Clean(p: string): string
  {
    Render(Rooted(p), Elements(p))
  }

  /** `path.Join`: leading empty elements vanish, the rest is joined and cleaned. */
  function JoinPath(es: seq<string>): string
  {
    if es == [] then ""
    else if es[0] == "" then JoinPath(es[1..])
    else Clean(Join(es, SLASH))
  }

  /** A cleaned path that is not absolute and does not leave its root. */
  predicate IsLocalSlash(p: string)
  {
    && p != ""
    && !([SLASH] <= p)
    && p != ".."
    && !("../" <= p)
  }

  /** Where a file system rooted at some base finds `p`, or nothing when `p` escapes. */
  function KeyOf(p: string): Option<Key>
  {
    var c := Clean(p);
    if c == "." then Some([])
    else if !IsLocalSlash(c) then None
    else Some(Split(c, SLASH))
  }

  // ---------------------------------------------------------------- the stack machine

  lemma {:induction false} ReduceAppend(rooted: bool, stack: seq<string>, a: seq<string>, b: seq<string>)
    ensures Reduce(rooted, stack, a + b) == Reduce(rooted, Reduce(rooted, stack, a), b)
    decreases |a|
  {
    if a == [] {
      assert a + b == b;
    } else {
      assert (a + b)[0] == a[0] && (a + b)[1..] == a[1..] + b;
      ReduceAppend(rooted, Push(rooted, stack, a[0]), a[1..], b);
    }
  }

  lemma {:induction false} ReducePlain(rooted: bool, stack: seq<string>, es: seq<string>)
    requires AllPlain(es)
    ensures Reduce(rooted, stack, es) == stack + es
    decreases |es|
  {
    if es == [] {
      assert stack + es == stack;
    } else {
      ReducePlain(rooted, stack + [es[0]], es[1..]);
      assert stack + [es[0]] + es[1..] == stack + es;
    }
  }

  /** What cleaning leaves: some ".." (none when rooted), then plain elements. */
  ghost predicate Reduced(rooted: bool, stack: seq<string>)
  {
    exists n :: UpsThenPlain(rooted, stack, n)
  }

  predicate UpsThenPlain(rooted: bool, stack: seq<string>, n: int)
  {
    && 0 <= n <= |stack|
    && (rooted ==> n == 0)
    && (forall i :: 0 <= i < n ==> stack[i] == "..")
    && (forall i :: n <= i < |stack| ==> Plain(stack[i]))
  }

  lemma PushReduced(rooted: bool, stack: seq<string>, e: string)
    requires Reduced(rooted, stack) && SLASH !in e
    ensures Reduced(rooted, Push(rooted, stack, e))
  {
    var n :| UpsThenPlain(rooted, stack, n);
    var s := Push(rooted, stack, e);
    if e == "" || e == "." {
    } else if e == ".." {
      if stack != [] && stack[|stack| - 1] != ".." {
        assert UpsThenPlain(rooted, s, n);
      } else if !rooted {
        assert n == |stack|;
        assert UpsThenPlain(rooted, s, n + 1);
      }
    } else {
      assert UpsThenPlain(rooted, s, n);
    }
  }

  lemma {:induction false} ReduceReduced(rooted: bool, stack: seq<string>, es: seq<string>)
    requires Reduced(rooted, stack) && Free(es, SLASH)
    ensures Reduced(rooted, Reduce(rooted, stack, es))
    decreases |es|
  {
    if es != [] {
      PushReduced(rooted, stack, es[0]);
      ReduceReduced(rooted, Push(rooted, stack, es[0]), es[1..]);
    }
  }

  lemma ElementsReduced(p: string)
    ensures Reduced(Rooted(p), Elements(p))
  {
    SplitFree(p, SLASH);
    assert UpsThenPlain(Rooted(p), [], 0);
    ReduceReduced(Rooted(p), [], Split(p, SLASH));
  }

  /** Feeding an already reduced sequence back changes nothing. */
  lemma {:induction false} ReduceFixed(rooted: bool, es: seq<string>)
    requires Reduced(rooted, es)
    ensures Reduce(rooted, [], es) == es
  {
    var n :| UpsThenPlain(rooted, es, n);
    var ups, rest := es[..n], es[n..];
    assert es == ups + rest;
    if !rooted { ReduceUps([], ups); }
    assert Reduce(rooted, [], ups) == ups;
    ReduceAppend(rooted, [], ups, rest);
    ReducePlain(rooted, ups, rest);
  }

  lemma {:induction false} ReduceUps(stack: seq<string>, ups: seq<string>)
    requires forall i :: 0 <= i < |ups| ==> ups[i] == ".."
    requires forall i :: 0 <= i < |stack| ==> stack[i] == ".."
    ensures Reduce(false, stack, ups) == stack + ups
    decreases |ups|
  {
    if ups == [] {
      assert stack + ups == stack;
    } else {
      ReduceUps(stack + [".."], ups[1..]);
      assert stack + [".."] + ups[1..] == stack + ups;
    }
  }

  lemma ReducedFree(rooted: bool, es: seq<string>)
    requires Reduced(rooted, es)
    ensures Free(es, SLASH)
    ensures forall i :: 0 <= i < |es| ==> es[i] != ""
  {
  }

  /** A joined nonempty reduced sequence starts with its first element, so not with a slash. */
  lemma JoinHead(es: seq<string>)
    requires es != [] && es[0] != "" && SLASH !in es[0]
    ensures Join(es, SLASH) != "" && Join(es, SLASH)[0] != SLASH
    ensures es[0] <= Join(es, SLASH)
  {
  }

  lemma RenderElements(rooted: bool, es: seq<string>)
    requires Reduced(rooted, es)
    ensures Rooted(Render(rooted, es)) == rooted
    ensures Elements(Render(rooted, es)) == es
  {
    ReducedFree(rooted, es);
    ReduceFixed(rooted, es);
    var p := Render(rooted, es);
    if es == [] {
      if rooted {
        assert p == [SLASH];
        SplitCons("", "", SLASH);
        assert "" + [SLASH] + "" == p;
        assert Split(p, SLASH) == ["", ""];
        assert Reduce(true, [], ["", ""]) == Reduce(true, [], [""]) == [];
      } else {
        assert Split(p, SLASH) == ["."];
        assert Reduce(false, [], ["."]) == [];
      }
    } else {
      SplitJoin(es, SLASH);
      JoinHead(es);
      if rooted {
        var j := Join(es, SLASH);
        assert "" + [SLASH] + j == p;
        SplitCons("", j, SLASH);
        assert ([""] + es)[1..] == es;
      }
    }
  }

  /** Cleaning a cleaned path changes nothing. */
  lemma CleanIdempotent(p: string)
    ensures Clean(Clean(p)) == Clean(p)
    ensures Elements(Clean(p)) == Elements(p)
  {
    ElementsReduced(p);
    RenderElements(Rooted(p), Elements(p));
  }

  /** Plain elements survive cleaning as they are. */
  lemma CleanPlain(es: seq<string>)
    requires es != [] && AllPlain(es)
    ensures Clean(Join(es, SLASH)) == Join(es, SLASH)
    ensures KeyOf(Join(es, SLASH)) == Some(es)
  {
    assert UpsThenPlain(false, es, 0);
    RenderElements(false, es);
    KeyOfElements(Join(es, SLASH));
  }

  /** A joined path shows whether its first element is "..". */
  lemma JoinUp(es: seq<string>)
    requires es != [] && Free(es, SLASH)
    ensures var c := Join(es, SLASH); (c == ".." || "../" <= c) <==> es[0] == ".."
  {
    hide IndexByte;
    var c := Join(es, SLASH);
    SplitJoin(es, SLASH);
    if c == ".." {
      assert Split("..", SLASH) == [".."];
    } else if "../" <= c {
      var t := c[3..];
      assert c == ".." + [SLASH] + t;
      SplitCons("..", t, SLASH);
    }
  }

  /** The key of a path, without going through the cleaned string. */
  lemma KeyOfElements(p: string)
    ensures KeyOf(p) ==
      if Rooted(p) then None
      else if Elements(p) != [] && Elements(p)[0] == ".." then None
      else Some(Elements(p))
  {
    var es := Elements(p);
    ElementsReduced(p);
    ReducedFree(Rooted(p), es);
    var c := Clean(p);
    if Rooted(p) {
      assert c[0] == SLASH;
    } else if es != [] {
      JoinHead(es);
      SplitJoin(es, SLASH);
      JoinUp(es);
      assert Split(".", SLASH) == ["."];
    }
  }

  /** A local key never contains "..", "." or the empty name. */
  lemma KeyPlain(p: string)
    requires KeyOf(p).Some?
    ensures AllPlain(KeyOf(p).value)
  {
    KeyOfElements(p);
    ElementsReduced(p);
    var es := Elements(p);
    var n :| UpsThenPlain(Rooted(p), es, n);
  }

  /** Joining one more plain name to a path extends its key by that name. */
  lemma KeyOfJoin(p: string, name: string)
    requires p != "" && Plain(name)
    ensures KeyOf(JoinPath([p, name])) ==
      match KeyOf(p) { case None => None case Some(k) => Some(k + [name]) }
  {
    var q := p + [SLASH] + name;
    assert Join([p, name], SLASH) == q by { assert [p, name][1..] == [name]; }
    assert Split(name, SLASH) == [name];
    SplitConcat(p, name, SLASH);
    assert Rooted(q) == Rooted(p);
    ReduceAppend(Rooted(p), [], Split(p, SLASH), [name]);
    var es := Elements(p);
    assert Elements(q) == es + [name];
    CleanIdempotent(q);
    ElementsReduced(q);
    RenderElements(Rooted(q), Elements(q));
    KeyOfElements(Clean(q));
    KeyOfElements(p);
  }

  // ------------------------------------------------------------- cleaning, step by step

  /** One element alone: nothing for "" and ".", else itself. */
  lemma ElementsOfOne(e: string)
    requires '/' !in e
    ensures Elements(e) == if e == "" || e == "." then [] else [e]
  {
    SplitNone(e, SLASH);
    assert [e][1..] == [];
    assert Reduce(Rooted(e), [], [e]) == Push(Rooted(e), [], e);
  }

  /**
    One more element: "" and "." change nothing, ".." takes back the last element there is
    to take back (at the root of an absolute path there is none), any other is added.
   */
  lemma ElementsOfMore(p: string, e: string)
    requires p != "" && '/' !in e
    ensures var es := Elements(p);
      Elements(p + "/" + e) ==
        if e == "" || e == "." then es
        else if e != ".." then es + [e]
        else if es == [] then (if p[0] == '/' then [] else [".."])
        else if es[|es| - 1] == ".." then es + [".."]
        else es[..|es| - 1]
  {
    var es := Elements(p);
    assert p + "/" + e == p + [SLASH] + e;
    SplitConcat(p, e, SLASH);
    SplitNone(e, SLASH);
    ReduceAppend(Rooted(p), [], Split(p, SLASH), [e]);
    assert [e][1..] == [];
    ElementsReduced(p);
    var n :| UpsThenPlain(Rooted(p), es, n);
  }

  /** And the cleaned path is what is left, with its slash if it had one, or "." for nothing. */
  lemma CleanIs(p: string)
    ensures var es := Elements(p);
      Clean(p) == if p != "" && p[0] == '/' then "/" + Join(es, '/') else if es == [] then "." else Join(es, '/')
  {
  }
}
