/** A file system over SFTP, rooted at an absolute base by lexical path resolution. */
module SftpFs {
  import opened Base
  import opened Text
  import opened SlashPath

  // ------------------------------------------------------------------ path resolution

  /** The absolute path `name` stands for below `base`, or nothing when it escapes. */
  function ResolvePath(base: string, name: string): Option<string>
  {
    var cleaned := Clean(name);
    if cleaned == "." then Some(base)
    else if !IsLocalSlash(cleaned) then None
    else Some(JoinPath([base, cleaned]))
  }

  /** A file system is its base; opening a subdirectory gives a file system based there. */
  datatype SftpFs = SftpFs(base: string) {
    function OpenUnrooted(name: string): Option<SftpFs>
    {
      match ResolvePath(base, name)
      case None => None
      case Some(abs) => Some(SftpFs(abs))
    }
  }

  predicate CleanBase(base: string)
  {
    Rooted(base) && Clean(base) == base
  }

  predicate Ordinary(e: string)
  {
    e != "" && e != "." && e != ".."
  }

  /** Ordinary elements minus ".." elements. */
  function Depth(es: seq<string>): int
  {
    if es == [] then 0
    else (if Ordinary(es[0]) then 1 else if es[0] == ".." then -1 else 0) + Depth(es[1..])
  }

  /** A relative name none of whose prefixes climbs above its start. */
  ghost predicate StaysInside(name: string)
  {
    !Rooted(name) && NeverBelow(Split(name, SLASH), 0)
  }

  ghost predicate NeverBelow(es: seq<string>, start: int)
  {
    forall k :: 0 <= k <= |es| ==> start + Depth(es[..k]) >= 0
  }

  lemma NeverBelowTail(es: seq<string>, start: int)
    requires es != []
    ensures NeverBelow(es, start) <==> start >= 0 && NeverBelow(es[1..], start + Depth(es[..1]))
  {
    var e := es[..1];
    assert Depth(es[..0]) == 0;
    assert Depth(es[1..][..0]) == 0;
    forall k | 1 <= k <= |es| ensures Depth(es[..k]) == Depth(e) + Depth(es[1..][..k - 1]) {
      assert es[..k][1..] == es[1..][..k - 1];
      assert e[1..] == [];
    }
    if NeverBelow(es, start) {
      forall k | 0 <= k <= |es[1..]| ensures start + Depth(e) + Depth(es[1..][..k]) >= 0 {
        assert start + Depth(es[..k + 1]) >= 0;
      }
      assert start + Depth(es[..0]) >= 0;
    }
    if start >= 0 && NeverBelow(es[1..], start + Depth(e)) {
      forall k | 0 <= k <= |es| ensures start + Depth(es[..k]) >= 0 {
        if k > 0 { assert start + Depth(e) + Depth(es[1..][..k - 1]) >= 0; }
      }
    }
  }

  /** Once ".." is at the bottom of the stack it stays there. */
  lemma {:induction false} BottomStays(stack: seq<string>, es: seq<string>)
    requires stack != [] && stack[0] == ".."
    ensures Reduce(false, stack, es) != [] && Reduce(false, stack, es)[0] == ".."
    decreases |es|
  {
    if es != [] { BottomStays(Push(false, stack, es[0]), es[1..]); }
  }

  /** On a stack without "..", cleaning ends with ".." at the bottom iff some prefix climbs too far. */
  lemma {:induction false} ReduceEscapes(stack: seq<string>, es: seq<string>)
    requires AllPlain(stack) && Free(es, SLASH)
    ensures var r := Reduce(false, stack, es);
      if NeverBelow(es, |stack|) then AllPlain(r) else r != [] && r[0] == ".."
    decreases |es|
  {
    if es == [] {
      assert Depth(es[..0]) == 0;
    } else {
      NeverBelowTail(es, |stack|);
      var next := Push(false, stack, es[0]);
      assert es[..1][1..] == [];
      if stack == [] && es[0] == ".." {
        assert next == [".."];
        BottomStays(next, es[1..]);
        assert Depth(es[..1]) == -1;
        assert !NeverBelow(es[1..], -1) by { assert Depth(es[1..][..0]) == 0; }
      } else {
        assert |next| == |stack| + Depth(es[..1]);
        ReduceEscapes(next, es[1..]);
      }
    }
  }

  /** A name is accepted exactly when it is relative and never climbs above its start. */
  lemma AcceptsIffInside(base: string, name: string)
    ensures ResolvePath(base, name).Some? <==> StaysInside(name)
    ensures StaysInside(name) ==> AllPlain(Elements(name))
  {
    KeyOfElements(name);
    SplitFree(name, SLASH);
    if !Rooted(name) {
      ReduceEscapes([], Split(name, SLASH));
      if StaysInside(name) && Elements(name) != [] { assert Plain(Elements(name)[0]); }
    }
  }

  lemma ResolvedElements(base: string, name: string)
    requires CleanBase(base) && StaysInside(name)
    ensures ResolvePath(base, name) == Some(Render(true, Elements(base) + Elements(name)))
    ensures AllPlain(Elements(base) + Elements(name))
  {
    AcceptsIffInside(base, name);
    ElementsReduced(base);
    assert AllPlain(Elements(base)) by {
      var n :| UpsThenPlain(true, Elements(base), n);
    }
    var es := Elements(name);
    var cleaned := Clean(name);
    if es == [] {
      assert Elements(base) + es == Elements(base);
      assert Clean(name) == ".";
    } else {
      JoinHead(es);
      SplitJoin(es, SLASH);
      assert cleaned != "." by { SplitNone(".", SLASH); }
      var q := base + [SLASH] + cleaned;
      assert [base, cleaned][1..] == [cleaned];
      assert Join([base, cleaned], SLASH) == q;
      SplitConcat(base, cleaned, SLASH);
      ReduceAppend(true, [], Split(base, SLASH), es);
      ReducePlain(true, Elements(base), es);
      assert Rooted(q);
    }
  }

  /** The result lies below the base: its elements are the base's, then the name's. */
  lemma ResolveExtendsBase(base: string, name: string)
    requires CleanBase(base) && ResolvePath(base, name).Some?
    ensures var p := ResolvePath(base, name).value;
      CleanBase(p) && Elements(p) == Elements(base) + Elements(name)
  {
    AcceptsIffInside(base, name);
    ResolvedElements(base, name);
    var es := Elements(base) + Elements(name);
    assert UpsThenPlain(true, es, 0);
    RenderElements(true, es);
  }

  /** Climbing that never leaves a name can be done on top of any other elements. */
  lemma {:induction false} ReduceOnTop(bottom: seq<string>, stack: seq<string>, es: seq<string>)
    requires AllPlain(bottom) && AllPlain(stack) && Free(es, SLASH) && NeverBelow(es, |stack|)
    ensures Reduce(false, bottom + stack, es) == bottom + Reduce(false, stack, es)
    ensures NeverBelow(es, |bottom + stack|)
    decreases |es|
  {
    if es != [] {
      NeverBelowTail(es, |stack|);
      assert es[..1][1..] == [];
      var next := Push(false, stack, es[0]);
      if es[0] == ".." {
        assert NeverBelow(es[1..], |stack| - 1);
        assert stack != [] by { assert Depth(es[1..][..0]) == 0; }
        assert (bottom + stack)[..|bottom + stack| - 1] == bottom + next;
      } else {
        assert Push(false, bottom + stack, es[0]) == bottom + next;
      }
      assert |next| == |stack| + Depth(es[..1]);
      ReduceOnTop(bottom, next, es[1..]);
      assert Reduce(false, bottom + stack, es) == Reduce(false, bottom + next, es[1..]);
    }
  }

  lemma {:induction false} DepthConcat(a: seq<string>, b: seq<string>)
    ensures Depth(a + b) == Depth(a) + Depth(b)
    decreases |a|
  {
    if a == [] {
      assert a + b == b;
    } else {
      assert (a + b)[1..] == a[1..] + b;
      DepthConcat(a[1..], b);
    }
  }

  /** Never below along `x`, then along `y` from the start: never below along both. */
  lemma NeverBelowConcat(x: seq<string>, y: seq<string>)
    requires NeverBelow(x, 0) && NeverBelow(y, 0)
    ensures NeverBelow(x + y, 0)
  {
    assert 0 + Depth(x[..|x|]) >= 0 && x[..|x|] == x;
    forall k | 0 <= k <= |x + y| ensures 0 + Depth((x + y)[..k]) >= 0 {
      if k <= |x| {
        assert (x + y)[..k] == x[..k];
        assert 0 + Depth(x[..k]) >= 0;
      } else {
        assert (x + y)[..k] == x + y[..k - |x|];
        DepthConcat(x, y[..k - |x|]);
        assert 0 + Depth(y[..k - |x|]) >= 0;
      }
    }
  }

  lemma InsideConcat(a: string, b: string)
    requires a != "" && StaysInside(a) && StaysInside(b)
    ensures StaysInside(a + "/" + b)
    ensures Elements(a + "/" + b) == Elements(a) + Elements(b)
  {
    hide Reduce, Depth, IndexByte, Split, NeverBelow, AllPlain;
    var x, y := Split(a, SLASH), Split(b, SLASH);
    var s := a + "/" + b;
    assert s == a + [SLASH] + b;
    assert Split(s, SLASH) == x + y by { SplitConcat(a, b, SLASH); }
    NeverBelowConcat(x, y);
    assert s[0] == a[0];
    assert !Rooted(s);
    SplitFree(b, SLASH);
    AcceptsIffInside("/", a);
    ReduceAppend(false, [], x, y);
    ReduceFromEmpty(Elements(a), y);
  }

  lemma ReduceFromEmpty(bottom: seq<string>, es: seq<string>)
    requires AllPlain(bottom) && Free(es, SLASH) && NeverBelow(es, 0)
    ensures Reduce(false, bottom, es) == bottom + Reduce(false, [], es)
  {
    ReduceOnTop(bottom, [], es);
    assert bottom + [] == bottom;
  }

  lemma RootedRejected(base: string, name: string)
    requires Rooted(name)
    ensures ResolvePath(base, name).None?
  {
    AcceptsIffInside(base, name);
  }

  /**
    Resolving `b` inside the file system opened at `a` is resolving `a/b`, when both are
    accepted, exactly if `a` is not the empty name: for the empty `a` the text `a/b` is
    absolute and rejected although opening the empty name is allowed.
   */
  lemma OpenUnrootedComposes(fs: SftpFs, a: string, b: string)
    requires CleanBase(fs.base)
    requires fs.OpenUnrooted(a).Some? && ResolvePath(fs.base, b).Some?
    ensures ResolvePath(fs.OpenUnrooted(a).value.base, b) == ResolvePath(fs.base, a + "/" + b) <==> a != ""
  {
    hide Elements, Render, StaysInside, Clean, JoinPath;
    var base := fs.base;
    AcceptsIffInside(base, a);
    AcceptsIffInside(base, b);
    ResolveExtendsBase(base, a);
    var sub := ResolvePath(base, a).value;
    ResolvedElements(sub, b);
    if a == "" {
      assert Rooted(a + "/" + b);
      RootedRejected(base, a + "/" + b);
    } else {
      InsideConcat(a, b);
      ResolvedElements(base, a + "/" + b);
      assert Elements(base) + Elements(a) + Elements(b) == Elements(base) + (Elements(a) + Elements(b));
    }
  }

  // ------------------------------------------------------------------------ RemoveAll

  datatype Kind = File | Dir

  datatype RemoveError = PathEscapes | InvalidRoot | Refused | LstatFailed

  datatype OpResult = Done | NotExist | Failed

  type Nodes = map<Key, Kind>

  /** Everything lies in a directory that is there, and only directories contain anything. */
  ghost predicate TreeShaped(nodes: Nodes)
  {
    && (forall p, i :: p in nodes && 0 < i < |p| ==> p[..i] in nodes)
    && (forall p, q :: p in nodes && q in nodes && p < q ==> nodes[p] == Dir)
  }

  predicate Empty(nodes: Nodes, p: Key)
  {
    forall q :: q in nodes ==> !(p < q)
  }

  /** `walk` lists nodes at or below `k` once, each before everything below it; some may be missing. */
  ghost predicate IsWalk(nodes: Nodes, k: Key, walk: seq<Key>)
  {
    && (forall p :: p in walk ==> p in nodes && k <= p)
    && (forall i, j :: 0 <= i < j < |walk| ==> walk[i] != walk[j] && !(walk[j] < walk[i]))
  }

  /** The nodes at or below `k` that a walk did not come to. */
  ghost function Unwalked(nodes: Nodes, k: Key, walk: seq<Key>): set<Key>
  {
    set p | p in nodes && k <= p && p !in walk
  }

  /** A node that cannot go: it or something below it is kept. */
  ghost predicate Stuck(nodes: Nodes, kept: set<Key>, p: Key)
  {
    exists q :: q in nodes && q in kept && p <= q
  }

  ghost function RemainsOf(nodes: Nodes, kept: set<Key>, k: Key): Nodes
  {
    map p | p in nodes && (k <= p ==> Stuck(nodes, kept, p)) :: nodes[p]
  }

  /** The subtree goes entirely exactly if no node in it is kept; nothing else changes. */
  lemma RemovesAllIffNothingKept(nodes: Nodes, kept: set<Key>, k: Key)
    ensures (forall p :: p in RemainsOf(nodes, kept, k) ==> !(k <= p)) <==>
            (forall p :: p in nodes && k <= p ==> p !in kept)
    ensures forall p :: p in nodes && !(k <= p) ==>
              p in RemainsOf(nodes, kept, k) && RemainsOf(nodes, kept, k)[p] == nodes[p]
  {
    var left := RemainsOf(nodes, kept, k);
    forall p | p in nodes && k <= p && p in kept ensures p in left {
      assert Stuck(nodes, kept, p);
    }
    forall p | p in left && k <= p ensures exists q :: q in nodes && k <= q && q in kept {
      var q :| q in nodes && q in kept && p <= q;
      assert k <= q;
    }
  }

  /** The server's tree, with the nodes it refuses to delete and those it fails to look at. */
  class SftpServer {
    var nodes: Nodes
    const refused: set<Key>
    const unseen: set<Key>

    constructor (nodes: Nodes, refused: set<Key>, unseen: set<Key>)
      ensures this.nodes == nodes && this.refused == refused && this.unseen == unseen
    {
      this.nodes := nodes;
      this.refused, this.unseen := refused, unseen;
    }

    /** Deletes a file or an empty directory. */
    method Remove(p: Key) returns (r: OpResult)
      modifies this
      ensures r == Done <==> p in old(nodes) && Empty(old(nodes), p) && p !in refused
      ensures r == NotExist <==> p !in old(nodes)
      ensures nodes == if r == Done then old(nodes) - {p} else old(nodes)
    {
      if p !in nodes { return NotExist; }
      if p in refused || !Empty(nodes, p) { return Failed; }
      nodes := nodes - {p};
      return Done;
    }

    method RemoveDirectory(p: Key) returns (r: OpResult)
      modifies this
      ensures r == Done <==> p in old(nodes) && old(nodes)[p] == Dir && Empty(old(nodes), p) && p !in refused
      ensures nodes == if r == Done then old(nodes) - {p} else old(nodes)
    {
      if p !in nodes { return NotExist; }
      if nodes[p] != Dir || p in refused || !Empty(nodes, p) { return Failed; }
      nodes := nodes - {p};
      return Done;
    }

    /** What the reverse loop leaves of the subtree: refused, not looked at, or not walked to. */
    ghost function Kept(k: Key, walk: seq<Key>): set<Key>
      reads this
    {
      refused + unseen + Unwalked(nodes, k, walk)
    }

    /** What is left after removing `k`: everything elsewhere, and what cannot go. */
    ghost function Remains(k: Key, walk: seq<Key>): Nodes
      reads this
    {
      if k in nodes && Empty(nodes, k) && k !in refused then nodes - {k}
      else if k in unseen then nodes
      else RemainsOf(nodes, Kept(k, walk), k)
    }

    /**
      Removes everything at and below `name`: at once if the server allows it, else in
      reverse order of a walk, ignoring failures on the way.
     */
    method RemoveAll(fs: SftpFs, name: string, walk: seq<Key>) returns (err: Option<RemoveError>)
      requires CleanBase(fs.base) && TreeShaped(nodes)
      requires ResolvePath(fs.base, name).Some? ==>
                 IsWalk(nodes, Elements(ResolvePath(fs.base, name).value), walk)
      modifies this
      ensures err == match ResolvePath(fs.base, name) {
          case None => Some(PathEscapes)
          case Some(abs) =>
            var k := Elements(abs);
            if abs == fs.base then Some(InvalidRoot)
            else if k !in old(nodes) || (Empty(old(nodes), k) && k !in refused) then None
            else if k in unseen then Some(LstatFailed)
            else if old(nodes)[k] == File then Some(Refused)
            else None
        }
      ensures err == Some(PathEscapes) || err == Some(InvalidRoot) ==> nodes == old(nodes)
      ensures err != Some(PathEscapes) && err != Some(InvalidRoot) ==>
                nodes == old(Remains(Elements(ResolvePath(fs.base, name).value), walk))
    {
      var abs := ResolvePath(fs.base, name);
      if abs.None? { return Some(PathEscapes); }
      if abs.value == fs.base { return Some(InvalidRoot); }
      var k := Elements(abs.value);
      ghost var before, kept := nodes, Kept(k, walk);
      ResolveExtendsBase(fs.base, name);
      RemainsWhenLeaf(before, kept, k);
      FilesAreLeaves(before, k);
      var r := Remove(k);
      if r == Done { return None; }
      if r == NotExist { NothingBelowAbsent(before, k); return None; }
      if k in unseen { return Some(LstatFailed); }
      if nodes[k] != Dir {
        r := Remove(k);
        return Some(Refused);
      }
      WalkIsSubtree(before, kept, k, walk);
      RemoveWalked(k, walk);
      return None;
    }

    /** The reverse index loop: look at each node, delete it by its kind, ignore failures. */
    method RemoveWalked(ghost k: Key, paths: seq<Key>)
      requires TreeShaped(nodes) && IsWalk(nodes, k, paths)
      modifies this
      ensures nodes == LeftAfter(old(nodes), old(Kept(k, paths)), paths)
    {
      ghost var before, kept := nodes, Kept(k, paths);
      var i := |paths|;
      while i > 0
        invariant 0 <= i <= |paths|
        invariant nodes == LeftAfter(before, kept, paths[i..])
      {
        i := i - 1;
        var p := paths[i];
        ReverseStep(before, kept, k, paths, i);
        assert p in kept <==> p in refused || p in unseen;
        if p in nodes && p !in unseen {
          if nodes[p] == Dir {
            var _ := RemoveDirectory(p);
          } else {
            var _ := Remove(p);
          }
        }
      }
      assert paths[0..] == paths;
    }
  }

  lemma FilesAreLeaves(nodes: Nodes, k: Key)
    requires TreeShaped(nodes)
    ensures k in nodes && nodes[k] == File ==> Empty(nodes, k)
  {
  }

  lemma WalkIsSubtree(nodes: Nodes, kept: set<Key>, k: Key, walk: seq<Key>)
    requires IsWalk(nodes, k, walk) && Unwalked(nodes, k, walk) <= kept
    ensures LeftAfter(nodes, kept, walk) == RemainsOf(nodes, kept, k)
  {
    forall p | p in nodes && k <= p && p !in walk ensures Stuck(nodes, kept, p) {
      assert p in Unwalked(nodes, k, walk);
    }
  }

  /** The tree after the nodes of `gone` have been tried: only the stuck ones are left of them. */
  ghost function LeftAfter(nodes: Nodes, kept: set<Key>, gone: seq<Key>): Nodes
  {
    map p | p in nodes && (p in gone ==> Stuck(nodes, kept, p)) :: nodes[p]
  }

  /** Whatever is below a node comes after it in the walk, or is not walked to. */
  lemma BelowIsLater(nodes: Nodes, k: Key, walk: seq<Key>, i: nat)
    requires IsWalk(nodes, k, walk) && i < |walk|
    ensures walk[i] in nodes && walk[i] !in walk[i + 1..]
    ensures forall q :: q in nodes && walk[i] < q ==> q in walk[i + 1..] || q in Unwalked(nodes, k, walk)
  {
    var p, later := walk[i], walk[i + 1..];
    assert p in walk;
    forall q | q in nodes && p < q && q !in Unwalked(nodes, k, walk) ensures q in later {
      assert q in walk;
      var j :| 0 <= j < |walk| && walk[j] == q;
      assert j > i;
      assert later[j - i - 1] == q;
    }
  }

  /** When all below `p` has been tried, `p` is empty and not kept exactly if it is not stuck. */
  lemma EmptyIffNotStuck(nodes: Nodes, kept: set<Key>, p: Key, gone: seq<Key>)
    requires p in nodes && p !in gone
    requires forall q :: q in nodes && p < q ==> q in gone || q in kept
    ensures Empty(LeftAfter(nodes, kept, gone), p) && p !in kept <==> !Stuck(nodes, kept, p)
  {
    var now := LeftAfter(nodes, kept, gone);
    if Stuck(nodes, kept, p) && p !in kept {
      var q :| q in nodes && q in kept && p <= q;
      ProperPrefix(p, q);
      assert Stuck(nodes, kept, q);
      assert q in now;
    }
    if !Empty(now, p) {
      var q :| q in now && p < q;
      assert q in gone || q in kept;
      assert Stuck(nodes, kept, q);
      var z :| z in nodes && z in kept && q <= z;
      assert p <= z;
    }
  }

  lemma LeftAfterOne(nodes: Nodes, kept: set<Key>, p: Key, gone: seq<Key>)
    requires p in nodes && p !in gone
    ensures var now := LeftAfter(nodes, kept, gone);
      && p in now && now[p] == nodes[p]
      && LeftAfter(nodes, kept, [p] + gone) == if Stuck(nodes, kept, p) then now else now - {p}
  {
    hide Stuck;
  }

  /** One round of the reverse loop: what the deletion of `walk[i]` meets and leaves. */
  lemma ReverseStep(nodes: Nodes, kept: set<Key>, k: Key, walk: seq<Key>, i: nat)
    requires TreeShaped(nodes) && IsWalk(nodes, k, walk) && i < |walk| && Unwalked(nodes, k, walk) <= kept
    ensures walk[i] in nodes && walk[i] !in Unwalked(nodes, k, walk)
    ensures var p, now := walk[i], LeftAfter(nodes, kept, walk[i + 1..]);
      && p in now && now[p] == nodes[p]
      && (Empty(now, p) && p !in kept <==> !Stuck(nodes, kept, p))
      && (nodes[p] == File ==> Empty(now, p))
      && LeftAfter(nodes, kept, walk[i..]) == if Stuck(nodes, kept, p) then now else now - {p}
  {
    hide Stuck;
    var p, later := walk[i], walk[i + 1..];
    assert p in walk;
    BelowIsLater(nodes, k, walk, i);
    assert walk[i..] == [p] + later;
    LeftAfterOne(nodes, kept, p, later);
    EmptyIffNotStuck(nodes, kept, p, later);
  }

  /** A node with nothing below it is stuck exactly if it is kept itself. */
  lemma RemainsWhenLeaf(nodes: Nodes, kept: set<Key>, k: Key)
    ensures k in nodes && Empty(nodes, k) ==> (Stuck(nodes, kept, k) <==> k in kept)
    ensures k in nodes && Empty(nodes, k) ==> forall p :: p in nodes && k <= p ==> p == k
  {
    if k in nodes && Empty(nodes, k) {
      forall p | p in nodes && k <= p ensures p == k { assert !(k < p); }
    }
  }

  lemma NothingBelowAbsent(nodes: Nodes, k: Key)
    requires TreeShaped(nodes) && k != [] && k !in nodes
    ensures forall p :: p in nodes ==> !(k <= p)
  {
    forall p | p in nodes ensures !(k <= p) {
      if |k| < |p| { assert p[..|k|] in nodes; }
      PrefixSlice(k, p);
    }
  }

  lemma PrefixSlice(k: Key, p: Key)
    ensures k <= p ==> p[..|k|] == k
    ensures k <= p && |k| == |p| ==> k == p
  {
  }

  lemma ProperPrefix(p: Key, q: Key)
    requires p <= q && p != q
    ensures p < q
  {
    PrefixSlice(p, q);
  }
}
