/**
  Finding the dump directories in a store: host directories, below them repository
  directories, in these the marker directories, and in the markers the dumps.
 */
module DumpWalk {
  import opened Base
  import opened Text
  import opened SlashPath
  import opened Digests
  import opened Transfer
  import opened ImageRefs
  import opened Layout
  import opened Vfs
  import opened OciDirs
  import opened OciImage
  import opened Inventory

  /** `rest` leads through unreserved names to a marker and one name more. */
  predicate EndsAtMarker(rest: Key)
  {
    && |rest| >= 2
    && Reserved(rest[|rest| - 2])
    && forall j :: 0 <= j < |rest| - 2 ==> !Reserved(rest[j])
  }

  /** A dump directory somewhere below the repository directory `dir`. */
  predicate RepoDump(files: Files, dirs: set<Key>, dir: Key, p: Key)
  {
    dir < p && KnownDir(files, dirs, p) && EndsAtMarker(p[|dir|..])
  }

  /** Host (not the blob pool), repository names, marker, and the dump's own name. */
  predicate DumpShaped(p: Key)
  {
    |p| > 0 && p[0] != SHARE && EndsAtMarker(p[1..])
  }

  predicate IsDump(files: Files, dirs: set<Key>, p: Key)
  {
    DumpShaped(p) && KnownDir(files, dirs, p)
  }

  // -------------------------------------------------------------------------- the walk

  /** The longest path made so far; no directory is deeper. */
  ghost function MaxLen(ks: set<Key>): (n: nat)
    ensures forall k :: k in ks ==> |k| <= n
  {
    if ks == {} then 0
    else
      var k :| k in ks;
      var m := MaxLen(ks - {k});
      assert forall l :: l in ks ==> l == k || l in ks - {k};
      if |k| > m then |k| else m
  }

  lemma DirDepth(files: Files, dirs: set<Key>, p: Key)
    requires KnownDir(files, dirs, p)
    ensures |p| <= MaxLen(files.Keys + dirs)
  {
    if d :| d in dirs && p <= d { assert d in files.Keys + dirs; }
    if f :| f in files && p < f { assert f in files.Keys + dirs; }
  }

  lemma DirAbove(files: Files, dirs: set<Key>, q: Key, p: Key)
    requires KnownDir(files, dirs, p) && q <= p
    ensures KnownDir(files, dirs, q)
  {
    if d :| d in dirs && p <= d { assert q <= d; }
    if f :| f in files && p < f { assert q < f; }
  }

  /** The listing of `dir` shows the next name on the way to a directory below it. */
  lemma NextName(files: Files, dirs: set<Key>, dir: Key, p: Key)
    requires dir < p && KnownDir(files, dirs, p)
    ensures p[|dir|] in NamesIn(files, dirs, dir)
    ensures dir + [p[|dir|]] <= p
    ensures KnownDir(files, dirs, dir + [p[|dir|]])
  {
    Extends(dir, p[|dir|], p);
    DirAbove(files, dirs, dir + [p[|dir|]], p);
    if d :| d in dirs && p <= d { assert dir < d && d[|dir|] == p[|dir|]; }
    if f :| f in files && p < f { assert dir < f && f[|dir|] == p[|dir|]; }
  }

  /** Below a child of `dir` that is no marker, the dumps are the child's own. */
  lemma DumpsOfChild(files: Files, dirs: set<Key>, dir: Key, n: string, p: Key)
    requires dir < p && p[|dir|] == n && !Reserved(n)
    ensures RepoDump(files, dirs, dir, p) <==> RepoDump(files, dirs, dir + [n], p)
  {
    var child := dir + [n];
    Extends(dir, n, p);
    var rest := p[|dir|..];
    if child < p {
      var below := p[|child|..];
      assert rest == [n] + below;
      if EndsAtMarker(rest) {
        assert |rest| > 2;
        assert below[|below| - 2] == rest[|rest| - 2];
        assert forall j :: 0 <= j < |below| - 2 ==> below[j] == rest[j + 1];
      }
      if EndsAtMarker(below) {
        assert forall j :: 1 <= j < |rest| - 2 ==> rest[j] == below[j - 1];
      }
    }
  }

  /** Below a marker in `dir`, the dumps are the directories directly in it. */
  lemma DumpsOfMarker(files: Files, dirs: set<Key>, dir: Key, n: string, p: Key)
    requires dir < p && p[|dir|] == n && Reserved(n)
    ensures RepoDump(files, dirs, dir, p) <==> KnownDir(files, dirs, p) && |p| == |dir| + 2
  {
    assert p[|dir|..][0] == n;
  }

  /** What one entry of `dir` contributes. */
  predicate DumpVia(files: Files, dirs: set<Key>, dir: Key, n: string, p: Key)
  {
    dir < p && p[|dir|] == n && RepoDump(files, dirs, dir, p)
  }

  method WalkMarker(fs: Fs, markerDir: Key) returns (ok: bool, found: seq<Key>)
    modifies fs`faulty
    ensures (old(fs.faulty) ==> fs.faulty) && (ok ==> fs.faulty == old(fs.faulty))
    ensures !ok ==> fs.faulty || !KnownDir(fs.files, fs.dirs, markerDir)
    ensures ok ==> NoneTwice(found)
    ensures ok ==> forall p :: p in found <==>
      markerDir < p && |p| == |markerDir| + 1 && KnownDir(fs.files, fs.dirs, p)
  {
    found := [];
    var listing := fs.ReadDir(markerDir);
    if !listing.Entries? { return false, []; }
    var leaves := listing.entries;
    var i := 0;
    while i < |leaves|
      invariant 0 <= i <= |leaves|
      invariant NoneTwice(found)
      invariant forall p :: p in found <==>
        exists j :: 0 <= j < i && leaves[j].isDir && p == markerDir + [leaves[j].name]
    {
      if leaves[i].isDir {
        var p := markerDir + [leaves[i].name];
        forall j | 0 <= j < i ensures p != markerDir + [leaves[j].name] {
          assert p[|markerDir|] != leaves[j].name;
        }
        assert p !in found;
        found := found + [p];
      }
      i := i + 1;
    }
    MarkerLeaves(fs.files, fs.dirs, markerDir, leaves, found);
    return true, found;
  }

  lemma MarkerLeaves(files: Files, dirs: set<Key>, markerDir: Key, leaves: seq<Entry>, found: seq<Key>)
    requires Lists(files, dirs, markerDir, leaves)
    requires forall p :: p in found <==>
      exists j :: 0 <= j < |leaves| && leaves[j].isDir && p == markerDir + [leaves[j].name]
    ensures forall p :: p in found <==>
      markerDir < p && |p| == |markerDir| + 1 && KnownDir(files, dirs, p)
  {
    forall p | p in found ensures markerDir < p && |p| == |markerDir| + 1 && KnownDir(files, dirs, p) {
      var j :| 0 <= j < |leaves| && leaves[j].isDir && p == markerDir + [leaves[j].name];
      assert leaves[j] in leaves;
    }
    forall p | markerDir < p && |p| == |markerDir| + 1 && KnownDir(files, dirs, p) ensures p in found {
      NextName(files, dirs, markerDir, p);
      var n := p[|markerDir|];
      assert p == markerDir + [n];
      var e :| e in leaves && e.name == n;
      var j :| 0 <= j < |leaves| && leaves[j] == e;
    }
  }

  /** Walks a repository directory; on success appends each dump below it exactly once. */
  method WalkRepoTree(fs: Fs, dir: Key) returns (ok: bool, found: seq<Key>)
    requires KnownDir(fs.files, fs.dirs, dir)
    modifies fs`faulty
    ensures (old(fs.faulty) ==> fs.faulty) && (ok ==> fs.faulty == old(fs.faulty))
    ensures !ok ==> fs.faulty
    ensures ok ==> NoneTwice(found)
    ensures ok ==> forall p :: p in found <==> RepoDump(fs.files, fs.dirs, dir, p)
    decreases MaxLen(fs.files.Keys + fs.dirs) - |dir|
  {
    found := [];
    var listing := fs.ReadDir(dir);
    if !listing.Entries? { return false, []; }
    var entries := listing.entries;
    var i := 0;
    while i < |entries|
      invariant 0 <= i <= |entries| && fs.faulty == old(fs.faulty)
      invariant NoneTwice(found)
      invariant forall p :: p in found <==>
        exists j :: 0 <= j < i && DumpVia(fs.files, fs.dirs, dir, entries[j].name, p)
    {
      var e := entries[i];
      var more := [];
      assert e in entries;
      if e.isDir {
        DirDepth(fs.files, fs.dirs, dir + [e.name]);
        if Reserved(e.name) {
          ok, more := WalkMarker(fs, dir + [e.name]);
        } else {
          ok, more := WalkRepoTree(fs, dir + [e.name]);
        }
        if !ok { return false, []; }
      }
      EntryDumps(fs.files, fs.dirs, dir, e, more);
      AppendDumps(fs.files, fs.dirs, dir, entries, i, found, more);
      found := found + more;
      i := i + 1;
    }
    AllEntries(fs.files, fs.dirs, dir, entries);
    return true, found;
  }

  /** What was found below one entry is what this entry contributes. */
  lemma EntryDumps(files: Files, dirs: set<Key>, dir: Key, e: Entry, more: seq<Key>)
    requires e.isDir == KnownDir(files, dirs, dir + [e.name])
    requires !e.isDir ==> more == []
    requires e.isDir && Reserved(e.name) ==> forall p :: p in more <==>
      dir + [e.name] < p && |p| == |dir| + 2 && KnownDir(files, dirs, p)
    requires e.isDir && !Reserved(e.name) ==> forall p :: p in more <==> RepoDump(files, dirs, dir + [e.name], p)
    ensures forall p :: p in more <==> DumpVia(files, dirs, dir, e.name, p)
  {
    var n, child := e.name, dir + [e.name];
    forall p ensures p in more <==> DumpVia(files, dirs, dir, n, p) {
      if child <= p { assert dir < p && p[|dir|] == n; }
      if dir < p && p[|dir|] == n {
        Extends(dir, n, p);
        if Reserved(n) { DumpsOfMarker(files, dirs, dir, n, p); } else { DumpsOfChild(files, dirs, dir, n, p); }
        if KnownDir(files, dirs, p) { NextName(files, dirs, dir, p); }
      }
    }
  }

  lemma AppendDumps(files: Files, dirs: set<Key>, dir: Key, entries: seq<Entry>, i: nat, found: seq<Key>, more: seq<Key>)
    requires i < |entries|
    requires forall a, b :: 0 <= a < b < |entries| ==> entries[a].name != entries[b].name
    requires NoneTwice(found) && NoneTwice(more)
    requires forall p :: p in found <==> exists j :: 0 <= j < i && DumpVia(files, dirs, dir, entries[j].name, p)
    requires forall p :: p in more <==> DumpVia(files, dirs, dir, entries[i].name, p)
    ensures NoneTwice(found + more)
    ensures forall p :: p in found + more <==>
      exists j :: 0 <= j < i + 1 && DumpVia(files, dirs, dir, entries[j].name, p)
  {
    forall p | p in found ensures p !in more {
      var j :| 0 <= j < i && DumpVia(files, dirs, dir, entries[j].name, p);
      assert entries[j].name != entries[i].name;
    }
    NoneTwiceConcat(found, more);
    forall p | p in more ensures exists j :: 0 <= j < i + 1 && DumpVia(files, dirs, dir, entries[j].name, p) {
      assert DumpVia(files, dirs, dir, entries[i].name, p);
    }
  }

  lemma NoneTwiceConcat<T>(xs: seq<T>, ys: seq<T>)
    requires NoneTwice(xs) && NoneTwice(ys) && forall x :: x in xs ==> x !in ys
    ensures NoneTwice(xs + ys)
  {
    var zs := xs + ys;
    forall a, b | 0 <= a < b < |zs| ensures zs[a] != zs[b] {
      if a < |xs| && b >= |xs| { assert zs[a] in xs && zs[b] in ys; }
    }
  }

  /** The entries of a listing together contribute every dump. */
  lemma AllEntries(files: Files, dirs: set<Key>, dir: Key, entries: seq<Entry>)
    requires Lists(files, dirs, dir, entries)
    ensures forall p :: RepoDump(files, dirs, dir, p) <==>
      exists j :: 0 <= j < |entries| && DumpVia(files, dirs, dir, entries[j].name, p)
  {
    forall p | RepoDump(files, dirs, dir, p)
      ensures exists j :: 0 <= j < |entries| && DumpVia(files, dirs, dir, entries[j].name, p)
    {
      NextName(files, dirs, dir, p);
      var e :| e in entries && e.name == p[|dir|];
      var j :| 0 <= j < |entries| && entries[j] == e;
      assert DumpVia(files, dirs, dir, entries[j].name, p);
    }
  }

  /** What one host directory contributes: nothing for the blob pool. */
  predicate DumpOfHost(files: Files, dirs: set<Key>, host: string, p: Key)
  {
    host != SHARE && |p| > 0 && p[0] == host && RepoDump(files, dirs, [host], p)
  }

  lemma HostDumps(files: Files, dirs: set<Key>, p: Key)
    requires |p| > 0
    ensures IsDump(files, dirs, p) <==> DumpOfHost(files, dirs, p[0], p)
  {
    if |p| > 1 { assert [p[0]] < p; }
  }

  /** Walks the whole store; on success returns every dump directory exactly once. */
  method WalkDumpDirs(fs: Fs) returns (ok: bool, dumps: seq<Key>)
    modifies fs`faulty
    ensures (old(fs.faulty) ==> fs.faulty) && (ok ==> fs.faulty == old(fs.faulty))
    ensures !ok ==> fs.faulty
    ensures ok ==> NoneTwice(dumps)
    ensures ok ==> forall p :: p in dumps <==> IsDump(fs.files, fs.dirs, p)
  {
    dumps := [];
    var listing := fs.ReadDir([]);
    if !listing.Entries? { return false, []; }
    var hosts := listing.entries;
    var i := 0;
    while i < |hosts|
      invariant 0 <= i <= |hosts| && fs.faulty == old(fs.faulty)
      invariant NoneTwice(dumps)
      invariant forall p :: p in dumps <==>
        exists j :: 0 <= j < i && DumpOfHost(fs.files, fs.dirs, hosts[j].name, p)
    {
      var h := hosts[i];
      assert h in hosts;
      assert [] + [h.name] == [h.name];
      var more := [];
      if h.isDir && h.name != SHARE {
        ok, more := WalkRepoTree(fs, [h.name]);
        if !ok { return false, []; }
      }
      OneHost(fs.files, fs.dirs, h, more);
      AppendHost(fs.files, fs.dirs, hosts, i, dumps, more);
      dumps := dumps + more;
      i := i + 1;
    }
    AllHosts(fs.files, fs.dirs, hosts);
    return true, dumps;
  }

  lemma OneHost(files: Files, dirs: set<Key>, h: Entry, more: seq<Key>)
    requires h.isDir == KnownDir(files, dirs, [h.name])
    requires if h.isDir && h.name != SHARE then forall p :: p in more <==> RepoDump(files, dirs, [h.name], p)
             else more == []
    ensures forall p :: p in more <==> DumpOfHost(files, dirs, h.name, p)
  {
    forall p | DumpOfHost(files, dirs, h.name, p) ensures h.isDir {
      DirAbove(files, dirs, [h.name], p);
    }
    forall p | RepoDump(files, dirs, [h.name], p) ensures p[0] == h.name {
    }
  }

  lemma AppendHost(files: Files, dirs: set<Key>, hosts: seq<Entry>, i: nat, dumps: seq<Key>, more: seq<Key>)
    requires i < |hosts|
    requires forall a, b :: 0 <= a < b < |hosts| ==> hosts[a].name != hosts[b].name
    requires NoneTwice(dumps) && NoneTwice(more)
    requires forall p :: p in dumps <==> exists j :: 0 <= j < i && DumpOfHost(files, dirs, hosts[j].name, p)
    requires forall p :: p in more <==> DumpOfHost(files, dirs, hosts[i].name, p)
    ensures NoneTwice(dumps + more)
    ensures forall p :: p in dumps + more <==>
      exists j :: 0 <= j < i + 1 && DumpOfHost(files, dirs, hosts[j].name, p)
  {
    forall p | p in dumps ensures p !in more {
      var j :| 0 <= j < i && DumpOfHost(files, dirs, hosts[j].name, p);
      assert hosts[j].name != hosts[i].name;
    }
    NoneTwiceConcat(dumps, more);
    forall p | p in more ensures exists j :: 0 <= j < i + 1 && DumpOfHost(files, dirs, hosts[j].name, p) {
      assert DumpOfHost(files, dirs, hosts[i].name, p);
    }
  }

  lemma AllHosts(files: Files, dirs: set<Key>, hosts: seq<Entry>)
    requires Lists(files, dirs, [], hosts)
    ensures forall p :: IsDump(files, dirs, p) <==>
      exists j :: 0 <= j < |hosts| && DumpOfHost(files, dirs, hosts[j].name, p)
  {
    forall p ensures IsDump(files, dirs, p) <==>
      exists j :: 0 <= j < |hosts| && DumpOfHost(files, dirs, hosts[j].name, p)
    {
      if |p| > 0 {
        HostDumps(files, dirs, p);
        if IsDump(files, dirs, p) {
          assert [] < p;
          NextName(files, dirs, [], p);
          var e :| e in hosts && e.name == p[0];
          var j :| 0 <= j < |hosts| && hosts[j] == e;
          assert DumpOfHost(files, dirs, hosts[j].name, p);
        }
      }
    }
  }

  // ------------------------------------------------------------------------ the images

  /** The path text of a dump directory. */
  function DumpPath(p: Key): string
  {
    Join(p, SLASH)
  }

  /** Joining a directory's path and a name is the path of the name in the directory. */
  lemma ChildPath(p: Key, n: string)
    requires p != [] && AllPlain(p) && Plain(n)
    ensures JoinPath([DumpPath(p), n]) == DumpPath(p + [n])
    ensures KeyOf(DumpPath(p)) == Some(p)
  {
    assert AllPlain(p + [n]);
    CleanPlain(p);
    CleanPlain(p + [n]);
    JoinHead(p);
    assert [DumpPath(p), n][1..] == [n];
    JoinConcat(p, [n], SLASH);
  }

  datatype Found = Image(ref: ImageRef) | Unparsable(path: string)

  function FoundAt(p: Key): Found
  {
    match ParseDumpDirRel(DumpPath(p))
    case Ok(ref) => Image(ref)
    case Err(_) => Unparsable(DumpPath(p))
  }

  /** Yields the image of every dump directory; a path that does not parse is skipped over. */
  method ListImages(fs: Fs, ctx: Context) returns (ok: bool, yielded: seq<Found>, ghost dumps: seq<Key>)
    modifies ctx, fs`faulty
    ensures old(ctx.done) ==> ctx.done
    ensures (old(fs.faulty) ==> fs.faulty) && (ok ==> fs.faulty == old(fs.faulty))
    ensures !ok ==> fs.faulty || ctx.done
    ensures ok ==> NoneTwice(dumps) && forall p :: p in dumps <==> IsDump(fs.files, fs.dirs, p)
    ensures ok ==> |yielded| == |dumps| && forall i :: 0 <= i < |dumps| ==> yielded[i] == FoundAt(dumps[i])
    ensures ok ==> forall y :: y in yielded <==> exists p :: IsDump(fs.files, fs.dirs, p) && y == FoundAt(p)
  {
    hide IsDump, FoundAt;
    yielded := [];
    var keys;
    ok, keys := WalkDumpDirs(fs);
    dumps := keys;
    if !ok { return; }
    var i := 0;
    while i < |keys|
      invariant 0 <= i <= |keys| && |yielded| == i && (old(ctx.done) ==> ctx.done)
      invariant fs.faulty == old(fs.faulty)
      invariant forall j :: 0 <= j < i ==> yielded[j] == FoundAt(keys[j])
    {
      var cancelled := ctx.Poll();
      if cancelled { return false, yielded, dumps; }
      yielded := yielded + [FoundAt(keys[i])];
      i := i + 1;
    }
    FoundExactly(fs.files, fs.dirs, keys, yielded);
  }

  lemma FoundExactly(files: Files, dirs: set<Key>, dumps: seq<Key>, yielded: seq<Found>)
    requires forall p :: p in dumps <==> IsDump(files, dirs, p)
    requires |yielded| == |dumps| && forall i :: 0 <= i < |dumps| ==> yielded[i] == FoundAt(dumps[i])
    ensures forall y :: y in yielded <==> exists p :: IsDump(files, dirs, p) && y == FoundAt(p)
  {
    hide IsDump, FoundAt;
    forall y | y in yielded ensures exists p :: IsDump(files, dirs, p) && y == FoundAt(p) {
      var i :| 0 <= i < |yielded| && yielded[i] == y;
      assert dumps[i] in dumps;
    }
    forall p | IsDump(files, dirs, p) ensures FoundAt(p) in yielded {
      var i :| 0 <= i < |dumps| && dumps[i] == p;
      assert yielded[i] == FoundAt(p);
    }
  }

  ghost predicate StorableRefs(refs: set<ImageRef>)
  {
    forall r :: r in refs ==> Canonical(r) && DotFree(r)
  }

  /** The dump directories of the store are those of the given references. */
  ghost predicate HoldsDumpsOf(files: Files, dirs: set<Key>, refs: set<ImageRef>)
  {
    forall p :: IsDump(files, dirs, p) <==> exists r :: r in refs && p == DumpNames(r)
  }

  lemma FoundAtDump(r: ImageRef)
    requires Canonical(r) && DotFree(r)
    ensures FoundAt(DumpNames(r)) == Image(WithOriginal(r))
  {
    RelDumpDirIsNames(r);
    DumpDirRoundTrip(r);
  }

  lemma SameDumpNames(r: ImageRef, q: ImageRef)
    ensures WithOriginal(r) == WithOriginal(q) ==> DumpNames(r) == DumpNames(q)
  {
    if WithOriginal(r) == WithOriginal(q) {
      assert r.(original := "") == q.(original := "");
    }
  }

  /**
    If the dump directories of a store are those of some references, listing its images
    yields exactly these references (with the printed form as their text), each once.
   */
  lemma EnumerationRecovers(files: Files, dirs: set<Key>, refs: set<ImageRef>, yielded: seq<Found>, dumps: seq<Key>)
    requires StorableRefs(refs) && HoldsDumpsOf(files, dirs, refs)
    requires NoneTwice(dumps) && forall p :: p in dumps <==> IsDump(files, dirs, p)
    requires |yielded| == |dumps| && forall i :: 0 <= i < |dumps| ==> yielded[i] == FoundAt(dumps[i])
    ensures NoneTwice(yielded)
    ensures forall y :: y in yielded <==> exists r :: r in refs && y == Image(WithOriginal(r))
  {
    forall i | 0 <= i < |dumps|
      ensures exists r :: r in refs && dumps[i] == DumpNames(r) && yielded[i] == Image(WithOriginal(r))
    {
      assert dumps[i] in dumps;
      var r :| r in refs && dumps[i] == DumpNames(r);
      FoundAtDump(r);
    }
    forall r | r in refs ensures Image(WithOriginal(r)) in yielded {
      assert IsDump(files, dirs, DumpNames(r));
      var i :| 0 <= i < |dumps| && dumps[i] == DumpNames(r);
      FoundAtDump(r);
      assert yielded[i] == Image(WithOriginal(r));
    }
    forall i, j | 0 <= i < j < |yielded| ensures yielded[i] != yielded[j] {
      var r :| r in refs && dumps[i] == DumpNames(r) && yielded[i] == Image(WithOriginal(r));
      var q :| q in refs && dumps[j] == DumpNames(q) && yielded[j] == Image(WithOriginal(q));
      SameDumpNames(r, q);
    }
  }

  /** A prefix of a dump's path that looks like a dump is the whole path. */
  lemma DumpShapedPrefix(r: ImageRef, p: Key)
    requires Canonical(r) && DumpShaped(p) && p <= DumpNames(r)
    ensures p == DumpNames(r)
  {
    DumpNamesMarker(r);
    var es, n := DumpNames(r), |Split(r.path, SLASH)|;
    assert p == es[..|p|];
    assert p[1..][|p[1..]| - 2] == p[|p| - 2] == es[|p| - 2];
    assert Reserved(es[|p| - 2]);
    assert |p| - 2 >= n + 1;
    assert |p| == |es|;
  }

  lemma DumpNamesShaped(r: ImageRef)
    requires Canonical(r)
    ensures DumpShaped(DumpNames(r))
  {
    DumpNamesMarker(r);
    HostNotReserved(r.host);
    var es, n := DumpNames(r), |Split(r.path, SLASH)|;
    var rest := es[1..];
    assert |rest| == n + 2;
    assert rest[|rest| - 2] == es[n + 1];
    forall j | 0 <= j < |rest| - 2 ensures !Reserved(rest[j]) { assert rest[j] == es[j + 1]; }
  }

  /**
    A store made by creating the dump directories of some references, with files in them
    and anything at all in the blob pool, holds exactly the dumps of these references.
   */
  lemma CreatedDumps(files: Files, dirs: set<Key>, refs: set<ImageRef>)
    requires StorableRefs(refs)
    requires forall r :: r in refs ==> DumpNames(r) in dirs
    requires forall d :: d in dirs ==> [SHARE] <= d || exists r :: r in refs && d == DumpNames(r)
    requires forall f :: f in files ==> [SHARE] <= f || exists r :: r in refs && |f| > 0 && f[..|f| - 1] == DumpNames(r)
    ensures HoldsDumpsOf(files, dirs, refs)
  {
    hide DumpNames, EndsAtMarker, Canonical, DotFree;
    forall r | r in refs ensures IsDump(files, dirs, DumpNames(r)) {
      DumpNamesShaped(r);
    }
    forall p | IsDump(files, dirs, p) ensures exists r :: r in refs && p == DumpNames(r) {
      if f :| f in files && p < f {
        var r :| r in refs && f[..|f| - 1] == DumpNames(r);
        assert p <= f[..|f| - 1];
        DumpShapedPrefix(r, p);
      } else {
        var d :| d in dirs && p <= d;
        var r :| r in refs && d == DumpNames(r);
        DumpShapedPrefix(r, p);
      }
    }
  }

  // -------------------------------------------------------------- the digest inventory

  /** The closures of all dumps that can be read and whose reading did not fail. */
  ghost predicate InSomeClosure(codec: Codec, files: Files, dirs: set<Key>, unread: set<Key>, d: Digest)
  {
    exists p :: IsDump(files, dirs, p) && p !in unread && d in Closure(codec, files, DumpPath(p))
  }

  /**
    Dumps that cannot be read are skipped, also those whose reading failed just now
    (`unread`); the rest and the pool make up the inventory.
   */
  method EnumerateOci(fs: Fs, ctx: Context, codec: Codec) returns (ok: bool, out: set<Digest>, ghost unread: set<Key>)
    modifies ctx, fs`faulty
    ensures old(ctx.done) ==> ctx.done
    ensures (old(fs.faulty) ==> fs.faulty) && (!ok ==> fs.faulty || ctx.done)
    ensures ok ==> fs.faulty == (old(fs.faulty) || unread != {})
    ensures ok ==> forall d :: d in out <==>
      InSomeClosure(codec, fs.files, fs.dirs, unread, d) || d in BlobInventory(fs.files, fs.dirs)
  {
    hide Closure, BlobInventory, IsDump, DumpPath, InSomeClosure, DigestSet, ReadManifest;
    out, unread := {}, {};
    var dumps;
    ok, dumps := WalkDumpDirs(fs);
    if !ok { return; }
    var i := 0;
    while i < |dumps|
      invariant 0 <= i <= |dumps| && (old(ctx.done) ==> ctx.done)
      invariant fs.faulty == (old(fs.faulty) || unread != {})
      invariant forall p :: p in unread ==> p in dumps[..i]
      invariant forall d :: d in out <==>
        exists j :: 0 <= j < i && dumps[j] !in unread && d in Closure(codec, fs.files, DumpPath(dumps[j]))
    {
      var cancelled := ctx.Poll();
      if cancelled { return false, {}, unread; }
      var read := LoadManifest(codec, fs, DumpPath(dumps[i]));
      NewDump(dumps, i, unread);
      ClosureOfRead(codec, fs.files, DumpPath(dumps[i]));
      if read.Ok? {
        out := out + DigestSet(AllDescriptors(read.value.0, read.value.1));
      } else if read == Err(ReadFailed) {
        NeverReadFailed(codec, fs.files, DumpPath(dumps[i]));
        unread := unread + {dumps[i]};
      }
      assert dumps[..i + 1] == dumps[..i] + [dumps[i]];
      i := i + 1;
    }
    var closures := out;
    ClosuresCollected(codec, fs.files, fs.dirs, unread, dumps, closures);
    ok, out := UnionShareInventory(fs, closures);
  }

  lemma NeverReadFailed(codec: Codec, files: Files, dir: string)
    ensures ReadManifest(codec, files, dir) != Err(ReadFailed)
  {
    hide DumpFile;
  }

  lemma NewDump(dumps: seq<Key>, i: nat, unread: set<Key>)
    requires NoneTwice(dumps) && i < |dumps| && forall p :: p in unread ==> p in dumps[..i]
    ensures dumps[i] !in unread
  {
  }

  lemma ClosureOfRead(codec: Codec, files: Files, dir: string)
    ensures Closure(codec, files, dir) == match ReadManifest(codec, files, dir)
      case Err(_) => {}
      case Ok((mDesc, man)) => DigestSet(AllDescriptors(mDesc, man))
  {
  }

  lemma ClosuresCollected(codec: Codec, files: Files, dirs: set<Key>, unread: set<Key>, dumps: seq<Key>, closures: set<Digest>)
    requires forall p :: p in dumps <==> IsDump(files, dirs, p)
    requires forall d :: d in closures <==>
      exists j :: 0 <= j < |dumps| && dumps[j] !in unread && d in Closure(codec, files, DumpPath(dumps[j]))
    ensures forall d :: d in closures <==> InSomeClosure(codec, files, dirs, unread, d)
  {
    hide Closure, IsDump, DumpPath;
    forall d ensures d in closures <==> InSomeClosure(codec, files, dirs, unread, d) {
      if d in closures {
        var j :| 0 <= j < |dumps| && dumps[j] !in unread && d in Closure(codec, files, DumpPath(dumps[j]));
        assert dumps[j] in dumps;
      }
      if InSomeClosure(codec, files, dirs, unread, d) {
        var p :| IsDump(files, dirs, p) && p !in unread && d in Closure(codec, files, DumpPath(p));
        var j :| 0 <= j < |dumps| && dumps[j] == p;
      }
    }
  }

  /** Adds every sha256 blob of the pool; a missing pool adds nothing. */
  method UnionShareInventory(fs: Fs, before: set<Digest>) returns (ok: bool, out: set<Digest>)
    modifies fs`faulty
    ensures fs.faulty == (old(fs.faulty) || !ok)
    ensures ok ==> out == before + BlobInventory(fs.files, fs.dirs)
  {
    out := before;
    var listing := fs.ReadDir(POOL);
    if listing.NoSuchDir? {
      NothingInside(fs.files, fs.dirs, POOL);
      return true, before;
    }
    if listing.ListError? { return false, before; }
    var entries := listing.entries;
    ghost var added: seq<Digest> := [];
    var i := 0;
    while i < |entries|
      invariant 0 <= i <= |entries|
      invariant forall d :: d in out <==> d in before || d in added
      invariant forall d :: d in added <==>
        exists j :: 0 <= j < i && !entries[j].isDir && |entries[j].name| == 64 && d == Sha256Digest(entries[j].name)
    {
      var e := entries[i];
      if !e.isDir && |e.name| == 64 {
        out := out + {Sha256Digest(e.name)};
        added := added + [Sha256Digest(e.name)];
      }
      i := i + 1;
    }
    YieldsInventory(fs.files, fs.dirs, entries, added);
    return true, out;
  }

  /**
    The two inventories agree exactly if every dump that was read has its whole closure in
    the pool listing.  A dump whose manifest arrived before its layers makes them differ:
    the digest inventory then claims blobs that are not there.
   */
  lemma InventoriesAgreeIff(codec: Codec, files: Files, dirs: set<Key>, unread: set<Key>, out: set<Digest>)
    requires forall d :: d in out <==>
      InSomeClosure(codec, files, dirs, unread, d) || d in BlobInventory(files, dirs)
    ensures out == BlobInventory(files, dirs) <==>
      forall p :: IsDump(files, dirs, p) && p !in unread ==>
        Closure(codec, files, DumpPath(p)) <= BlobInventory(files, dirs)
  {
    if out == BlobInventory(files, dirs) {
      forall p | IsDump(files, dirs, p) && p !in unread
        ensures Closure(codec, files, DumpPath(p)) <= BlobInventory(files, dirs)
      {
        forall d | d in Closure(codec, files, DumpPath(p)) ensures d in out {
          assert InSomeClosure(codec, files, dirs, unread, d);
        }
      }
    }
  }

  // ------------------------------------------------------------------------ spelled out

  /**
    What a dump directory is: a directory whose name before the last is "_tags" or
    "_digests", none of the names between the first and that one being either, and whose
    first name is not "share".
   */
  lemma DumpSpelled(files: Files, dirs: set<Key>, p: Key)
    ensures IsDump(files, dirs, p) <==>
      && KnownDir(files, dirs, p)
      && |p| >= 3 && p[0] != "share"
      && (p[|p| - 2] == "_tags" || p[|p| - 2] == "_digests")
      && forall j :: 1 <= j < |p| - 2 ==> p[j] != "_tags" && p[j] != "_digests"
  {
    hide KnownDir;
    if |p| >= 3 {
      assert p[1..][|p| - 3] == p[|p| - 2];
      assert forall j :: 1 <= j < |p| - 2 ==> p[1..][j - 1] == p[j];
    }
  }
}
