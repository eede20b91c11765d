/**
  A mutable file system rooted at the base directory.  Every operation may fail, and a
  failed mutation may have taken effect all the same.
 */
module Vfs {
  import opened Base
  import opened Transfer
  import opened SlashPath

  datatype StatResult = Size(size: nat) | NotExist | IoError

  datatype Entry = Entry(name: string, isDir: bool)

  datatype Listing = Entries(entries: seq<Entry>) | NoSuchDir | ListError

  /** `k` is a directory: made as one, or on the way to something made. */
  predicate KnownDir(files: Files, dirs: set<Key>, k: Key)
  {
    k == [] || (exists d :: d in dirs && k <= d) || (exists f :: f in files && k < f)
  }

  /** The names directly inside `k`. */
  function NamesIn(files: Files, dirs: set<Key>, k: Key): set<string>
  {
    (set f | f in files && k < f :: f[|k|]) + (set d | d in dirs && k < d :: d[|k|])
  }

  predicate NoneTwice<T(==)>(xs: seq<T>)
  {
    forall i, j :: 0 <= i < j < |xs| ==> xs[i] != xs[j]
  }

  /** A listing of `k`: each name inside once, directories marked. */
  ghost predicate Lists(files: Files, dirs: set<Key>, k: Key, entries: seq<Entry>)
  {
    && (forall i, j :: 0 <= i < j < |entries| ==> entries[i].name != entries[j].name)
    && (forall e :: e in entries ==>
         e.name in NamesIn(files, dirs, k) && e.isDir == KnownDir(files, dirs, k + [e.name]))
    && (forall n :: n in NamesIn(files, dirs, k) ==> exists e :: e in entries && e.name == n)
  }

  /** `faulty` remembers whether any operation failed so far that had no reason to. */
  class Fs {
    var files: Files
    var dirs: set<Key>
    ghost var faulty: bool

    constructor (files: Files, dirs: set<Key>)
      ensures this.files == files && this.dirs == dirs && !faulty
    {
      this.files, this.dirs := files, dirs;
      faulty := false;
    }

    /** An operation may fail at any time. */
    method Falters() returns (fails: bool)
      modifies `faulty
      ensures faulty == (old(faulty) || fails)
    {
      fails := *;
      faulty := faulty || fails;
    }

    method Stat(k: Key) returns (r: StatResult)
      modifies `faulty
      ensures faulty == (old(faulty) || r.IoError?)
      ensures r.Size? ==> k in files && r.size == |files[k]|
      ensures r.NotExist? ==> k !in files
    {
      var fails := Falters();
      if fails { return IoError; }
      if k in files { return Size(|files[k]|); }
      return NotExist;
    }

    method MkdirAll(k: Key) returns (ok: bool)
      modifies `dirs, `faulty
      ensures faulty == (old(faulty) || !ok)
      ensures dirs == old(dirs) + {k} || (!ok && dirs == old(dirs))
    {
      ok := Falters();
      ok := !ok;
      var landed: bool := *;
      if ok || landed { dirs := dirs + {k}; }
    }

    method Remove(k: Key) returns (ok: bool, ghost landed: bool)
      modifies `files, `faulty
      ensures faulty == (old(faulty) || !ok)
      ensures ok ==> landed
      ensures files == if landed then old(files) - {k} else old(files)
    {
      var l: bool := *;
      ok := Falters();
      ok := !ok;
      landed := ok || l;
      if ok || l { files := files - {k}; }
    }

    /** Opens for writing, creating the file if missing and never truncating it. */
    method OpenCreate(k: Key) returns (ok: bool, ghost landed: bool)
      modifies `files, `faulty
      ensures faulty == (old(faulty) || !ok)
      ensures ok ==> landed
      ensures files == if landed then old(files)[k := OrEmpty(Lookup(old(files), k))] else old(files)
    {
      var l: bool := *;
      ok := Falters();
      ok := !ok;
      landed := ok || l;
      if ok || l { files := files[k := OrEmpty(Lookup(files, k))]; }
    }

    /** Writes at an offset of an open file; a failed write may have written a part. */
    method Write(k: Key, at: nat, chunk: Bytes) returns (ok: bool, ghost written: nat)
      requires chunk != []
      modifies `files, `faulty
      ensures faulty == (old(faulty) || !ok)
      ensures written <= |chunk| && (ok ==> written == |chunk|)
      ensures files == if written > 0 then old(files)[k := WriteAt(OrEmpty(Lookup(old(files), k)), at, chunk[..written])]
                       else old(files)
    {
      ok := Falters();
      ok := !ok;
      var n: nat := *;
      if ok || n > |chunk| { n := |chunk|; }
      written := n;
      if n > 0 {
        files := files[k := WriteAt(OrEmpty(Lookup(files, k)), at, chunk[..n])];
      }
    }

    /** Atomic rename; fails without effect if there is nothing to rename. */
    method Rename(from: Key, to: Key) returns (ok: bool, ghost landed: bool)
      requires from != to
      modifies `files, `faulty
      ensures old(faulty) ==> faulty
      ensures ok ==> faulty == old(faulty)
      ensures !ok ==> faulty || from !in old(files)
      ensures ok ==> landed
      ensures landed ==> from in old(files)
      ensures files == if landed then (old(files) - {from})[to := old(files)[from]] else old(files)
    {
      var l: bool := *;
      ok := Falters();
      ok := !ok;
      ok, l := ok && from in files, l && from in files;
      landed := ok || l;
      if ok || l { files := (files - {from})[to := files[from]]; }
    }

    /** A whole file written aside and renamed into place. */
    method SafeWrite(k: Key, content: Bytes) returns (ok: bool)
      modifies `files, `faulty
      ensures faulty == (old(faulty) || !ok)
      ensures files == old(files)[k := content] || (!ok && files == old(files))
    {
      ok := Falters();
      ok := !ok;
      var landed: bool := *;
      if ok || landed { files := files[k := content]; }
    }

    /** The entries of a directory, in no particular order. */
    method ReadDir(k: Key) returns (r: Listing)
      modifies `faulty
      ensures faulty == (old(faulty) || r.ListError?)
      ensures r.Entries? ==> KnownDir(files, dirs, k) && Lists(files, dirs, k, r.entries)
      ensures r.NoSuchDir? ==> !KnownDir(files, dirs, k)
    {
      var fails := Falters();
      if fails { return ListError; }
      if !KnownDir(files, dirs, k) { return NoSuchDir; }
      var left := NamesIn(files, dirs, k);
      var entries: seq<Entry> := [];
      while left != {}
        invariant left <= NamesIn(files, dirs, k)
        invariant forall i, j :: 0 <= i < j < |entries| ==> entries[i].name != entries[j].name
        invariant forall e :: e in entries ==> e.name !in left && e.name in NamesIn(files, dirs, k)
        invariant forall e :: e in entries ==> e.isDir == KnownDir(files, dirs, k + [e.name])
        invariant forall n :: n in NamesIn(files, dirs, k) && n !in left ==> exists e :: e in entries && e.name == n
        decreases left
      {
        var n :| n in left;
        var e := Entry(n, KnownDir(files, dirs, k + [n]));
        ghost var before := entries;
        entries := entries + [e];
        left := left - {n};
        assert e in entries && e.name == n;
        forall m | m in NamesIn(files, dirs, k) && m !in left && m != n
          ensures exists f :: f in entries && f.name == m
        {
          var f :| f in before && f.name == m;
          assert f in entries;
        }
      }
      return Entries(entries);
    }
  }
}
