/** What a store holds: its blobs, its images, and the digests both amount to. */
module Inventory {
  import opened Base
  import opened Text
  import opened SlashPath
  import opened Digests
  import opened Transfer
  import opened Workers
  import opened ImageRefs
  import opened Layout
  import opened Vfs
  import opened OciDirs
  import opened OciImage

  // ----------------------------------------------------------------------------- blobs

  const POOL: Key := [SHARE, SHA256]

  function Sha256Digest(name: string): Digest
  {
    SHA256 + ":" + name
  }

  /** The file names of sha256 blobs: right length, not a directory. */
  function BlobNames(files: Files, dirs: set<Key>): set<string>
  {
    set n | n in NamesIn(files, dirs, POOL) && |n| == 64 && !KnownDir(files, dirs, POOL + [n])
  }

  function BlobInventory(files: Files, dirs: set<Key>): set<Digest>
  {
    set n | n in BlobNames(files, dirs) :: Sha256Digest(n)
  }

  /** Walks the pool directory and yields the digest of every blob in it, each once. */
  method ListBlobs(fs: Fs, ctx: Context) returns (ok: bool, yielded: seq<Digest>)
    modifies ctx, fs`faulty
    ensures old(ctx.done) ==> ctx.done
    ensures (old(fs.faulty) ==> fs.faulty) && (ok ==> fs.faulty == old(fs.faulty))
    ensures !ok ==> fs.faulty || ctx.done
    ensures ok ==> NoneTwice(yielded)
    ensures ok ==> forall d :: d in yielded <==> d in BlobInventory(fs.files, fs.dirs)
  {
    yielded := [];
    var listing := fs.ReadDir(POOL);
    if listing.NoSuchDir? {
      NothingInside(fs.files, fs.dirs, POOL);
      return true, [];
    }
    if listing.ListError? { return false, []; }
    var entries := listing.entries;
    var i := 0;
    while i < |entries|
      invariant 0 <= i <= |entries|
      invariant NoneTwice(yielded) && (old(ctx.done) ==> ctx.done)
      invariant fs.faulty == old(fs.faulty)
      invariant forall d :: d in yielded <==>
        exists j :: 0 <= j < i && !entries[j].isDir && |entries[j].name| == 64 && d == Sha256Digest(entries[j].name)
    {
      var cancelled := ctx.Poll();
      if cancelled { return false, yielded; }
      var e := entries[i];
      if !e.isDir && |e.name| == 64 {
        var d := Sha256Digest(e.name);
        forall j | 0 <= j < i ensures d != Sha256Digest(entries[j].name) {
          if d == Sha256Digest(entries[j].name) { DigestName(entries[j].name, e.name); }
        }
        assert d !in yielded;
        yielded := yielded + [d];
      }
      i := i + 1;
    }
    YieldsInventory(fs.files, fs.dirs, entries, yielded);
    return true, yielded;
  }

  lemma DigestName(m: string, n: string)
    requires Sha256Digest(m) == Sha256Digest(n)
    ensures m == n
  {
    assert Sha256Digest(m)[7..] == m && Sha256Digest(n)[7..] == n;
  }

  lemma YieldsInventory(files: Files, dirs: set<Key>, entries: seq<Entry>, yielded: seq<Digest>)
    requires Lists(files, dirs, POOL, entries)
    requires forall d :: d in yielded <==>
      exists j :: 0 <= j < |entries| && !entries[j].isDir && |entries[j].name| == 64 && d == Sha256Digest(entries[j].name)
    ensures forall d :: d in yielded <==> d in BlobInventory(files, dirs)
  {
    forall d | d in yielded ensures d in BlobInventory(files, dirs) {
      var j :| 0 <= j < |entries| && !entries[j].isDir && |entries[j].name| == 64 && d == Sha256Digest(entries[j].name);
      assert entries[j] in entries;
      assert entries[j].name in BlobNames(files, dirs);
    }
    forall d | d in BlobInventory(files, dirs) ensures d in yielded {
      var n :| n in BlobNames(files, dirs) && d == Sha256Digest(n);
      var e :| e in entries && e.name == n;
      var j :| 0 <= j < |entries| && entries[j] == e;
    }
  }

  lemma NothingInside(files: Files, dirs: set<Key>, k: Key)
    requires !KnownDir(files, dirs, k)
    ensures NamesIn(files, dirs, k) == {}
  {
  }

  /** A name inside a directory that is not itself a directory is the name of a file. */
  lemma NameOfFile(files: Files, dirs: set<Key>, k: Key, n: string)
    requires n in NamesIn(files, dirs, k) && !KnownDir(files, dirs, k + [n])
    ensures k + [n] in files
  {
    if f :| f in files && k < f && f[|k|] == n {
      Extends(k, n, f);
    } else {
      var d :| d in dirs && k < d && d[|k|] == n;
      Extends(k, n, d);
    }
  }

  lemma Extends(k: Key, n: string, f: Key)
    requires k < f && f[|k|] == n
    ensures k + [n] <= f && (k + [n] == f || k + [n] < f)
  {
    if |f| == |k| + 1 { assert k + [n] == f; }
  }

  lemma Sha256Key(n: string)
    ensures FinalKey(Sha256Digest(n)) == POOL + [n]
  {
    FirstSeparator(SHA256, n, ':');
    var d := Sha256Digest(n);
    assert d == SHA256 + [':'] + n;
    assert d[..6] == SHA256 && d[7..] == n;
  }

  /** A name of the right length is listed exactly if it is a file of the pool and no directory. */
  lemma ListedIff(files: Files, dirs: set<Key>, n: string)
    requires |n| == 64
    ensures Sha256Digest(n) in BlobInventory(files, dirs) <==> POOL + [n] in files && !KnownDir(files, dirs, POOL + [n])
  {
    hide KnownDir;
    if Sha256Digest(n) in BlobInventory(files, dirs) {
      var m :| m in BlobNames(files, dirs) && Sha256Digest(n) == Sha256Digest(m);
      DigestName(m, n);
      NameOfFile(files, dirs, POOL, n);
    }
    if POOL + [n] in files && !KnownDir(files, dirs, POOL + [n]) {
      assert POOL < POOL + [n];
      assert n in BlobNames(files, dirs);
    }
  }

  /** A well-formed digest is listed exactly if it is a sha256 digest with a final file that is no directory. */
  lemma InventoryIsPool(files: Files, dirs: set<Key>, d: Digest)
    requires ValidDigest(d)
    ensures d in BlobInventory(files, dirs) <==>
      Algo(d) == SHA256 && FinalKey(d) in files && !KnownDir(files, dirs, FinalKey(d))
  {
    hide KnownDir;
    if d in BlobInventory(files, dirs) {
      var n :| n in BlobNames(files, dirs) && d == Sha256Digest(n);
      Sha256Key(n);
      assert FinalKey(d)[1] == SHA256;
      ListedIff(files, dirs, n);
    }
    if Algo(d) == SHA256 && FinalKey(d) in files && !KnownDir(files, dirs, FinalKey(d)) {
      var n := Hex(d);
      assert FinalKey(d) == POOL + [n];
      DigestParts(d);
      assert d == Sha256Digest(n);
      ListedIff(files, dirs, n);
    }
  }

  /** Every final file of the pool holds the content its digest names. */
  ghost predicate SoundPool(truth: Truth, files: Files)
  {
    forall d :: ValidDigest(d) ==>
      (Lookup(files, FinalKey(d)) == None || Lookup(files, FinalKey(d)) == Some(truth(d)))
  }

  lemma SafeKeepsSound(truth: Truth, before: Files, files: Files)
    requires SoundPool(truth, before) && PoolSafe(truth, before, files)
    ensures SoundPool(truth, files)
  {
    forall d | ValidDigest(d)
      ensures Lookup(files, FinalKey(d)) == None || Lookup(files, FinalKey(d)) == Some(truth(d))
    {
      assert Safe(truth(d), ViewOf(before, d), ViewOf(files, d));
    }
  }

  /** No file of the pool has the name length of a sha256 blob without being named like one. */
  ghost predicate NoStrays(files: Files, dirs: set<Key>)
  {
    forall n: string :: |n| == 64 && POOL + [n] in files && !KnownDir(files, dirs, POOL + [n]) ==>
      ValidDigest(Sha256Digest(n))
  }

  /** Every listed name is a digest exactly if there is no stray file: strays are listed too. */
  lemma AllListedValidIff(files: Files, dirs: set<Key>)
    ensures (forall d :: d in BlobInventory(files, dirs) ==> ValidDigest(d)) <==> NoStrays(files, dirs)
  {
    hide KnownDir, ValidDigest;
    if forall d :: d in BlobInventory(files, dirs) ==> ValidDigest(d) {
      forall n: string | |n| == 64 && POOL + [n] in files && !KnownDir(files, dirs, POOL + [n])
        ensures ValidDigest(Sha256Digest(n))
      {
        ListedIff(files, dirs, n);
      }
    }
    if NoStrays(files, dirs) {
      forall d | d in BlobInventory(files, dirs) ensures ValidDigest(d) {
        var n :| n in BlobNames(files, dirs) && d == Sha256Digest(n);
        ListedIff(files, dirs, n);
      }
    }
  }

  /** A name of the right length that is some blob's key names a well-formed digest. */
  lemma BlobNameValid(n: string)
    requires |n| == 64 && IsDigestKey(POOL + [n])
    ensures ValidDigest(Sha256Digest(n))
  {
    var d :| ValidDigest(d) && (POOL + [n] == FinalKey(d) || POOL + [n] == PartKey(d));
    DigestParts(d);
    assert (POOL + [n])[1] == SHA256 && (POOL + [n])[2] == n;
    assert PartKey(d)[2] == Hex(d) + PART_SUFFIX && |PartKey(d)[2]| > 64;
    assert FinalKey(d)[2] == Hex(d);
  }

  /** Whatever is listed after a safe change is a well-formed digest or was a file before. */
  lemma ListedIsKnown(truth: Truth, before: Files, files: Files, dirs: set<Key>, d: Digest)
    requires PoolSafe(truth, before, files) && d in BlobInventory(files, dirs)
    ensures FinalKey(d) in files
    ensures ValidDigest(d) || Lookup(before, FinalKey(d)) == Lookup(files, FinalKey(d))
  {
    hide PoolSafe, KnownDir, IsDigestKey, ValidDigest;
    var n :| n in BlobNames(files, dirs) && d == Sha256Digest(n);
    Sha256Key(n);
    NameOfFile(files, dirs, POOL, n);
    if IsDigestKey(POOL + [n]) {
      BlobNameValid(n);
    } else {
      StrayStays(truth, before, files, POOL + [n]);
    }
  }

  lemma DigestKeyLength(k: Key)
    requires IsDigestKey(k)
    ensures |k| == 3
  {
  }

  /** A safe change makes nothing in the pool a directory, or no directory any more. */
  lemma SameDirs(truth: Truth, before: Files, files: Files, dirs: set<Key>, k: Key)
    requires PoolSafe(truth, before, files) && |k| == 3
    ensures KnownDir(files, dirs, k) <==> KnownDir(before, dirs, k)
  {
    hide PoolSafe, IsDigestKey;
    forall f: Key | k < f ensures f in files <==> f in before {
      if IsDigestKey(f) { DigestKeyLength(f); assert false; }
      StrayStays(truth, before, files, f);
    }
  }

  /** A safe change neither adds strays nor takes any away. */
  lemma StraysStay(truth: Truth, before: Files, files: Files, dirs: set<Key>)
    requires PoolSafe(truth, before, files)
    ensures NoStrays(files, dirs) <==> NoStrays(before, dirs)
  {
    hide PoolSafe, KnownDir, ValidDigest, IsDigestKey;
    forall n: string | |n| == 64 && !ValidDigest(Sha256Digest(n))
      ensures POOL + [n] in files <==> POOL + [n] in before
      ensures KnownDir(files, dirs, POOL + [n]) <==> KnownDir(before, dirs, POOL + [n])
    {
      if IsDigestKey(POOL + [n]) { BlobNameValid(n); }
      StrayStays(truth, before, files, POOL + [n]);
      SameDirs(truth, before, files, dirs, POOL + [n]);
    }
  }

  lemma StrayStays(truth: Truth, before: Files, files: Files, k: Key)
    requires PoolSafe(truth, before, files) && !IsDigestKey(k)
    ensures Lookup(files, k) == Lookup(before, k)
  {
  }

  /**
    Whatever happened before, crashes included, a listing of a pool that was sound names
    only complete and correct blobs, files that were no blobs from the start aside, and all
    its names are digests exactly if there was no such file; it lists every sha256 blob,
    and never names a part file.
   */
  lemma InventoryNeverLies(truth: Truth, files: Files, sessions: seq<Session>, dirs: set<Key>)
    requires HonestSessions(truth, sessions) && GoodParts(truth, files) && SoundPool(truth, files)
    ensures var now := RunSessions(files, sessions);
      && (forall d :: d in BlobInventory(now, dirs) ==>
           if ValidDigest(d) then Lookup(now, FinalKey(d)) == Some(truth(d))
           else FinalKey(d) in files && Lookup(now, FinalKey(d)) == Lookup(files, FinalKey(d)))
      && ((forall d :: d in BlobInventory(now, dirs) ==> ValidDigest(d)) <==> NoStrays(files, dirs))
      && (forall d :: ValidDigest(d) ==> (d in BlobInventory(now, dirs) <==>
           Algo(d) == SHA256 && FinalKey(d) in now && !KnownDir(now, dirs, FinalKey(d))))
      && (forall d, e :: d in BlobInventory(now, dirs) && ValidDigest(e) ==> FinalKey(d) != PartKey(e))
  {
    hide BlobInventory, NoStrays, PoolSafe, GoodParts, ValidDigest, RunSessions, KnownDir;
    CrashSafe(truth, files, sessions);
    var now := RunSessions(files, sessions);
    SafeKeepsSound(truth, files, now);
    AllListedValidIff(now, dirs);
    StraysStay(truth, files, now, dirs);
    forall d | d in BlobInventory(now, dirs)
      ensures if ValidDigest(d) then Lookup(now, FinalKey(d)) == Some(truth(d))
        else FinalKey(d) in files && Lookup(now, FinalKey(d)) == Lookup(files, FinalKey(d))
    {
      ListedIsKnown(truth, files, now, dirs, d);
    }
    forall d | ValidDigest(d)
      ensures d in BlobInventory(now, dirs) <==> Algo(d) == SHA256 && FinalKey(d) in now && !KnownDir(now, dirs, FinalKey(d))
    {
      InventoryIsPool(now, dirs, d);
    }
    forall d, e | d in BlobInventory(now, dirs) && ValidDigest(e) ensures FinalKey(d) != PartKey(e) {
      ListedIsNoPart(now, dirs, d, e);
    }
  }

  lemma ListedIsNoPart(files: Files, dirs: set<Key>, d: Digest, e: Digest)
    requires d in BlobInventory(files, dirs) && ValidDigest(e)
    ensures FinalKey(d) != PartKey(e)
  {
    var n :| n in BlobNames(files, dirs) && d == Sha256Digest(n);
    Sha256Key(n);
    assert FinalKey(d)[2] == n && PartKey(e)[2] == Hex(e) + PART_SUFFIX;
    assert |Hex(e)| >= 64;
  }

  // ------------------------------------------------------------------------ spelled out

  /** What is listed: "sha256:" before each file name of 64 characters in the sha256 pool. */
  lemma InventorySpelled(files: Files, dirs: set<Key>, d: Digest)
    ensures d in BlobInventory(files, dirs) <==>
      exists n: string :: d == "sha256:" + n && |n| == 64
        && ["share", "sha256", n] in files && !KnownDir(files, dirs, ["share", "sha256", n])
  {
    hide KnownDir;
    forall n: string ensures POOL + [n] == ["share", "sha256", n] && Sha256Digest(n) == "sha256:" + n {
    }
    if d in BlobInventory(files, dirs) {
      var n :| n in BlobNames(files, dirs) && d == Sha256Digest(n);
      ListedIff(files, dirs, n);
    }
    if n: string :| d == "sha256:" + n && |n| == 64 && ["share", "sha256", n] in files && !KnownDir(files, dirs, ["share", "sha256", n]) {
      ListedIff(files, dirs, n);
    }
  }
}
