/** What a finished run means for whoever reads the receiving store or the reports. */
module Guarantees {
  import opened Base
  import opened SlashPath
  import opened Digests
  import opened Transfer
  import opened Workers
  import opened ImageRefs
  import opened Layout
  import opened Vfs
  import opened OciDirs
  import opened OciImage
  import opened Inventory
  import opened DumpWalk
  import opened Plan
  import opened Ship
  import opened PushPull
  import opened Runs

  // ------------------------------------------------------------------ reading the mirror

  /** A held blob reads as the content from any valid offset on, and as nothing else. */
  lemma HeldReads(truth: Truth, files: Files, ds: set<Digest>, d: Digest, offset: int)
    requires Held(truth, files, ds) && d in ds
    ensures ReadBlob(files, d, offset)
         == if 0 <= offset <= |truth(d)| then Ok((truth(d)[offset..], |truth(d)|)) else Err(OffsetOutOfRange)
  {
  }

  /**
    The mirror means what the source means: the manifest reads alike, and so does every
    blob of the closure the source holds, from every offset.
   */
  lemma MirrorMeansSource(truth: Truth, codec: Codec, source: Files, before: Files, files: Files, ref: ImageRef,
                          has: set<Digest>, d: Digest, offset: int)
    requires Shipped(truth, codec, source, before, files, ref, has)
    requires SoundPool(truth, source) && d in Closure(codec, source, RelDumpDir(ref).value) && FinalKey(d) in source
    requires var (mDesc, man) := ReadManifest(codec, source, RelDumpDir(ref).value).value;
      Held(truth, before, Skipped(mDesc, man, has))
    ensures ReadManifest(codec, files, RelDumpDir(ref).value) == ReadManifest(codec, source, RelDumpDir(ref).value)
    ensures Closure(codec, files, RelDumpDir(ref).value) == Closure(codec, source, RelDumpDir(ref).value)
    ensures ReadBlob(files, d, offset) == ReadBlob(source, d, offset)
  {
    hide ReadManifest, RelDumpDir, DigestSet, FinalKey, DumpFile;
    var dir := RelDumpDir(ref).value;
    var (mDesc, man) := ReadManifest(codec, source, dir).value;
    assert Loadable(truth, codec, files, ref);
    assert d in Closure(codec, files, dir);
    HeldReads(truth, files, Closure(codec, files, dir), d, offset);
    assert Lookup(source, FinalKey(d)) == Some(truth(d));
  }

  // ------------------------------------------------------------------- plan and real run

  lemma PlannedListed(mDesc: Descriptor, man: Manifest, has: set<Digest>, p: ShipPlan)
    requires IsPlan(p, mDesc, man, has)
    ensures forall d :: d in p.sorted ==> d in All(mDesc, man)
  {
    SetOfMembers(p.sorted);
  }

  /** The planned digests the receiver had a final file for before. */
  function AlreadyThere(mDesc: Descriptor, man: Manifest, has: set<Digest>, before: Files): set<Digest>
  {
    set d | d in All(mDesc, man) - Skipped(mDesc, man, has) && Lookup(before, FinalKey(d)).Some?
  }

  lemma PlannedSplit(mDesc: Descriptor, man: Manifest, has: set<Digest>, before: Files)
    ensures var planned := All(mDesc, man) - Skipped(mDesc, man, has);
      && |ToSend(mDesc, man, has, before)| + |AlreadyThere(mDesc, man, has, before)| == |planned|
      && ToSend(mDesc, man, has, before) <= planned
  {
    hide DigestSet;
    var planned := All(mDesc, man) - Skipped(mDesc, man, has);
    var a, b := ToSend(mDesc, man, has, before), AlreadyThere(mDesc, man, has, before);
    assert a + b == planned && a !! b;
    assert |a + b| == |a| + |b|;
  }

  lemma PlanSize(mDesc: Descriptor, man: Manifest, has: set<Digest>, p: ShipPlan)
    requires IsPlan(p, mDesc, man, has)
    ensures |p.sorted| == |All(mDesc, man) - Skipped(mDesc, man, has)|
    ensures |All(mDesc, man)| == |Skipped(mDesc, man, has)| + |p.sorted|
    ensures |p.all - SetOf(p.sorted)| == |Skipped(mDesc, man, has)|
  {
    hide DigestSet, SizeOf, SetOf;
    Conservation(p, mDesc, man, has);
  }

  /**
    Of the distinct digests of a closure, a real run reports each once: as reused the
    skipped, as sent the planned ones without a final file; the planned ones that had one
    are the rest.
   */
  lemma RunConservation(truth: Truth, mDesc: Descriptor, man: Manifest, has: set<Digest>, rep: Report, before: Files)
    requires ReportsRun(truth, rep, mDesc, man, has, before)
    ensures rep.sent + rep.reused + |AlreadyThere(mDesc, man, has, before)| == |All(mDesc, man)|
  {
    hide DigestSet, SumSizes;
    PlannedSplit(mDesc, man, has, before);
    var planned, skipped := All(mDesc, man) - Skipped(mDesc, man, has), Skipped(mDesc, man, has);
    assert planned + skipped == All(mDesc, man) && planned !! skipped;
    assert |planned + skipped| == |planned| + |skipped|;
  }

  /**
    A real run against a dry run of the same closure and have-set: it skips as many, sends
    fewer blobs by those the receiver had a final file for, and sends as many exactly if
    it had none of the planned ones; the bytes fall short of those announced by the
    lengths of these.
   */
  lemma RealWithinPlan(truth: Truth, mDesc: Descriptor, man: Manifest, has: set<Digest>, dry: Report, done: Report, before: Files)
    requires HonestDescriptors(truth, AllDescriptors(mDesc, man))
    requires ReportsPlan(dry, mDesc, man, has)
    requires ReportsRun(truth, done, mDesc, man, has, before)
    ensures done.reused == dry.reused
    ensures done.sent + |AlreadyThere(mDesc, man, has, before)| == dry.sent
    ensures done.sent == dry.sent <==>
      forall d :: d in All(mDesc, man) - Skipped(mDesc, man, has) ==> Lookup(before, FinalKey(d)).None?
    ensures done.bytes + SumSizes(truth, AlreadyThere(mDesc, man, has, before)) == dry.bytes
  {
    hide DigestSet, HonestDescriptors, SumSizes, SizeOf, SetOf;
    var p :| IsPlan(p, mDesc, man, has) && PlanReport(dry, p);
    PlanSize(mDesc, man, has, p);
    PlannedSplit(mDesc, man, has, before);
    PlannedListed(mDesc, man, has, p);
    PlannedBytesHonest(truth, AllDescriptors(mDesc, man), p.sorted, p.sizes);
    var sent, rest := ToSend(mDesc, man, has, before), AlreadyThere(mDesc, man, has, before);
    assert sent + rest == SetOf(p.sorted);
    SumSizesUnion(truth, sent, rest);
    if done.sent == dry.sent {
      assert rest == {};
      forall d | d in All(mDesc, man) - Skipped(mDesc, man, has) ensures Lookup(before, FinalKey(d)).None? {
        assert d !in rest;
      }
    }
  }

  // ------------------------------------------------------------------ a plan, spelled out

  /** The sum of the sizes of these digests. */
  ghost function SumOf(size: map<Digest, nat>, ds: set<Digest>): nat
    requires ds <= size.Keys
  {
    if ds == {} then 0
    else
      var d :| d in ds;
      size[d] + SumOf(size, ds - {d})
  }

  lemma {:induction false} SumOfRemove(size: map<Digest, nat>, ds: set<Digest>, e: Digest)
    requires ds <= size.Keys && e in ds
    ensures SumOf(size, ds) == size[e] + SumOf(size, ds - {e})
    decreases |ds|
  {
    var d :| d in ds && SumOf(size, ds) == size[d] + SumOf(size, ds - {d});
    if d != e {
      SumOfRemove(size, ds - {d}, e);
      SumOfRemove(size, ds - {e}, d);
      assert ds - {d} - {e} == ds - {e} - {d};
    }
  }

  lemma {:induction false} PlannedBytesSum(sorted: seq<Digest>, sizes: map<Digest, nat>, size: map<Digest, nat>)
    requires NoneTwice(sorted) && SetOf(sorted) <= size.Keys
    requires forall d :: d in sorted ==> size[d] == SizeIn(sizes, d)
    ensures PlannedBytes(sorted, sizes) == SumOf(size, SetOf(sorted))
    decreases |sorted|
  {
    SetOfMembers(sorted);
    if sorted != [] {
      var n := |sorted| - 1;
      var front, d := sorted[..n], sorted[n];
      SetOfMembers(front);
      assert sorted == front + [d];
      assert SetOf(front) == SetOf(sorted) - {d};
      PlannedBytesSum(front, sizes, size);
      SumOfRemove(size, SetOf(sorted), d);
    }
  }

  /** These are the digests a plan ships, with their announced sizes. */
  ghost predicate ShipsExactly(mDesc: Descriptor, man: Manifest, has: set<Digest>, size: map<Digest, nat>)
  {
    && (forall d :: d in size <==> MustShip(mDesc, man, has, d))
    && forall d :: d in size ==> Announces(mDesc, man, d, size[d])
  }

  /** The digests of a plan, with sizes. */
  function PlannedSizes(p: ShipPlan): map<Digest, nat>
  {
    map d | d in p.sorted :: SizeIn(p.sizes, d)
  }

  /**
    A dry run counts as sent the manifest, the config and the layers not listed as had, as
    reused the other layers, each once, and as bytes the announced sizes.
   */
  lemma PlanCounts(mDesc: Descriptor, man: Manifest, has: set<Digest>, rep: Report)
    requires ReportsPlan(rep, mDesc, man, has)
    ensures exists size :: (ShipsExactly(mDesc, man, has, size) && rep.sent == |size| && rep.bytes == SumOf(size, size.Keys))
    ensures rep.reused == |Skipped(mDesc, man, has)|
  {
    hide DigestSet, AllDescriptors, SizeOf, MustShip, Announces, All, Skipped, SumOf, SizeIn, PlannedBytes, SetOf, Sorted;
    var p :| IsPlan(p, mDesc, man, has) && PlanReport(rep, p);
    PlanExactly(p, mDesc, man, has);
    PlanSize(mDesc, man, has, p);
    SetOfMembers(p.sorted);
    var size := PlannedSizes(p);
    assert size.Keys == SetOf(p.sorted);
    PlannedBytesSum(p.sorted, p.sizes, size);
    forall d | d in size ensures Announces(mDesc, man, d, size[d]) { SizeAnnounced(mDesc, man, d); }
    assert |size| == |size.Keys|;
  }

  /**
    A dry run of a push counts the raw manifest under its own hash and length: with the
    config and the new layers it is sent, and unless its digest is also one of these, its
    bytes are the length of the raw manifest and the announced sizes of the rest.
   */
  lemma DryRunCountsManifest(codec: Codec, data: Bytes, man: Manifest, rep: Report, has: set<Digest>)
    requires DryOutcome(codec, Some(data), rep, has) && IsManifestOf(codec, data, man)
    ensures rep.err.None?
    ensures var m := Descriptor(man.mediaType, codec.digestBytes(data), |data|);
      exists size :: (ShipsExactly(m, man, has, size) && CountsShipped(rep, m, man, size))
  {
    hide IsManifestOf, ParseManifest, ReportsPlan, ShipsExactly, SumOf, CountsShipped;
    ManifestIff(codec, data, man);
    var m := Descriptor(man.mediaType, codec.digestBytes(data), |data|);
    PlanCounts(m, man, has, rep);
    var size :| (ShipsExactly(m, man, has, size) && rep.sent == |size| && rep.bytes == SumOf(size, size.Keys));
    ManifestApart(m, man, has, rep, size);
  }

  lemma ManifestApart(m: Descriptor, man: Manifest, has: set<Digest>, rep: Report, size: map<Digest, nat>)
    requires ShipsExactly(m, man, has, size) && rep.sent == |size| && rep.bytes == SumOf(size, size.Keys)
    ensures CountsShipped(rep, m, man, size)
  {
    hide MustShip, SumOf;
    PinnedShips(m, man, has);
    SumOfRemove(size, size.Keys, m.digest);
    assert Announces(m, man, m.digest, size[m.digest]);
  }

  lemma PinnedShips(m: Descriptor, man: Manifest, has: set<Digest>)
    ensures MustShip(m, man, has, m.digest) && MustShip(m, man, has, man.config.digest)
  {
  }

  /** The counts over these sizes, the manifest's own bytes told apart. */
  ghost predicate CountsShipped(rep: Report, m: Descriptor, man: Manifest, size: map<Digest, nat>)
  {
    && m.digest in size && man.config.digest in size
    && rep.sent == |size|
    && rep.bytes == SumOf(size, size.Keys) == size[m.digest] + SumOf(size, size.Keys - {m.digest})
    && (OnlyManifest(m, man) && m.size >= 0 ==> size[m.digest] == m.size)
  }

  /** The manifest's digest is none of the config's and layers'. */
  predicate OnlyManifest(m: Descriptor, man: Manifest)
  {
    m.digest != man.config.digest && forall i :: 0 <= i < |man.layers| ==> man.layers[i].digest != m.digest
  }

  /** The failures counted are the reports with an error. */
  lemma {:induction false} FailedAre(reports: seq<Report>)
    ensures CountFailed(reports) == |set i | 0 <= i < |reports| && reports[i].err.Some?|
    decreases |reports|
  {
    var bad := set i | 0 <= i < |reports| && reports[i].err.Some?;
    if reports != [] {
      var n := |reports| - 1;
      FailedAre(reports[..n]);
      var before := set i | 0 <= i < |reports[..n]| && reports[..n][i].err.Some?;
      assert bad == if reports[n].err.Some? then before + {n} else before;
    }
  }

  // --------------------------------------------------------------------- over whole runs

  /** The digests of all images a run loaded. */
  function LoadedClosures(codec: Codec, loads: seq<Load>): set<Digest>
  {
    if loads == [] then {}
    else
      var last := loads[|loads| - 1];
      LoadedClosures(codec, loads[..|loads| - 1]) + Closure(codec, last.files, LoadDir(last))
  }

  lemma {:induction false} LoadedMember(codec: Codec, loads: seq<Load>, d: Digest)
    ensures d in LoadedClosures(codec, loads) <==> InSomeLoad(codec, loads, d)
    decreases |loads|
  {
    hide Closure, LoadDir;
    if loads != [] {
      var n := |loads| - 1;
      LoadedMember(codec, loads[..n], d);
      if InSomeLoad(codec, loads[..n], d) {
        var j :| 0 <= j < n && d in Closure(codec, loads[..n][j].files, LoadDir(loads[..n][j]));
        assert loads[j] == loads[..n][j];
      }
      if InSomeLoad(codec, loads, d) {
        var j :| 0 <= j < |loads| && d in Closure(codec, loads[j].files, LoadDir(loads[j]));
        if j < n { assert loads[..n][j] == loads[j]; }
      }
    }
  }

  /**
    The have-set is read once, yet no blob is sent twice in a run: all counts together stay
    within the distinct digests of the loaded images, and all bytes within their sizes.
   */
  lemma RunBounds(truth: Truth, codec: Codec, images: seq<string>, sources: seq<Files>, has: set<Digest>,
                  start: Files, now: Files, l: Ledger)
    requires LedgerInv(truth, codec, images, sources, has, start, now, l) && NoneCancelled(l.loads)
    ensures TotalSent(l.reports) <= |LoadedClosures(codec, l.loads)|
    ensures TotalBytes(l.reports) <= SumSizes(truth, LoadedClosures(codec, l.loads))
  {
    hide SumSizes, InSomeLoad, LoadOk, Delivered, LoadedClosures, TraceOk, LoadsMatch, LoadsGood;
    var all := LoadedClosures(codec, l.loads);
    forall d | d in l.sent ensures d in all { LoadedMember(codec, l.loads, d); }
    SumSizesSubset(truth, l.sent, all);
    assert |all - l.sent| == |all| - |l.sent|;
  }

  /**
    At the end of a run every uncancelled load under a sound have-set still means what its
    source meant: the manifest read as the source's when it was loaded, and every blob of
    its closure that the source holds reads alike now, from every offset.
   */
  lemma RunMirrors(truth: Truth, codec: Codec, images: seq<string>, sources: seq<Files>, has: set<Digest>, start: Files,
                   now: Files, l: Ledger, j: nat, d: Digest, offset: int)
    requires LedgerInv(truth, codec, images, sources, has, start, now, l) && HasSound(truth, start, has)
    requires j < |l.loads| && !l.loads[j].cancelled
    requires var source := sources[l.at[j]];
      && SoundPool(truth, source) && FinalKey(d) in source
      && d in Closure(codec, source, LoadDir(l.loads[j]))
    ensures var source := sources[l.at[j]];
      && ReadManifest(codec, l.loads[j].files, LoadDir(l.loads[j])) == ReadManifest(codec, source, LoadDir(l.loads[j]))
      && ReadBlob(now, d, offset) == ReadBlob(source, d, offset)
  {
    hide ReadManifest, RelDumpDir, DigestSet, FinalKey, TraceOk, TotalsGood, HasSound, CountsAt, LoadDir, Loadable, ParseSpec;
    var load := l.loads[j];
    HeldReads(truth, now, Closure(codec, load.files, LoadDir(load)), d, offset);
    assert Lookup(sources[l.at[j]], FinalKey(d)) == Some(truth(d));
  }

  /**
    A pull against its dry run with the same have-set: for every uncancelled load, the real
    report falls short of the dry one by exactly what the receiver had at that point.
   */
  lemma PullWithinPlan(truth: Truth, codec: Codec, images: seq<string>, source: Files, has: set<Digest>, start: Files,
                       now: Files, l: Ledger, j: nat, dry: Report, faulty: bool)
    requires LedgerInv(truth, codec, images, OneSource(source, |images|), has, start, now, l)
    requires j < |l.loads| && !l.loads[j].cancelled
    requires dry.err.None? && dry.ref == l.loads[j].ref && PullDry(codec, source, dry.ref, dry, has, faulty)
    requires HonestImage(truth, codec, source, LoadDir(l.loads[j]))
    ensures RelDumpDir(dry.ref).Ok? && ReadManifest(codec, source, RelDumpDir(dry.ref).value).Ok?
    ensures var (mDesc, man) := ReadManifest(codec, source, RelDumpDir(dry.ref).value).value;
      var done, there := l.reports[l.at[j]], AlreadyThere(mDesc, man, has, l.trace[l.at[j]]);
      && done.reused == dry.reused && done.sent + |there| == dry.sent
      && done.bytes + SumSizes(truth, there) == dry.bytes
  {
    hide ReadManifest, RelDumpDir, DigestSet, TraceOk, TotalsGood, HasSound, LoadOk, ParseSpec, AlreadyThere, SumSizes, ReportsPlan,
      ReportsRun, SoundPool, HonestDescriptors;
    TraceLength(truth, images, start, now, l);
    var load := l.loads[j];
    assert CountsAt(truth, codec, has, l.reports[l.at[j]], load, l.trace[l.at[j]]);
    assert OneSource(source, |images|)[l.at[j]] == source;
    assert MirrorsAt(codec, source, load);
    var (mDesc, man) := ReadManifest(codec, source, RelDumpDir(dry.ref).value).value;
    assert LoadDir(l.loads[j]) == RelDumpDir(dry.ref).value;
    RealWithinPlan(truth, mDesc, man, has, dry, l.reports[l.at[j]], l.trace[l.at[j]]);
  }

  // ------------------------------------------------------------- what was pushed is listed

  /** The references of these texts. */
  function RefsOf(images: seq<string>): set<ImageRef>
    requires forall i :: 0 <= i < |images| ==> ParseSpec(images[i]).Ok?
  {
    set i | 0 <= i < |images| :: ParseSpec(images[i]).value
  }

  /** Every report of the run says that its image came to the load step. */
  predicate AllLoaded(l: Ledger)
  {
    forall i :: 0 <= i < |l.reports| ==> Loaded(l.reports[i])
  }

  lemma DumpDirMade(images: seq<string>, l: Ledger, dirs: set<Key>, i: nat)
    requires |l.trace| == |l.reports| + 1 && |l.reports| == |images| && LoadsMatch(images, l)
    requires AllLoaded(l) && DirsMade(l.loads, dirs) && i < |images|
    ensures ParseSpec(images[i]).Ok? && TagDir(ParseSpec(images[i]).value).Some?
    ensures TagDir(ParseSpec(images[i]).value).value in dirs
  {
    hide ParseSpec, TagDir, Loaded;
    assert i in l.at;
    var j :| 0 <= j < |l.at| && l.at[j] == i;
  }

  /** Where the dump directory and the tag files of a dot-free reference are. */
  lemma TagPlaces(r: ImageRef)
    requires Canonical(r) && DotFree(r)
    ensures TagDir(r) == Some(DumpNames(r))
    ensures TagFile(r, "index.json") == Some(DumpNames(r) + ["index.json"])
    ensures TagFile(r, "oci-layout") == Some(DumpNames(r) + ["oci-layout"])
  {
    hide DumpNames, KeyOf, JoinPath;
    RelDumpDirIsNames(r);
    DumpDirNonempty(r);
    TagFileKey(RelDumpDir(r).value, "index.json");
    TagFileKey(RelDumpDir(r).value, "oci-layout");
  }

  /**
    A run into an empty store, in which every image came to its load step, makes the dump
    directories of the images it was asked for, and no others.
   */
  lemma PushedStore(truth: Truth, codec: Codec, images: seq<string>, sources: seq<Files>, has: set<Digest>,
                    files: Files, dirs: set<Key>, l: Ledger)
    requires forall i :: 0 <= i < |images| ==> ParseSpec(images[i]).Ok? && DotFree(ParseSpec(images[i]).value)
    requires StoreFrame(images, map[], {}, files, dirs)
    requires LedgerInv(truth, codec, images, sources, has, map[], files, l) && |l.reports| == |images|
    requires AllLoaded(l) && DirsMade(l.loads, dirs)
    ensures StorableRefs(RefsOf(images)) && HoldsDumpsOf(files, dirs, RefsOf(images))
  {
    hide ParseSpec, DumpNames, TagDir, TagFile, DirsMade, LoadsGood, TotalsGood, DotFree, Canonical, AllLoaded, LoadsMatch, IsPoolKey;
    var refs := RefsOf(images);
    forall r | r in refs ensures Canonical(r) && DotFree(r) && DumpNames(r) in dirs {
      var i :| 0 <= i < |images| && r == ParseSpec(images[i]).value;
      ParseIsCanonical(images[i]);
      DumpDirMade(images, l, dirs, i);
      TagPlaces(r);
    }
    forall d | d in dirs ensures [SHARE] <= d || exists r :: r in refs && d == DumpNames(r) {
      if !([SHARE] <= d) {
        var j :| 0 <= j < |images| && TagDirIs(images[j], d);
        TagPlaces(ParseSpec(images[j]).value);
      }
    }
    forall f | f in files ensures [SHARE] <= f || exists r :: r in refs && |f| > 0 && f[..|f| - 1] == DumpNames(r) {
      assert Lookup(files, f) != Lookup(map[], f);
      if IsPoolKey(f) {
        PoolKeyInShare(f);
      } else {
        var j :| 0 <= j < |images| && TagFileOf(images[j], f);
        var r := ParseSpec(images[j]).value;
        TagPlaces(r);
        assert r in refs;
        assert f[..|f| - 1] == DumpNames(r);
      }
    }
    CreatedDumps(files, dirs, refs);
  }

  lemma PoolKeyInShare(k: Key)
    requires IsPoolKey(k)
    ensures [SHARE] <= k
  {
  }

  /** So listing the images of that store yields exactly what was asked for, each once. */
  lemma PushedIsListed(truth: Truth, codec: Codec, images: seq<string>, sources: seq<Files>, has: set<Digest>,
                       files: Files, dirs: set<Key>, l: Ledger, yielded: seq<Found>, dumps: seq<Key>)
    requires forall i :: 0 <= i < |images| ==> ParseSpec(images[i]).Ok? && DotFree(ParseSpec(images[i]).value)
    requires StoreFrame(images, map[], {}, files, dirs)
    requires LedgerInv(truth, codec, images, sources, has, map[], files, l) && |l.reports| == |images|
    requires AllLoaded(l) && DirsMade(l.loads, dirs)
    requires NoneTwice(dumps) && forall p :: p in dumps <==> IsDump(files, dirs, p)
    requires |yielded| == |dumps| && forall i :: 0 <= i < |dumps| ==> yielded[i] == FoundAt(dumps[i])
    ensures NoneTwice(yielded)
    ensures forall y :: y in yielded <==> exists i :: 0 <= i < |images| && y == Image(WithOriginal(ParseSpec(images[i]).value))
  {
    hide ParseSpec, StoreFrame, LedgerInv, DirsMade, DotFree, HoldsDumpsOf, StorableRefs, IsDump, FoundAt, AllLoaded, WithOriginal;
    PushedStore(truth, codec, images, sources, has, files, dirs, l);
    var refs := RefsOf(images);
    EnumerationRecovers(files, dirs, refs, yielded, dumps);
    forall i | 0 <= i < |images| ensures Image(WithOriginal(ParseSpec(images[i]).value)) in yielded {
      assert ParseSpec(images[i]).value in refs;
    }
  }
}
