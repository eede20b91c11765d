/** The part push and pull share: mirror the tag files, ship the missing blobs, load. */
module Ship {
  import opened Base
  import opened SlashPath
  import opened Digests
  import opened Transfer
  import opened Workers
  import opened ImageRefs
  import opened Layout
  import opened Vfs
  import opened OciDirs
  import opened OciImage
  import opened Inventory
  import opened Plan

  // --------------------------------------------------------------- what a store holds

  /** All these digests have their complete, correct blob in the pool. */
  ghost predicate Held(truth: Truth, files: Files, ds: set<Digest>)
  {
    forall d :: d in ds ==> ValidDigest(d) && Lookup(files, FinalKey(d)) == Some(truth(d))
  }

  /** A pool nothing is wrong with: finals correct, part files resumable or too long. */
  ghost predicate GoodPool(truth: Truth, files: Files)
  {
    SoundPool(truth, files) && GoodParts(truth, files)
  }

  /** Everything the load step needs for `ref`: tag files, manifest, and the whole closure. */
  ghost predicate Loadable(truth: Truth, codec: Codec, files: Files, ref: ImageRef)
  {
    && RelDumpDir(ref).Ok?
    && DumpFile(files, RelDumpDir(ref).value, "oci-layout").Some?
    && ReadManifest(codec, files, RelDumpDir(ref).value).Ok?
    && Held(truth, files, Closure(codec, files, RelDumpDir(ref).value))
  }

  /** No complete blob is lost. */
  ghost predicate KeepsBlobs(truth: Truth, before: Files, files: Files)
  {
    forall d :: ValidDigest(d) && Lookup(before, FinalKey(d)) == Some(truth(d)) ==>
      Lookup(files, FinalKey(d)) == Some(truth(d))
  }

  /** The dump directory of `ref` has the same two files in both. */
  ghost predicate SameTagFiles(a: Files, b: Files, ref: ImageRef)
  {
    RelDumpDir(ref).Ok? &&
    forall name :: IsTagFile(name) ==>
      DumpFile(a, RelDumpDir(ref).value, name) == DumpFile(b, RelDumpDir(ref).value, name)
  }

  /** Outside the blob pool only the tag files of `ref` may differ. */
  ghost predicate OnlyTagFilesOf(before: Files, files: Files, ref: ImageRef)
  {
    forall k: Key :: !IsPoolKey(k) && TagFile(ref, "index.json") != Some(k) && TagFile(ref, "oci-layout") != Some(k)
      ==> Lookup(files, k) == Lookup(before, k)
  }

  lemma SafeKeepsBlobs(truth: Truth, before: Files, files: Files)
    requires PoolSafe(truth, before, files)
    ensures KeepsBlobs(truth, before, files)
  {
    forall d | ValidDigest(d) && Lookup(before, FinalKey(d)) == Some(truth(d))
      ensures Lookup(files, FinalKey(d)) == Some(truth(d))
    {
      assert Safe(truth(d), ViewOf(before, d), ViewOf(files, d));
    }
  }

  lemma SafeKeepsGood(truth: Truth, before: Files, files: Files)
    requires GoodPool(truth, before) && PoolSafe(truth, before, files)
    ensures GoodPool(truth, files)
  {
    SafeKeepsSound(truth, before, files);
    PoolSafeKeepsParts(truth, before, files);
  }

  /** An image that can be loaded stays so while its tag files stay and no blob is lost. */
  lemma LoadablePersists(truth: Truth, codec: Codec, before: Files, files: Files, ref: ImageRef)
    requires Loadable(truth, codec, before, ref)
    requires SameTagFiles(before, files, ref) && KeepsBlobs(truth, before, files)
    ensures Loadable(truth, codec, files, ref)
    ensures ReadManifest(codec, files, RelDumpDir(ref).value) == ReadManifest(codec, before, RelDumpDir(ref).value)
  {
    hide DumpFile, ParseManifest, KeyOf, JoinPath;
    var dir := RelDumpDir(ref).value;
    var (mDesc, man) := ReadManifest(codec, before, dir).value;
    assert IsTagFile("index.json") && IsTagFile("oci-layout");
    ManifestInClosure(mDesc, man);
    assert Lookup(before, FinalKey(mDesc.digest)) == Some(truth(mDesc.digest));
    ReadManifestDependsOn(codec, before, files, dir);
  }

  lemma ManifestInClosure(mDesc: Descriptor, man: Manifest)
    ensures mDesc.digest in DigestSet(AllDescriptors(mDesc, man))
    ensures man.config.digest in DigestSet(AllDescriptors(mDesc, man))
  {
    var descs := AllDescriptors(mDesc, man);
    assert descs[0] == mDesc && descs[1] == man.config;
  }

  lemma HeldPersists(truth: Truth, before: Files, files: Files, ds: set<Digest>)
    requires Held(truth, before, ds) && KeepsBlobs(truth, before, files)
    ensures Held(truth, files, ds)
  {
  }

  // ----------------------------------------------------------------------- tag files

  /** Writing a tag file touches no pool file and no file of another dump directory. */
  lemma TagWriteFrame(ref: ImageRef, name: string, files: Files, data: Bytes)
    requires IsTagFile(name) && TagFile(ref, name).Some?
    ensures var after := files[TagFile(ref, name).value := data];
      && (forall d :: ValidDigest(d) ==> ViewOf(after, d) == ViewOf(files, d))
      && OnlyTagFilesOf(files, after, ref)
      && DumpFile(after, RelDumpDir(ref).value, name) == Some(data)
  {
    var dir := RelDumpDir(ref).value;
    DumpDirNonempty(ref);
    TagFileNotInPool(dir, name);
    forall d | ValidDigest(d) ensures ViewOf(files[TagFile(ref, name).value := data], d) == ViewOf(files, d) {
      PoolKeys(d);
    }
  }

  lemma DumpDirNonempty(ref: ImageRef)
    requires RelDumpDir(ref).Ok?
    ensures RelDumpDir(ref).value != ""
  {
    var m := if ref.IsTagged() then TAGS_MARKER else DIGESTS_MARKER;
    var leaf := if ref.IsTagged() then ref.tag else ref.digest;
    var es := [ref.host, ref.path, m, leaf];
    assert es[2] != "";
    JoinNonempty(es);
  }

  lemma CleanNonempty(p: string)
    ensures Clean(p) != ""
  {
    ElementsReduced(p);
    ReducedFree(Rooted(p), Elements(p));
    if Elements(p) != [] { JoinHead(Elements(p)); }
  }

  lemma {:induction false} JoinNonempty(es: seq<string>)
    requires es != [] && exists i :: 0 <= i < |es| && es[i] != ""
    ensures JoinPath(es) != ""
    decreases |es|
  {
    if es[0] == "" {
      var i :| 0 <= i < |es| && es[i] != "";
      assert es[1..][i - 1] != "";
      JoinNonempty(es[1..]);
    } else {
      CleanNonempty(Text.Join(es, SLASH));
    }
  }

  /** Shipping blobs leaves every tag file alone. */
  lemma ShipKeepsTagFiles(truth: Truth, before: Files, files: Files, ref: ImageRef)
    requires PoolSafe(truth, before, files) && RelDumpDir(ref).Ok?
    ensures SameTagFiles(before, files, ref)
  {
    var dir := RelDumpDir(ref).value;
    DumpDirNonempty(ref);
    forall name | IsTagFile(name) ensures DumpFile(before, dir, name) == DumpFile(files, dir, name) {
      if KeyOf(JoinPath([dir, name])).Some? {
        TagFileNotInPool(dir, name);
        PoolSafeOutside(truth, before, files, KeyOf(JoinPath([dir, name])).value);
      }
    }
  }

  lemma TwoTagFiles(ref: ImageRef)
    requires TagFile(ref, "index.json").Some?
    ensures TagFile(ref, "index.json") != TagFile(ref, "oci-layout")
  {
    DumpDirNonempty(ref);
    var dir := RelDumpDir(ref).value;
    TagFileKey(dir, "index.json");
    TagFileKey(dir, "oci-layout");
    var k := KeyOf(dir).value;
    assert (k + ["index.json"])[|k|] != (k + ["oci-layout"])[|k|];
  }

  ghost predicate PoolUntouched(before: Files, files: Files)
  {
    forall d :: ValidDigest(d) ==> ViewOf(files, d) == ViewOf(before, d)
  }

  /** What two tag file writes for `ref` leave: both files as given, all else as before. */
  ghost predicate TagFilesPut(before: Files, files: Files, ref: ImageRef, layout: Bytes, index: Bytes)
  {
    && RelDumpDir(ref).Ok?
    && DumpFile(files, RelDumpDir(ref).value, "oci-layout") == Some(layout)
    && DumpFile(files, RelDumpDir(ref).value, "index.json") == Some(index)
  }

  ghost predicate TagFrame(before: Files, files: Files, ref: ImageRef)
  {
    PoolUntouched(before, files) && OnlyTagFilesOf(before, files, ref)
  }

  /** How tag files travel: byte for byte (push), or decoded and encoded again (pull). */
  datatype Mirror = Verbatim | Reencoded

  /** The two tag files a transfer writes: layout and index. */
  datatype TagDocs = TagDocs(layout: Bytes, index: Bytes)

  /** What mirroring `ref` from `source` is to write, if both files can be had there. */
  function DocsOf(mirror: Mirror, codec: Codec, source: Files, ref: ImageRef): Option<TagDocs>
  {
    match RelDumpDir(ref)
    case Err(_) => None
    case Ok(dir) =>
      (match mirror
       case Verbatim =>
         var layout, index := DumpFile(source, dir, "oci-layout"), DumpFile(source, dir, "index.json");
         if layout.Some? && index.Some? then Some(TagDocs(layout.value, index.value)) else None
       case Reencoded =>
         var layout, index := ReadImageLayout(codec, source, dir), ReadIndex(codec, source, dir);
         if layout.Ok? && index.Ok?
         then Some(TagDocs(codec.encodeLayout(layout.value), codec.encodeIndex(index.value))) else None)
  }

  function WithTagFile(files: Files, ref: ImageRef, name: string, data: Bytes): Files
  {
    match TagFile(ref, name)
    case None => files
    case Some(k) => files[k := data]
  }

  /** The files after `steps` of the two writes: first the layout, then the index. */
  function Tagged(files: Files, ref: ImageRef, docs: TagDocs, steps: nat): Files
  {
    if steps == 0 then files
    else
      var one := WithTagFile(files, ref, "oci-layout", docs.layout);
      if steps == 1 then one else WithTagFile(one, ref, "index.json", docs.index)
  }

  /** Outside the blob pool only the dump directory of `ref` may be made. */
  ghost predicate OnlyTagDirOf(before: set<Key>, dirs: set<Key>, ref: ImageRef)
  {
    before <= dirs && forall d :: d in dirs && d !in before ==> [SHARE] <= d || TagDir(ref) == Some(d)
  }

  lemma TaggedFrame(files: Files, ref: ImageRef, docs: TagDocs, steps: nat)
    ensures TagFrame(files, Tagged(files, ref, docs, steps), ref)
  {
    hide DumpFile, RelDumpDir, ViewOf, TagFile;
    if steps > 0 && TagFile(ref, "oci-layout").Some? { TagWriteFrame(ref, "oci-layout", files, docs.layout); }
    var one := WithTagFile(files, ref, "oci-layout", docs.layout);
    if steps > 1 && TagFile(ref, "index.json").Some? { TagWriteFrame(ref, "index.json", one, docs.index); }
  }

  lemma TaggedPut(files: Files, ref: ImageRef, docs: TagDocs)
    requires TagFile(ref, "oci-layout").Some? && TagFile(ref, "index.json").Some?
    ensures TagFilesPut(files, Tagged(files, ref, docs, 2), ref, docs.layout, docs.index)
  {
    hide DumpFile, ViewOf;
    var one := WithTagFile(files, ref, "oci-layout", docs.layout);
    TagWriteFrame(ref, "oci-layout", files, docs.layout);
    TagWriteFrame(ref, "index.json", one, docs.index);
    TwoTagFiles(ref);
    OtherTagFileStays(ref, one, docs.index);
  }

  /** First the layout file, then the index; either write may fail, having landed or not. */
  method PutTagFiles(dst: FsOciDirs, ref: ImageRef, layout: Bytes, index: Bytes) returns (ok: bool, ghost steps: nat)
    modifies dst.fs
    ensures steps <= 2 && dst.fs.files == Tagged(old(dst.fs.files), ref, TagDocs(layout, index), steps)
    ensures ok ==> steps == 2 && TagDir(ref).Some? && TagDir(ref).value in dst.fs.dirs
    ensures ok ==> TagFilesPut(old(dst.fs.files), dst.fs.files, ref, layout, index)
    ensures OnlyTagDirOf(old(dst.fs.dirs), dst.fs.dirs, ref)
    ensures (old(dst.fs.faulty) ==> dst.fs.faulty) && (ok ==> dst.fs.faulty == old(dst.fs.faulty))
    ensures !ok ==> dst.fs.faulty || TagDir(ref).None?
  {
    hide DumpFile, RelDumpDir, ViewOf, TagFile, TagDir;
    TagFileOfDir(ref, "oci-layout");
    TagFileOfDir(ref, "index.json");
    steps := 0;
    ghost var before := dst.fs.files;
    ok := dst.PutTagFile(ref, "oci-layout", layout);
    if dst.fs.files != before || ok { steps := 1; }
    if !ok { return false, steps; }
    ghost var mid := dst.fs.files;
    ok := dst.PutTagFile(ref, "index.json", index);
    if dst.fs.files != mid || ok { steps := 2; }
    if ok { TaggedPut(before, ref, TagDocs(layout, index)); }
  }

  /** A tag file has a place exactly if its dump directory has one. */
  lemma TagFileOfDir(ref: ImageRef, name: string)
    requires IsTagFile(name)
    ensures TagFile(ref, name).None? <==> TagDir(ref).None?
  {
    hide KeyOf, JoinPath, RelDumpDir;
    if RelDumpDir(ref).Ok? {
      DumpDirNonempty(ref);
      TagFileKey(RelDumpDir(ref).value, name);
    }
  }

  lemma OtherTagFileStays(ref: ImageRef, files: Files, index: Bytes)
    requires TagFile(ref, "index.json").Some? && TagFile(ref, "index.json") != TagFile(ref, "oci-layout")
    ensures DumpFile(files[TagFile(ref, "index.json").value := index], RelDumpDir(ref).value, "oci-layout")
         == DumpFile(files, RelDumpDir(ref).value, "oci-layout")
  {
  }

  /** Push direction: each of the two files is read and written as it is. */
  method MirrorTagFiles(source: Fs, ref: ImageRef, dst: FsOciDirs, ghost codec: Codec) returns (ok: bool, ghost steps: nat)
    requires source != dst.fs
    modifies dst.fs, source`faulty
    ensures (old(dst.fs.faulty) ==> dst.fs.faulty) && (old(source.faulty) ==> source.faulty)
    ensures ok ==> dst.fs.faulty == old(dst.fs.faulty) && source.faulty == old(source.faulty)
    ensures !ok ==> dst.fs.faulty || source.faulty || TagDir(ref).None? || DocsOf(Verbatim, codec, source.files, ref).None?
    ensures ok ==> SameTagFiles(source.files, dst.fs.files, ref) && TagDir(ref).Some? && TagDir(ref).value in dst.fs.dirs
    ensures ok ==> DocsOf(Verbatim, codec, source.files, ref).Some? && steps == 2
    ensures DocsOf(Verbatim, codec, source.files, ref).Some? ==>
      steps <= 2 && dst.fs.files == Tagged(old(dst.fs.files), ref, DocsOf(Verbatim, codec, source.files, ref).value, steps)
    ensures TagFrame(old(dst.fs.files), dst.fs.files, ref) && OnlyTagDirOf(old(dst.fs.dirs), dst.fs.dirs, ref)
    ensures RelDumpDir(ref).Err? || DumpFile(source.files, RelDumpDir(ref).value, "oci-layout").None? ==>
      dst.fs.files == old(dst.fs.files)
  {
    hide DumpFile, ViewOf, RelDumpDir, TagFile, TagDir;
    TagFileOfDir(ref, "oci-layout");
    TagFileOfDir(ref, "index.json");
    steps := 0;
    TagFrameSame(dst.fs.files, ref);
    var rel := RelDumpDir(ref);
    if rel.Err? { return false, 0; }
    ghost var before := dst.fs.files;
    var fails := source.Falters();
    var layout := DumpFile(source.files, rel.value, "oci-layout");
    if fails || layout.None? { return false, 0; }
    ok := dst.PutTagFile(ref, "oci-layout", layout.value);
    if dst.fs.files != before || ok { steps := 1; }
    ghost var mid := dst.fs.files;
    TaggedFrame(before, ref, TagDocs(layout.value, []), 1);
    if !ok { return false, steps; }
    fails := source.Falters();
    var index := DumpFile(source.files, rel.value, "index.json");
    if fails || index.None? { return false, steps; }
    ghost var docs := TagDocs(layout.value, index.value);
    TaggedFrame(before, ref, docs, 2);
    ok := dst.PutTagFile(ref, "index.json", index.value);
    if dst.fs.files != mid || ok { steps := 2; }
    if ok { TaggedPut(before, ref, docs); }
  }

  lemma TagFrameSame(files: Files, ref: ImageRef)
    ensures TagFrame(files, files, ref)
  {
  }

  /** Pull direction: the two files are read as documents and encoded again. */
  method MirrorTagFilesFromPeer(codec: Codec, source: Fs, ref: ImageRef, dst: FsOciDirs)
    returns (ok: bool, ghost steps: nat)
    requires source != dst.fs && RoundTrips(codec)
    modifies dst.fs, source`faulty
    ensures (old(dst.fs.faulty) ==> dst.fs.faulty) && (old(source.faulty) ==> source.faulty)
    ensures ok ==> dst.fs.faulty == old(dst.fs.faulty) && source.faulty == old(source.faulty)
    ensures !ok ==> dst.fs.faulty || source.faulty || TagDir(ref).None? || DocsOf(Reencoded, codec, source.files, ref).None?
    ensures ok ==> RelDumpDir(ref).Ok? && TagDir(ref).Some? && TagDir(ref).value in dst.fs.dirs
    ensures ok ==> var dir := RelDumpDir(ref).value;
      ReadIndex(codec, dst.fs.files, dir) == ReadIndex(codec, source.files, dir)
    ensures ok ==> ReadImageLayout(codec, dst.fs.files, RelDumpDir(ref).value).Ok?
    ensures ok ==> var dir := RelDumpDir(ref).value;
      ReadImageLayout(codec, dst.fs.files, dir) == ReadImageLayout(codec, source.files, dir)
    ensures ok ==> DocsOf(Reencoded, codec, source.files, ref).Some? && steps == 2
    ensures match DocsOf(Reencoded, codec, source.files, ref)
      case None => dst.fs.files == old(dst.fs.files)
      case Some(docs) => steps <= 2 && dst.fs.files == Tagged(old(dst.fs.files), ref, docs, steps)
    ensures OnlyTagDirOf(old(dst.fs.dirs), dst.fs.dirs, ref)
  {
    hide DumpFile, ViewOf, TagFile;
    steps := 0;
    var rel := RelDumpDir(ref);
    if rel.Err? { return false, 0; }
    var fails := source.Falters();
    var idx := ReadIndex(codec, source.files, rel.value);
    if fails || idx.Err? { return false, 0; }
    fails := source.Falters();
    var layout := ReadImageLayout(codec, source.files, rel.value);
    if fails || layout.Err? { return false, 0; }
    ok, steps := PutTagFiles(dst, ref, codec.encodeLayout(layout.value), codec.encodeIndex(idx.value));
    assert codec.decodeIndex(codec.encodeIndex(idx.value)) == Some(idx.value);
    assert codec.decodeLayout(codec.encodeLayout(layout.value)) == Some(layout.value);
  }

  // --------------------------------------------------------------------------- blobs

  /** Over a good pool, a finished honest transfer leaves the content in place. */
  lemma SettledHolds(up: Upload, truth: Bytes, v: View)
    requires Honest(up, truth) && GoodPart(truth, v.part) && CanFinish(up, v)
    requires v.final == None || v.final == Some(truth)
    ensures Settled(up, v).final == Some(truth)
    ensures Complete(up, v) <==> v.final.Some?
  {
    if !Complete(up, v) {
      BetweenIsSafe(up, truth, v, Settled(up, v));
    }
  }

  /** The digests of the set that have no final file. */
  function Absent(files: Files, ds: set<Digest>): set<Digest>
  {
    set d | d in ds && Lookup(files, FinalKey(d)).None?
  }

  function SetOf(sorted: seq<Digest>): set<Digest>
  {
    set i | 0 <= i < |sorted| :: sorted[i]
  }

  ghost predicate PlanReady(truth: Truth, descs: seq<Descriptor>, sorted: seq<Digest>, sizes: map<Digest, nat>, source: Files)
  {
    && HonestDescriptors(truth, descs) && SoundPool(truth, source)
    && NoneTwice(sorted) && (forall d :: d in sorted ==> d in DigestSet(descs))
    && (forall d :: SizeIn(sizes, d) == SizeOf(descs, d))
  }

  /** Views of digests that are not in the job stay as they were. */
  lemma JobFrame(job: Job, files: Files, s: Sys, d: Digest)
    requires Inv(job, files, s) && ValidDigest(d)
    requires forall i :: 0 <= i < |job.ups| ==> job.ups[i].digest != d
    ensures ViewOf(s.files, d) == ViewOf(files, d)
  {
    OutsideKeys(job.ups[..|s.workers|], d);
  }

  /** A finished job over a good pool: everything listed is held, the absent was sent. */
  lemma JobHolds(truth: Truth, files: Files, ups: seq<Upload>)
    requires Distinct(ups) && AllValid(ups) && HonestUps(truth, ups) && GoodPool(truth, files)
    requires forall i :: 0 <= i < |ups| ==> Transferable(files, ups[i])
    ensures Held(truth, Sequential(files, ups).0, Listed(ups))
    ensures forall i :: 0 <= i < |ups| ==>
      (Complete(ups[i], ViewOf(files, ups[i].digest)) <==> Lookup(files, FinalKey(ups[i].digest)).Some?)
  {
    hide Sequential, Complete, Settled, CanFinish;
    SequentialSettles(files, ups);
    forall i | 0 <= i < |ups|
      ensures Lookup(Sequential(files, ups).0, FinalKey(ups[i].digest)) == Some(truth(ups[i].digest))
      ensures Complete(ups[i], ViewOf(files, ups[i].digest)) <==> Lookup(files, FinalKey(ups[i].digest)).Some?
    {
      var d := ups[i].digest;
      SettledHolds(ups[i], truth(d), ViewOf(files, d));
      assert ViewOf(Sequential(files, ups).0, d).final == Some(truth(d));
    }
  }

  /**
    Ships what is listed.  Without an error the first `n` listed blobs are held, all of
    them if the caller did not cancel; sent were exactly those of them absent before.
   */
  method ShipBlobs(dst: FsOciDirs, ctx: Context, source: Fs, sorted: seq<Digest>, sizes: map<Digest, nat>,
                   ghost truth: Truth, ghost descs: seq<Descriptor>)
    returns (res: Tally, err: bool, ghost n: nat, ghost schedule: seq<Choice>)
    requires dst.limit >= 1 && source != dst.fs
    requires PlanReady(truth, descs, sorted, sizes, source.files) && GoodPool(truth, dst.fs.files)
    modifies dst.fs, ctx
    ensures old(ctx.done) ==> ctx.done
    ensures dst.fs.files
         == Exec(Job(BlobIter(sorted, sizes, source.files), false, dst.limit), Start(old(dst.fs.files)), schedule).files
    ensures PoolSafe(truth, old(dst.fs.files), dst.fs.files) && OnlyPoolDirs(old(dst.fs.dirs), dst.fs.dirs)
    ensures forall d :: ValidDigest(d) && d !in sorted ==> ViewOf(dst.fs.files, d) == ViewOf(old(dst.fs.files), d)
    ensures !err ==> n <= |sorted| && (n == |sorted| || ctx.done)
    ensures !err ==> ShippedFirst(truth, old(dst.fs.files), dst.fs.files, sorted, n, res)
    ensures (old(dst.fs.faulty) ==> dst.fs.faulty) && (!err ==> dst.fs.faulty == old(dst.fs.faulty))
    ensures !dst.fs.faulty && !ctx.done ==> (err <==> Stuck(old(dst.fs.files), sorted, sizes, source.files))
  {
    hide Exec, ViewOf, Advance, HonestUps, PoolSafe, Inv, ShippedFirst;
    ghost var before := dst.fs.files;
    var ups := BlobIter(sorted, sizes, source.files);
    BlobIterHonest(truth, descs, sorted, sizes, source.files);
    res, err, schedule := dst.PutBlobs(ctx, ups, false);
    ghost var job := Job(ups, false, dst.limit);
    ghost var s := Exec(job, Start(before), schedule);
    ExecKeepsInv(job, before, schedule);
    InvIsSafe(truth, job, before, s);
    forall d | ValidDigest(d) && d !in sorted ensures ViewOf(dst.fs.files, d) == ViewOf(before, d) {
      JobFrame(job, before, s, d);
    }
    n := 0;
    if !err {
      NilErrorIffAccepted(job, before, schedule);
      n := |s.workers|;
      FirstShipped(truth, before, sorted, sizes, source.files, descs, job, schedule);
    }
  }

  /** Some listed blob cannot be transferred at all. */
  predicate Stuck(files: Files, sorted: seq<Digest>, sizes: map<Digest, nat>, source: Files)
  {
    var ups := BlobIter(sorted, sizes, source);
    exists i :: 0 <= i < |ups| && !Transferable(files, ups[i])
  }

  lemma TransferableAcross(before: Files, mid: Files, up: Upload)
    requires PoolUntouched(before, mid)
    ensures Transferable(mid, up) <==> Transferable(before, up)
  {
    hide CanFinish;
    if ValidDigest(up.digest) { assert ViewOf(mid, up.digest) == ViewOf(before, up.digest); }
  }

  lemma StuckAcross(before: Files, mid: Files, sorted: seq<Digest>, sizes: map<Digest, nat>, source: Files)
    requires PoolUntouched(before, mid)
    ensures Stuck(mid, sorted, sizes, source) <==> Stuck(before, sorted, sizes, source)
  {
    hide Transferable, PoolUntouched;
    var ups := BlobIter(sorted, sizes, source);
    forall i | 0 <= i < |ups| ensures Transferable(mid, ups[i]) <==> Transferable(before, ups[i]) {
      TransferableAcross(before, mid, ups[i]);
    }
  }

  /** A listed blob with content that the source has can be transferred, whatever is there. */
  lemma ServedIsTransferable(truth: Truth, source: Files, files: Files, descs: seq<Descriptor>, sorted: seq<Digest>,
                             sizes: map<Digest, nat>, i: nat)
    requires PlanReady(truth, descs, sorted, sizes, source) && i < |sorted|
    requires FinalKey(sorted[i]) in source && truth(sorted[i]) != []
    ensures Transferable(files, BlobIter(sorted, sizes, source)[i])
  {
    hide SizeOf, DigestSet;
    var d := sorted[i];
    BlobIterHonest(truth, descs, sorted, sizes, source);
    var up := BlobIter(sorted, sizes, source)[i];
    assert ValidDigest(up.digest) && Honest(up, truth(d));
    PositiveCanFinish(up, ViewOf(files, d));
  }

  /** The first `n` of the list are held, and those of them absent before were counted as sent. */
  ghost predicate ShippedFirst(truth: Truth, before: Files, files: Files, sorted: seq<Digest>, n: nat, res: Tally)
    requires n <= |sorted|
  {
    var done := SetOf(sorted[..n]);
    && Held(truth, files, done)
    && res.sent == |Absent(before, done)| && res.bytesSent == SumSizes(truth, Absent(before, done))
    && res.sent + res.reused == n
  }

  /** What a job without a broken worker did with the list it was given. */
  lemma FirstShipped(truth: Truth, before: Files, sorted: seq<Digest>, sizes: map<Digest, nat>, source: Files,
                     descs: seq<Descriptor>, job: Job, schedule: seq<Choice>)
    requires PlanReady(truth, descs, sorted, sizes, source) && GoodPool(truth, before)
    requires job.ups == BlobIter(sorted, sizes, source)
    requires var s := Exec(job, Start(before), schedule); Terminal(s) && !AnyBroken(s.workers)
    ensures var s := Exec(job, Start(before), schedule);
      && |s.workers| <= |sorted| && (|s.workers| == |sorted| <==> s.loop == Ended(false))
      && ShippedFirst(truth, before, s.files, sorted, |s.workers|, s.result)
  {
    hide Exec, ViewOf, Terminal, Sequential, Missing, SumSizes, Transferable, GoodPool, DigestSet, HonestDescriptors, SizeOf;
    BlobIterHonest(truth, descs, sorted, sizes, source);
    ScheduleIndependence(job, before, schedule);
    var n := |Exec(job, Start(before), schedule).workers|;
    var front := sorted[..n];
    PrefixIter(sorted, sizes, source, n);
    BlobIterHonest(truth, descs, front, sizes, source);
    var ups := BlobIter(front, sizes, source);
    forall i | 0 <= i < n ensures Transferable(before, ups[i]) { assert ups[i] == job.ups[i]; }
    JobHolds(truth, before, ups);
    SequentialCounts(truth, before, ups);
    ListedIsSorted(front, sizes, source);
    MissingIsAbsent(before, front, sizes, source);
  }

  lemma PrefixIter(sorted: seq<Digest>, sizes: map<Digest, nat>, source: Files, n: nat)
    requires n <= |sorted|
    ensures BlobIter(sorted, sizes, source)[..n] == BlobIter(sorted[..n], sizes, source)
  {
  }

  lemma ListedIsSorted(sorted: seq<Digest>, sizes: map<Digest, nat>, source: Files)
    ensures Listed(BlobIter(sorted, sizes, source)) == SetOf(sorted)
  {
    var ups := BlobIter(sorted, sizes, source);
    forall d | d in SetOf(sorted) ensures d in Listed(ups) {
      var i :| 0 <= i < |sorted| && sorted[i] == d;
      assert ups[i].digest == d;
    }
  }

  lemma MissingIsAbsent(files: Files, sorted: seq<Digest>, sizes: map<Digest, nat>, source: Files)
    requires var ups := BlobIter(sorted, sizes, source);
      forall i :: 0 <= i < |ups| ==>
        (Complete(ups[i], ViewOf(files, ups[i].digest)) <==> Lookup(files, FinalKey(ups[i].digest)).Some?)
    ensures Missing(files, BlobIter(sorted, sizes, source)) == Absent(files, SetOf(sorted))
  {
    hide Complete, ViewOf;
    var ups := BlobIter(sorted, sizes, source);
    assert forall i :: 0 <= i < |ups| ==> ups[i].digest == sorted[i];
    forall d | d in Absent(files, SetOf(sorted)) ensures d in Missing(files, ups) {
      var i :| 0 <= i < |sorted| && sorted[i] == d;
      assert ups[i].digest == d;
    }
  }

  // ------------------------------------------------------------------------ spelled out

  /** A blob is in place with the content its digest names. */
  predicate InPlace(truth: Truth, files: Files, d: Digest)
  {
    ValidDigest(d) && FinalKey(d) in files && files[FinalKey(d)] == truth(d)
  }

  /** What loading needs: both tag files, and manifest, config and every layer in place. */
  lemma LoadableIff(truth: Truth, codec: Codec, files: Files, ref: ImageRef)
    ensures Loadable(truth, codec, files, ref) <==>
      && RelDumpDir(ref).Ok?
      && DumpFile(files, RelDumpDir(ref).value, "oci-layout").Some?
      && ReadManifest(codec, files, RelDumpDir(ref).value).Ok?
      && var (mDesc, man) := ReadManifest(codec, files, RelDumpDir(ref).value).value;
        && InPlace(truth, files, mDesc.digest) && InPlace(truth, files, man.config.digest)
        && forall i :: 0 <= i < |man.layers| ==> InPlace(truth, files, man.layers[i].digest)
  {
    hide RelDumpDir, DumpFile, ReadManifest, ValidDigest, FinalKey, DigestSet;
    if RelDumpDir(ref).Ok? && ReadManifest(codec, files, RelDumpDir(ref).value).Ok? {
      var (mDesc, man) := ReadManifest(codec, files, RelDumpDir(ref).value).value;
      HeldMembers(truth, files, mDesc, man);
    }
  }

  lemma HeldMembers(truth: Truth, files: Files, mDesc: Descriptor, man: Manifest)
    ensures Held(truth, files, DigestSet(AllDescriptors(mDesc, man))) <==>
      && InPlace(truth, files, mDesc.digest) && InPlace(truth, files, man.config.digest)
      && forall i :: 0 <= i < |man.layers| ==> InPlace(truth, files, man.layers[i].digest)
  {
    hide DigestSet, AllDescriptors, ValidDigest, FinalKey;
    forall d ensures d in DigestSet(AllDescriptors(mDesc, man)) <==>
      d == mDesc.digest || d == man.config.digest || exists i :: 0 <= i < |man.layers| && man.layers[i].digest == d
    {
      ClosureMembers(mDesc, man, d);
    }
  }

  /** After the first of the two writes only the layout file is new. */
  lemma LayoutComesFirst(before: Files, ref: ImageRef, docs: TagDocs)
    requires TagDir(ref).Some?
    ensures var dir := RelDumpDir(ref).value;
      && DumpFile(Tagged(before, ref, docs, 1), dir, "oci-layout") == Some(docs.layout)
      && DumpFile(Tagged(before, ref, docs, 1), dir, "index.json") == DumpFile(before, dir, "index.json")
      && DumpFile(Tagged(before, ref, docs, 2), dir, "oci-layout") == Some(docs.layout)
      && DumpFile(Tagged(before, ref, docs, 2), dir, "index.json") == Some(docs.index)
  {
    hide RelDumpDir, KeyOf, JoinPath;
    TagFileOfDir(ref, "oci-layout");
    TagFileOfDir(ref, "index.json");
    TwoTagFiles(ref);
  }
}
