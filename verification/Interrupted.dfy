/**
  What interrupted transfers do to images: which loadable images survive them, and how a
  transfer cut off too early misleads the next one.
 */
module Interrupted {
  import opened Base
  import opened SlashPath
  import opened Digests
  import opened Transfer
  import opened Workers
  import opened Overtaking
  import opened ImageRefs
  import opened Layout
  import opened Vfs
  import opened OciDirs
  import opened OciImage
  import opened Inventory
  import opened DumpWalk
  import opened Plan
  import opened Ship
  import opened PushPull
  import opened Runs
  import opened Guarantees

  /** A readable image at an honest source, to be mirrored. */
  ghost predicate Mirrorable(truth: Truth, codec: Codec, mirror: Mirror, source: Files, ref: ImageRef)
  {
    && RelDumpDir(ref).Ok? && ReadManifest(codec, source, RelDumpDir(ref).value).Ok?
    && HonestImage(truth, codec, source, RelDumpDir(ref).value)
    && (mirror.Reencoded? ==> RoundTrips(codec))
  }

  /** The closure of the image of `ref` at the source. */
  function SourceClosure(codec: Codec, source: Files, ref: ImageRef): set<Digest>
  {
    if RelDumpDir(ref).Ok? then Closure(codec, source, RelDumpDir(ref).value) else {}
  }

  // ------------------------------------------------------------------ frames of transfers

  lemma BlobsAreSafe(truth: Truth, codec: Codec, source: Files, mid: Files, ref: ImageRef, p: ShipPlan, mDesc: Descriptor,
                     man: Manifest, has: set<Digest>, limit: nat, schedule: seq<Choice>)
    requires ImageIs(codec, source, ref, mDesc, man) && HonestImage(truth, codec, source, RelDumpDir(ref).value)
    requires IsPlan(p, mDesc, man, has) && GoodPool(truth, mid)
    ensures PoolSafe(truth, mid, AfterBlobs(p, source, mid, limit, schedule))
  {
    hide Exec, ReadManifest, RelDumpDir, HonestImage, IsPlan, Inv, PoolSafe, HonestUps, SizeOf, DigestSet, HonestDescriptors;
    PlanIsReady(truth, codec, source, RelDumpDir(ref).value, p, mDesc, man, has);
    BlobIterHonest(truth, AllDescriptors(mDesc, man), p.sorted, p.sizes, source);
    var job := Job(BlobIter(p.sorted, p.sizes, source), false, limit);
    ExecKeepsInv(job, mid, schedule);
    InvIsSafe(truth, job, mid, Exec(job, Start(mid), schedule));
  }

  lemma TaggedIsGood(truth: Truth, before: Files, ref: ImageRef, docs: TagDocs, steps: nat)
    requires GoodPool(truth, before)
    ensures ImageFrame(truth, before, Tagged(before, ref, docs, steps), ref)
    ensures GoodPool(truth, Tagged(before, ref, docs, steps))
    ensures PoolUntouched(before, Tagged(before, ref, docs, steps))
  {
    hide Tagged, TagFile, RelDumpDir, ViewOf;
    TaggedFrame(before, ref, docs, steps);
    FrameOfTags(truth, before, Tagged(before, ref, docs, steps), ref);
  }

  /** Whatever a transfer leaves is a good pool with no blob lost and no other dump changed. */
  lemma LeavesFrame(truth: Truth, codec: Codec, mirror: Mirror, source: Files, before: Files, ref: ImageRef, has: set<Digest>,
                    limit: nat, now: Files)
    requires GoodPool(truth, before) && Mirrorable(truth, codec, mirror, source, ref)
    requires Leaves(codec, mirror, source, before, ref, has, limit, now)
    ensures ImageFrame(truth, before, now, ref)
  {
    hide GoodPool, ImageFrame, HonestImage, ReadManifest, RelDumpDir, Tagged, IsPlan, AfterBlobs, DocsOf, TagDir, PoolSafe, PoolUntouched;
    if steps :| LeavesTags(mirror, codec, source, before, ref, now, steps) {
      FrameSame(truth, before, ref);
      if DocsOf(mirror, codec, source, ref).Some? {
        TaggedIsGood(truth, before, ref, DocsOf(mirror, codec, source, ref).value, steps);
      }
    } else {
      var docs := DocsOf(mirror, codec, source, ref).value;
      var mid := Tagged(before, ref, docs, 2);
      var (mDesc, man) := ReadManifest(codec, source, RelDumpDir(ref).value).value;
      var p, schedule :| IsPlan(p, mDesc, man, has) && now == AfterBlobs(p, source, mid, limit, schedule);
      TaggedIsGood(truth, before, ref, docs, 2);
      BlobsAreSafe(truth, codec, source, mid, ref, p, mDesc, man, has, limit, schedule);
      FrameOfShip(truth, before, mid, now, ref);
    }
  }

  // ------------------------------------------------------------------ one place, two texts

  /** Two references dumped at the same place see the same tag files. */
  lemma SamePlace(codec: Codec, files: Files, r: ImageRef, q: ImageRef)
    requires SameDumpDir(r, q)
    ensures var dir, dir2 := RelDumpDir(r).value, RelDumpDir(q).value;
      && DumpFile(files, dir, "index.json") == DumpFile(files, dir2, "index.json")
      && DumpFile(files, dir, "oci-layout") == DumpFile(files, dir2, "oci-layout")
      && ReadManifest(codec, files, dir) == ReadManifest(codec, files, dir2)
      && Closure(codec, files, dir) == Closure(codec, files, dir2)
  {
    hide RelDumpDir, KeyOf, JoinPath, ParseManifest, Lookup;
    DumpDirNonempty(r);
    DumpDirNonempty(q);
    TagFileKey(RelDumpDir(r).value, "index.json");
    TagFileKey(RelDumpDir(q).value, "index.json");
    TagFileKey(RelDumpDir(r).value, "oci-layout");
    TagFileKey(RelDumpDir(q).value, "oci-layout");
  }

  lemma SamePlaceLoadable(truth: Truth, codec: Codec, files: Files, r: ImageRef, q: ImageRef)
    requires SameDumpDir(r, q)
    ensures Loadable(truth, codec, files, r) <==> Loadable(truth, codec, files, q)
  {
    hide RelDumpDir, DumpFile, ReadManifest, Closure, Held;
    SamePlace(codec, files, r, q);
  }

  lemma LoadablePlace(truth: Truth, codec: Codec, files: Files, r: ImageRef)
    requires Loadable(truth, codec, files, r)
    ensures TagFile(r, "index.json").Some? && TagFile(r, "oci-layout").Some? && TagDir(r).Some?
  {
    hide RelDumpDir, KeyOf, JoinPath, Closure, Held;
    DumpDirNonempty(r);
    TagFileKey(RelDumpDir(r).value, "index.json");
    TagFileKey(RelDumpDir(r).value, "oci-layout");
  }

  // ------------------------------------------------------------- the written tag files

  /** Both tag files written, the receiver reads the source's index. */
  lemma TaggedIndex(codec: Codec, mirror: Mirror, source: Files, before: Files, ref: ImageRef)
    requires DocsOf(mirror, codec, source, ref).Some? && (mirror.Reencoded? ==> RoundTrips(codec))
    requires TagFile(ref, "oci-layout").Some? && TagFile(ref, "index.json").Some?
    ensures var mid, dir := Tagged(before, ref, DocsOf(mirror, codec, source, ref).value, 2), RelDumpDir(ref).value;
      && ReadIndex(codec, mid, dir) == ReadIndex(codec, source, dir)
      && DumpFile(mid, dir, "oci-layout").Some?
  {
    hide RelDumpDir, DumpFile, TagFile, Tagged;
    var docs := DocsOf(mirror, codec, source, ref).value;
    TaggedPut(before, ref, docs);
    if mirror.Reencoded? {
      var idx := ReadIndex(codec, source, RelDumpDir(ref).value).value;
      assert codec.decodeIndex(codec.encodeIndex(idx)) == Some(idx);
    }
  }

  /** One tag file written, the index is still the old one. */
  lemma LayoutFirst(before: Files, ref: ImageRef, docs: TagDocs, steps: nat)
    requires steps <= 1 && TagFile(ref, "oci-layout").Some? && TagFile(ref, "index.json").Some?
    ensures var now, dir := Tagged(before, ref, docs, steps), RelDumpDir(ref).value;
      && DumpFile(now, dir, "index.json") == DumpFile(before, dir, "index.json")
      && (DumpFile(before, dir, "oci-layout").Some? ==> DumpFile(now, dir, "oci-layout").Some?)
  {
    TwoTagFiles(ref);
  }

  // --------------------------------------------------------------- which images survive

  /** Whatever the transfer of `q` from `source` leaves behind, `r` can be loaded. */
  ghost predicate Survives(truth: Truth, codec: Codec, mirror: Mirror, source: Files, before: Files, r: ImageRef, q: ImageRef,
                           has: set<Digest>, limit: nat)
  {
    forall now :: Leaves(codec, mirror, source, before, q, has, limit, now) ==> Loadable(truth, codec, now, r)
  }

  lemma SurvivesElsewhere(truth: Truth, codec: Codec, mirror: Mirror, source: Files, before: Files, r: ImageRef, q: ImageRef,
                          has: set<Digest>, limit: nat, now: Files)
    requires GoodPool(truth, before) && Loadable(truth, codec, before, r) && !SameDumpDir(r, q)
    requires Mirrorable(truth, codec, mirror, source, q) && Leaves(codec, mirror, source, before, q, has, limit, now)
    ensures Loadable(truth, codec, now, r)
  {
    hide GoodPool, Loadable, Mirrorable, Leaves, ImageFrame, SameDumpDir, RelDumpDir, KeepsBlobs, SameTagFiles;
    LeavesFrame(truth, codec, mirror, source, before, q, has, limit, now);
    LoadableHasDir(truth, codec, before, r);
    OtherDumpStays(truth, before, now, r, q);
    FrameKeeps(truth, before, now, q);
    LoadablePersists(truth, codec, before, now, r);
  }

  lemma LoadableHasDir(truth: Truth, codec: Codec, files: Files, r: ImageRef)
    requires Loadable(truth, codec, files, r)
    ensures RelDumpDir(r).Ok?
  {
  }

  /** The receiver reads the source's index and holds the whole closure: the image is there. */
  lemma HeldIsLoadable(truth: Truth, codec: Codec, source: Files, now: Files, q: ImageRef)
    requires RelDumpDir(q).Ok? && SoundPool(truth, source) && ReadManifest(codec, source, RelDumpDir(q).value).Ok?
    requires ReadIndex(codec, now, RelDumpDir(q).value) == ReadIndex(codec, source, RelDumpDir(q).value)
    requires DumpFile(now, RelDumpDir(q).value, "oci-layout").Some?
    requires Held(truth, now, SourceClosure(codec, source, q))
    ensures Loadable(truth, codec, now, q)
  {
    hide RelDumpDir, DumpFile, ReadIndex, ReadManifest, DigestSet;
    var dir := RelDumpDir(q).value;
    var (mDesc, man) := ReadManifest(codec, source, dir).value;
    ManifestInClosure(mDesc, man);
    SameManifest(truth, codec, source, now, dir);
  }

  /** The image of `q` itself stays loadable if its new closure was held all along. */
  lemma SurvivesHeld(truth: Truth, codec: Codec, mirror: Mirror, source: Files, before: Files, q: ImageRef,
                     has: set<Digest>, limit: nat, now: Files)
    requires GoodPool(truth, before) && Loadable(truth, codec, before, q) && Held(truth, before, SourceClosure(codec, source, q))
    requires Mirrorable(truth, codec, mirror, source, q) && Leaves(codec, mirror, source, before, q, has, limit, now)
    ensures Loadable(truth, codec, now, q)
  {
    hide GoodPool, ReadManifest, ReadIndex, RelDumpDir, DumpFile, Closure, ImageFrame, KeepsBlobs, Tagged, TagFile, DocsOf, SoundPool,
      HonestDescriptors, LeavesBlobs, RoundTrips, Held;
    LeavesFrame(truth, codec, mirror, source, before, q, has, limit, now);
    FrameKeeps(truth, before, now, q);
    LoadablePlace(truth, codec, before, q);
    HeldPersists(truth, before, now, SourceClosure(codec, source, q));
    var docs := DocsOf(mirror, codec, source, q);
    if docs.Some? { TaggedIndex(codec, mirror, source, before, q); }
    if steps :| LeavesTags(mirror, codec, source, before, q, now, steps) {
      if docs.Some? {
        if steps <= 1 {
          StillOwnIndex(truth, codec, before, q, docs.value, steps);
        } else {
          HeldIsLoadable(truth, codec, source, now, q);
        }
      }
    } else {
      var mid := Tagged(before, q, docs.value, 2);
      BlobsKeepIndex(truth, codec, mirror, source, before, mid, q, has, limit, now);
      HeldIsLoadable(truth, codec, source, now, q);
    }
  }

  lemma StillOwnIndex(truth: Truth, codec: Codec, before: Files, q: ImageRef, docs: TagDocs, steps: nat)
    requires GoodPool(truth, before) && Loadable(truth, codec, before, q) && steps <= 1
    requires TagFile(q, "oci-layout").Some? && TagFile(q, "index.json").Some?
    ensures Loadable(truth, codec, Tagged(before, q, docs, steps), q)
  {
    hide GoodPool, RelDumpDir, DumpFile, Tagged, TagFile, DigestSet, ParseManifest, ViewOf;
    var now, dir := Tagged(before, q, docs, steps), RelDumpDir(q).value;
    LayoutFirst(before, q, docs, steps);
    TaggedIsGood(truth, before, q, docs, steps);
    UntouchedLookups(before, now);
    var (mDesc, man) := ReadManifest(codec, before, dir).value;
    ManifestInClosure(mDesc, man);
    ReadManifestDependsOn(codec, before, now, dir);
  }

  lemma UntouchedLookups(before: Files, now: Files)
    requires PoolUntouched(before, now)
    ensures forall d :: ValidDigest(d) ==> Lookup(now, FinalKey(d)) == Lookup(before, FinalKey(d))
  {
    forall d | ValidDigest(d) ensures Lookup(now, FinalKey(d)) == Lookup(before, FinalKey(d)) {
      assert ViewOf(now, d) == ViewOf(before, d);
    }
  }

  lemma BlobsKeepIndex(truth: Truth, codec: Codec, mirror: Mirror, source: Files, before: Files, mid: Files, q: ImageRef,
                       has: set<Digest>, limit: nat, now: Files)
    requires GoodPool(truth, before) && Mirrorable(truth, codec, mirror, source, q)
    requires DocsOf(mirror, codec, source, q).Some? && mid == Tagged(before, q, DocsOf(mirror, codec, source, q).value, 2)
    requires LeavesBlobs(codec, source, mid, q, has, limit, now)
    ensures PoolSafe(truth, mid, now)
    ensures ReadIndex(codec, now, RelDumpDir(q).value) == ReadIndex(codec, mid, RelDumpDir(q).value)
    ensures DumpFile(now, RelDumpDir(q).value, "oci-layout") == DumpFile(mid, RelDumpDir(q).value, "oci-layout")
  {
    hide GoodPool, ReadManifest, ReadIndex, RelDumpDir, DumpFile, Tagged, DocsOf, HonestImage, IsPlan, AfterBlobs, PoolSafe;
    var (mDesc, man) := ReadManifest(codec, source, RelDumpDir(q).value).value;
    var p, schedule :| IsPlan(p, mDesc, man, has) && now == AfterBlobs(p, source, mid, limit, schedule);
    TaggedIsGood(truth, before, q, DocsOf(mirror, codec, source, q).value, 2);
    BlobsAreSafe(truth, codec, source, mid, q, p, mDesc, man, has, limit, schedule);
    IndexAcross(truth, codec, mid, now, q);
  }

  /** The same index over sound pools that both have its manifest: the same image. */
  lemma SameIndexSameImage(truth: Truth, codec: Codec, a: Files, b: Files, dir: string)
    requires SoundPool(truth, a) && SoundPool(truth, b) && ReadIndex(codec, a, dir) == ReadIndex(codec, b, dir)
    requires ReadManifest(codec, a, dir).Ok? && ReadManifest(codec, b, dir).Ok?
    ensures ReadManifest(codec, a, dir) == ReadManifest(codec, b, dir)
  {
    hide ReadIndex, ParseManifest;
  }

  /** Cut right after the second tag file, a transfer leaves an image exactly if its closure was held. */
  lemma CutAfterTags(truth: Truth, codec: Codec, mirror: Mirror, source: Files, before: Files, q: ImageRef)
    requires GoodPool(truth, before) && Mirrorable(truth, codec, mirror, source, q)
    requires DocsOf(mirror, codec, source, q).Some?
    requires TagFile(q, "oci-layout").Some? && TagFile(q, "index.json").Some?
    requires Loadable(truth, codec, Tagged(before, q, DocsOf(mirror, codec, source, q).value, 2), q)
    ensures Held(truth, before, SourceClosure(codec, source, q))
  {
    hide ReadManifest, ReadIndex, RelDumpDir, DumpFile, Tagged, DocsOf, TagFile, HonestDescriptors, ViewOf, GoodParts;
    var docs, dir := DocsOf(mirror, codec, source, q).value, RelDumpDir(q).value;
    var mid := Tagged(before, q, docs, 2);
    TaggedIndex(codec, mirror, source, before, q);
    TaggedIsGood(truth, before, q, docs, 2);
    SameIndexSameImage(truth, codec, mid, source, dir);
    UntouchedLookups(before, mid);
  }

  /**
    A loadable image survives every point at which a transfer can end, exactly if the
    transfer is for another dump directory, or finds no tag files to write, or its whole
    closure was held before: the tag files are replaced before the blobs arrive.
   */
  lemma SurvivesIff(truth: Truth, codec: Codec, mirror: Mirror, source: Files, before: Files, r: ImageRef, q: ImageRef,
                    has: set<Digest>, limit: nat)
    requires GoodPool(truth, before) && Loadable(truth, codec, before, r)
    requires Mirrorable(truth, codec, mirror, source, q)
    ensures Survives(truth, codec, mirror, source, before, r, q, has, limit) <==>
      || !SameDumpDir(r, q)
      || DocsOf(mirror, codec, source, q).None?
      || Held(truth, before, SourceClosure(codec, source, q))
  {
    hide GoodPool, Loadable, Mirrorable, Leaves, Held, SourceClosure, DocsOf, SameDumpDir;
    var docs := DocsOf(mirror, codec, source, q);
    if !SameDumpDir(r, q) {
      forall now | Leaves(codec, mirror, source, before, q, has, limit, now) ensures Loadable(truth, codec, now, r) {
        SurvivesElsewhere(truth, codec, mirror, source, before, r, q, has, limit, now);
      }
    } else {
      SamePlaceLoadable(truth, codec, before, r, q);
      LoadablePlace(truth, codec, before, q);
      if docs.None? {
        forall now | Leaves(codec, mirror, source, before, q, has, limit, now) ensures Loadable(truth, codec, now, r) {
          NothingLeft(codec, mirror, source, before, q, has, limit, now);
        }
      } else if Held(truth, before, SourceClosure(codec, source, q)) {
        forall now | Leaves(codec, mirror, source, before, q, has, limit, now) ensures Loadable(truth, codec, now, r) {
          SurvivesHeld(truth, codec, mirror, source, before, q, has, limit, now);
          SamePlaceLoadable(truth, codec, now, r, q);
        }
      } else if Survives(truth, codec, mirror, source, before, r, q, has, limit) {
        var mid := Tagged(before, q, docs.value, 2);
        TagsAreLeft(truth, codec, mirror, source, before, q, has, limit);
        SamePlaceLoadable(truth, codec, mid, r, q);
        CutAfterTags(truth, codec, mirror, source, before, q);
      }
    }
  }

  lemma NothingLeft(codec: Codec, mirror: Mirror, source: Files, before: Files, q: ImageRef, has: set<Digest>, limit: nat, now: Files)
    requires Leaves(codec, mirror, source, before, q, has, limit, now) && DocsOf(mirror, codec, source, q).None?
    ensures now == before
  {
  }

  /** Both tag files and nothing more is one of the states a transfer can leave. */
  lemma TagsAreLeft(truth: Truth, codec: Codec, mirror: Mirror, source: Files, before: Files, q: ImageRef, has: set<Digest>, limit: nat)
    requires Mirrorable(truth, codec, mirror, source, q) && DocsOf(mirror, codec, source, q).Some?
    ensures Leaves(codec, mirror, source, before, q, has, limit, Tagged(before, q, DocsOf(mirror, codec, source, q).value, 2))
  {
    hide DocsOf, ReadManifest, RelDumpDir, Tagged, HonestImage;
    var mid := Tagged(before, q, DocsOf(mirror, codec, source, q).value, 2);
    assert LeavesTags(mirror, codec, source, before, q, mid, 2);
  }

  // ------------------------------------------------- transfers that succeed, or are cut off

  /** The source has every blob of the closure, and no content is empty. */
  ghost predicate SourceServes(truth: Truth, codec: Codec, source: Files, ref: ImageRef)
  {
    forall d :: d in SourceClosure(codec, source, ref) ==> FinalKey(d) in source && truth(d) != []
  }

  lemma PlanExists(mDesc: Descriptor, man: Manifest, has: set<Digest>) returns (p: ShipPlan)
    ensures IsPlan(p, mDesc, man, has)
  {
    var descs, all := AllDescriptors(mDesc, man), All(mDesc, man);
    var planned := all - Skipped(mDesc, man, has);
    var sorted := SortedExists(planned);
    var sizes := map d | d in all :: SizeOf(descs, d);
    SetOfMembers(sorted);
    SetOfSize(sorted);
    assert SetOf(sorted) == planned;
    forall d ensures SizeIn(sizes, d) == SizeOf(descs, d) {
      if d !in all { ForeignSize(descs, d); }
    }
    p := ShipPlan(all, sorted, sizes);
  }

  lemma {:induction false} ForeignSize(descs: seq<Descriptor>, d: Digest)
    requires d !in DigestSet(descs)
    ensures SizeOf(descs, d) == 0
    decreases |descs|
  {
    if descs != [] {
      DigestSetMore(descs);
      ForeignSize(descs[..|descs| - 1], d);
    }
  }

  /** What the shared part of the next two lemmas knows of a transfer. */
  ghost predicate Ready(truth: Truth, codec: Codec, mirror: Mirror, source: Files, before: Files, ref: ImageRef, limit: nat)
  {
    && GoodPool(truth, before) && limit >= 1
    && Mirrorable(truth, codec, mirror, source, ref) && SourceServes(truth, codec, source, ref)
    && DocsOf(mirror, codec, source, ref).Some?
    && TagFile(ref, "oci-layout").Some? && TagFile(ref, "index.json").Some? && TagDir(ref).Some?
  }

  lemma JobReady(truth: Truth, codec: Codec, mirror: Mirror, source: Files, before: Files, ref: ImageRef, limit: nat,
                 mid: Files, p: ShipPlan, mDesc: Descriptor, man: Manifest, has: set<Digest>)
    requires Ready(truth, codec, mirror, source, before, ref, limit)
    requires ImageIs(codec, source, ref, mDesc, man) && IsPlan(p, mDesc, man, has)
    ensures PlanReady(truth, AllDescriptors(mDesc, man), p.sorted, p.sizes, source)
    ensures var ups := BlobIter(p.sorted, p.sizes, source);
      Distinct(ups) && AllValid(ups) && HonestUps(truth, ups) && forall i :: 0 <= i < |ups| ==> Transferable(mid, ups[i])
  {
    hide GoodPool, ReadManifest, RelDumpDir, HonestDescriptors, DigestSet, SizeOf, DocsOf, TagFile, TagDir, Transferable, SoundPool;
    PlanIsReady(truth, codec, source, RelDumpDir(ref).value, p, mDesc, man, has);
    var descs, ups := AllDescriptors(mDesc, man), BlobIter(p.sorted, p.sizes, source);
    BlobIterHonest(truth, descs, p.sorted, p.sizes, source);
    SetOfMembers(p.sorted);
    forall i | 0 <= i < |ups| ensures Transferable(mid, ups[i]) {
      assert p.sorted[i] in SetOf(p.sorted);
      ServedIsTransferable(truth, source, mid, descs, p.sorted, p.sizes, i);
    }
  }

  /** A transfer that meets no fault delivers: among what it can leave is a shipped image. */
  lemma DeliveryExists(truth: Truth, codec: Codec, mirror: Mirror, source: Files, before: Files, ref: ImageRef,
                       has: set<Digest>, limit: nat) returns (now: Files)
    requires Ready(truth, codec, mirror, source, before, ref, limit)
    ensures Leaves(codec, mirror, source, before, ref, has, limit, now)
    ensures Shipped(truth, codec, source, before, now, ref, has)
  {
    hide GoodPool, ReadManifest, ReadIndex, RelDumpDir, DumpFile, SourceServes, DocsOf, TagFile, TagDir, Tagged, IsPlan, Exec, Terminal,
      HonestImage, Shipped, Leaves, PlanReady, Transferable, AllValid, HonestUps, PoolUntouched, ShippedBlobs, Sequential;
    var (mDesc, man) := ReadManifest(codec, source, RelDumpDir(ref).value).value;
    var docs := DocsOf(mirror, codec, source, ref).value;
    var mid := Tagged(before, ref, docs, 2);
    var p := PlanExists(mDesc, man, has);
    TaggedIsGood(truth, before, ref, docs, 2);
    TaggedIndex(codec, mirror, source, before, ref);
    JobReady(truth, codec, mirror, source, before, ref, limit, mid, p, mDesc, man, has);
    var job := Job(BlobIter(p.sorted, p.sizes, source), false, limit);
    var schedule := AllReached(job, mid);
    now := AfterBlobs(p, source, mid, limit, schedule);
    AllShipped(truth, codec, source, mid, ref, p, mDesc, man, has, limit, schedule);
    LeavesAfterBlobs(codec, mirror, source, before, mid, ref, has, limit, p, mDesc, man, schedule);
    AfterShip(truth, codec, source, before, mid, now, ref, has, p, mDesc, man);
  }

  lemma AllShipped(truth: Truth, codec: Codec, source: Files, mid: Files, ref: ImageRef, p: ShipPlan, mDesc: Descriptor,
                   man: Manifest, has: set<Digest>, limit: nat, schedule: seq<Choice>)
    requires ImageIs(codec, source, ref, mDesc, man) && HonestImage(truth, codec, source, RelDumpDir(ref).value)
    requires IsPlan(p, mDesc, man, has) && GoodPool(truth, mid)
    requires var s := Exec(Job(BlobIter(p.sorted, p.sizes, source), false, limit), Start(mid), schedule);
      Terminal(s) && !AnyBroken(s.workers) && s.loop == Ended(false)
    ensures ShippedBlobs(truth, mid, AfterBlobs(p, source, mid, limit, schedule), p.sorted)
  {
    hide GoodPool, ReadManifest, RelDumpDir, IsPlan, Exec, Terminal, HonestImage, PlanReady, PoolSafe, Inv, ViewOf;
    var descs := AllDescriptors(mDesc, man);
    var job := Job(BlobIter(p.sorted, p.sizes, source), false, limit);
    PlanIsReady(truth, codec, source, RelDumpDir(ref).value, p, mDesc, man, has);
    BlobsAreSafe(truth, codec, source, mid, ref, p, mDesc, man, has, limit, schedule);
    FirstShipped(truth, mid, p.sorted, p.sizes, source, descs, job, schedule);
    assert p.sorted[..|p.sorted|] == p.sorted;
    PlanDistinct(truth, descs, p.sorted, p.sizes, source);
    ExecKeepsInv(job, mid, schedule);
    forall d | ValidDigest(d) && d !in p.sorted
      ensures ViewOf(AfterBlobs(p, source, mid, limit, schedule), d) == ViewOf(mid, d)
    {
      JobFrame(job, mid, Exec(job, Start(mid), schedule), d);
    }
  }

  lemma PlanDistinct(truth: Truth, descs: seq<Descriptor>, sorted: seq<Digest>, sizes: map<Digest, nat>, source: Files)
    requires PlanReady(truth, descs, sorted, sizes, source)
    ensures Distinct(BlobIter(sorted, sizes, source))
  {
    hide DigestSet, SizeOf, HonestDescriptors;
    BlobIterHonest(truth, descs, sorted, sizes, source);
  }

  // ---------------------------------------------------- cut off between manifest and layers

  /** `m` comes right after `lost` among the planned digests. */
  predicate ComesNext(planned: set<Digest>, lost: Digest, m: Digest)
  {
    LexLeq(lost, m) && forall d :: d in planned && LexLeq(lost, d) && LexLeq(d, m) ==> d == lost || d == m
  }

  /** The part file of `m` has all its bytes. */
  predicate PartDone(truth: Truth, before: Files, m: Digest)
  {
    PartKey(m) in before && |before[PartKey(m)]| == |truth(m)|
  }

  /**
    When the manifest `m` can be in place while the missing, planned `lost` is not: it was
    there before, or sorts first, or there are two slots, or it sorts right after `lost`;
    then, if copies stop once the group is cancelled, its part file must be complete.
   */
  predicate CanOvertake(truth: Truth, before: Files, planned: set<Digest>, m: Digest, lost: Digest, limit: nat, heeding: bool)
  {
    || FinalKey(m) in before
    || LexLeq(m, lost)
    || limit >= 2
    || (ComesNext(planned, lost, m) && (heeding ==> PartDone(truth, before, m)))
  }

  /** Lexical order of a sorted list is the order of positions. */
  lemma OrderOf(sorted: seq<Digest>, i: nat, k: nat)
    requires NoneTwice(sorted) && Sorted(sorted) && i < |sorted| && k < |sorted|
    ensures LexLeq(sorted[i], sorted[k]) <==> i <= k
  {
    LexTotal(sorted[i], sorted[i]);
    if k < i && LexLeq(sorted[i], sorted[k]) { LexAntisymmetric(sorted[i], sorted[k]); }
  }

  lemma NextOf(sorted: seq<Digest>, i: nat, k: nat)
    requires NoneTwice(sorted) && Sorted(sorted) && i < |sorted| && k < |sorted| && i != k
    ensures ComesNext(SetOf(sorted), sorted[k], sorted[i]) <==> i == k + 1
  {
    hide LexLeq, Sorted;
    OrderOf(sorted, k, i);
    if i > k + 1 {
      OrderOf(sorted, k, k + 1);
      OrderOf(sorted, k + 1, i);
      assert sorted[k + 1] in SetOf(sorted);
    }
    if i == k + 1 {
      forall d | d in SetOf(sorted) && LexLeq(sorted[k], d) && LexLeq(d, sorted[i]) ensures d == sorted[k] || d == sorted[i] {
        var j :| 0 <= j < |sorted| && sorted[j] == d;
        OrderOf(sorted, k, j);
        OrderOf(sorted, j, i);
      }
    }
  }

  lemma StartsComplete(truth: Truth, up: Upload, before: Files)
    requires ValidDigest(up.digest) && Honest(up, truth(up.digest)) && truth(up.digest) != []
    ensures StartAt(up, ViewOf(before, up.digest)) == up.size <==> PartDone(truth, before, up.digest)
  {
  }

  /**
    Over every schedule of a plan's job, and over those in which copies stop once the group
    is cancelled: exactly then the manifest can be in place without the lost blob.
   */
  lemma PlanOvertakesIff(truth: Truth, descs: seq<Descriptor>, sorted: seq<Digest>, sizes: map<Digest, nat>, source: Files,
                         before: Files, mid: Files, limit: nat, i: nat, k: nat, heeding: bool)
    requires PlanReady(truth, descs, sorted, sizes, source) && Sorted(sorted)
    requires limit >= 1 && i < |sorted| && k < |sorted| && i != k
    requires PoolUntouched(before, mid) && FinalKey(sorted[k]) !in before
    requires forall n :: 0 <= n < |sorted| && n != k ==> FinalKey(sorted[n]) in source && truth(sorted[n]) != []
    ensures var job := Job(BlobIter(sorted, sizes, source), false, limit);
      (exists schedule ::
        (heeding ==> Heeds(job, mid, schedule)) && Overtaken(job, Exec(job, Start(mid), schedule).files, i, k)) <==>
      CanOvertake(truth, before, SetOf(sorted), sorted[i], sorted[k], limit, heeding)
  {
    hide Exec, Transferable, DigestSet, HonestDescriptors, SizeOf, LexLeq, Sorted, Heeds, ComesNext, PartDone, StartAt;
    var job := Job(BlobIter(sorted, sizes, source), false, limit);
    BlobIterHonest(truth, descs, sorted, sizes, source);
    forall n | 0 <= n < |sorted| && n != k ensures Transferable(mid, job.ups[n]) {
      ServedIsTransferable(truth, source, mid, descs, sorted, sizes, n);
    }
    var m := sorted[i];
    assert ValidDigest(job.ups[i].digest) && ValidDigest(job.ups[k].digest);
    assert ViewOf(mid, m) == ViewOf(before, m) && ViewOf(mid, sorted[k]) == ViewOf(before, sorted[k]);
    StartsComplete(truth, job.ups[i], before);
    OrderOf(sorted, i, k);
    NextOf(sorted, i, k);
    OvertakesIff(job, mid, i, k, heeding);
  }

  /** The receiver, cut off after both tag files, claims `lost` without having it. */
  ghost predicate CutClaims(codec: Codec, mirror: Mirror, source: Files, before: Files, ref: ImageRef, has: set<Digest>,
                            limit: nat, lost: Digest, now: Files)
    requires RelDumpDir(ref).Ok? && ReadManifest(codec, source, RelDumpDir(ref).value).Ok?
    requires DocsOf(mirror, codec, source, ref).Some?
  {
    && LeavesBlobs(codec, source, Tagged(before, ref, DocsOf(mirror, codec, source, ref).value, 2), ref, has, limit, now)
    && lost in Closure(codec, now, RelDumpDir(ref).value) && FinalKey(lost) !in now
  }

  /** With the source's index, the closure is claimed exactly if the manifest is in place. */
  lemma ClaimIsManifest(truth: Truth, codec: Codec, source: Files, now: Files, dir: string, d: Digest)
    requires SoundPool(truth, source) && SoundPool(truth, now) && ReadIndex(codec, now, dir) == ReadIndex(codec, source, dir)
    requires ReadManifest(codec, source, dir).Ok? && d in Closure(codec, source, dir)
    requires ValidDigest(ReadManifest(codec, source, dir).value.0.digest)
    ensures d in Closure(codec, now, dir) <==> FinalKey(ReadManifest(codec, source, dir).value.0.digest) in now
  {
    hide ReadIndex, ParseManifest, DigestSet;
    var m := ReadManifest(codec, source, dir).value.0.digest;
    if FinalKey(m) in now { SameManifest(truth, codec, source, now, dir); }
  }

  /** What a transfer can leave after its tag files, and how it reads. */
  lemma BlobsRead(truth: Truth, codec: Codec, mirror: Mirror, source: Files, before: Files, ref: ImageRef, has: set<Digest>,
                  limit: nat, now: Files)
    requires Ready(truth, codec, mirror, source, before, ref, limit)
    requires LeavesBlobs(codec, source, Tagged(before, ref, DocsOf(mirror, codec, source, ref).value, 2), ref, has, limit, now)
    ensures ReadIndex(codec, now, RelDumpDir(ref).value) == ReadIndex(codec, source, RelDumpDir(ref).value)
    ensures SoundPool(truth, now) && Leaves(codec, mirror, source, before, ref, has, limit, now) && GoodPool(truth, now)
    ensures PoolSafe(truth, Tagged(before, ref, DocsOf(mirror, codec, source, ref).value, 2), now)
  {
    hide ReadManifest, ReadIndex, RelDumpDir, DocsOf, Tagged, HonestImage, TagFile, TagDir, PoolSafe, SoundPool, LeavesBlobs, ImageFrame;
    var mid := Tagged(before, ref, DocsOf(mirror, codec, source, ref).value, 2);
    TaggedIndex(codec, mirror, source, before, ref);
    BlobsKeepIndex(truth, codec, mirror, source, before, mid, ref, has, limit, now);
    LeavesFrame(truth, codec, mirror, source, before, ref, has, limit, now);
    FrameIsGood(truth, before, now, ref);
  }

  /**
    A transfer of an honest image, from any good store that lacks a planned blob, can be
    cut off so that the store claims the blob without having it, exactly if the manifest
    can overtake that blob.
   */
  lemma CutClaimsIff(truth: Truth, codec: Codec, mirror: Mirror, source: Files, before: Files, ref: ImageRef,
                     has: set<Digest>, limit: nat, lost: Digest)
    requires Ready(truth, codec, mirror, source, before, ref, limit)
    requires RelDumpDir(ref).Ok? && ReadManifest(codec, source, RelDumpDir(ref).value).Ok?
    requires var (mDesc, man) := ReadManifest(codec, source, RelDumpDir(ref).value).value;
      lost in All(mDesc, man) - Skipped(mDesc, man, has) && mDesc.digest != lost
    requires FinalKey(lost) !in before
    ensures var (mDesc, man) := ReadManifest(codec, source, RelDumpDir(ref).value).value;
      (exists now :: CutClaims(codec, mirror, source, before, ref, has, limit, lost, now)) <==>
      CanOvertake(truth, before, All(mDesc, man) - Skipped(mDesc, man, has), mDesc.digest, lost, limit, false)
  {
    hide Ready, ReadManifest, RelDumpDir, CanOvertake, DigestSet, SetOf, Tagged, DocsOf, CutClaims;
    ReadyDocs(truth, codec, mirror, source, before, ref, limit);
    if now :| CutClaims(codec, mirror, source, before, ref, has, limit, lost, now) {
      ClaimNeedsOvertaking(truth, codec, mirror, source, before, ref, has, limit, lost, now);
    }
    var (mDesc, man) := ReadManifest(codec, source, RelDumpDir(ref).value).value;
    if CanOvertake(truth, before, All(mDesc, man) - Skipped(mDesc, man, has), mDesc.digest, lost, limit, false) {
      var now := CutOfPlan(truth, codec, mirror, source, before, ref, has, limit, lost);
    }
  }

  lemma ReadyDocs(truth: Truth, codec: Codec, mirror: Mirror, source: Files, before: Files, ref: ImageRef, limit: nat)
    requires Ready(truth, codec, mirror, source, before, ref, limit)
    ensures DocsOf(mirror, codec, source, ref).Some?
  {
  }

  /** The positions of manifest and lost blob in a plan, and what the plan's job needs. */
  lemma PlanPlaces(truth: Truth, codec: Codec, mirror: Mirror, source: Files, before: Files, ref: ImageRef, limit: nat,
                   p: ShipPlan, mDesc: Descriptor, man: Manifest, has: set<Digest>, lost: Digest) returns (i: nat, k: nat)
    requires Ready(truth, codec, mirror, source, before, ref, limit)
    requires ImageIs(codec, source, ref, mDesc, man) && IsPlan(p, mDesc, man, has)
    requires lost in All(mDesc, man) - Skipped(mDesc, man, has)
    ensures i < |p.sorted| && k < |p.sorted| && p.sorted[i] == mDesc.digest && p.sorted[k] == lost
    ensures PlanReady(truth, AllDescriptors(mDesc, man), p.sorted, p.sizes, source)
    ensures forall n :: 0 <= n < |p.sorted| ==>
      ValidDigest(p.sorted[n]) && FinalKey(p.sorted[n]) in source && truth(p.sorted[n]) != []
  {
    hide Ready, ReadManifest, RelDumpDir, DigestSet, HonestImage, IsPlan, SetOf, PlanReady;
    PlanIsServed(truth, codec, mirror, source, before, ref, limit, p, mDesc, man, has);
    PlanMembers(mDesc, man, has, p);
    i :| 0 <= i < |p.sorted| && p.sorted[i] == mDesc.digest;
    k :| 0 <= k < |p.sorted| && p.sorted[k] == lost;
  }

  lemma PlanMembers(mDesc: Descriptor, man: Manifest, has: set<Digest>, p: ShipPlan)
    requires IsPlan(p, mDesc, man, has)
    ensures mDesc.digest in p.sorted
    ensures forall d :: d in p.sorted <==> d in All(mDesc, man) - Skipped(mDesc, man, has)
  {
    hide DigestSet, SizeOf, SetOf;
    ManifestInClosure(mDesc, man);
    SetOfMembers(p.sorted);
  }

  lemma PlanIsServed(truth: Truth, codec: Codec, mirror: Mirror, source: Files, before: Files, ref: ImageRef, limit: nat,
                     p: ShipPlan, mDesc: Descriptor, man: Manifest, has: set<Digest>)
    requires Ready(truth, codec, mirror, source, before, ref, limit)
    requires ImageIs(codec, source, ref, mDesc, man) && IsPlan(p, mDesc, man, has)
    ensures PlanReady(truth, AllDescriptors(mDesc, man), p.sorted, p.sizes, source)
    ensures forall n :: 0 <= n < |p.sorted| ==>
      ValidDigest(p.sorted[n]) && FinalKey(p.sorted[n]) in source && truth(p.sorted[n]) != []
  {
    hide ReadManifest, RelDumpDir, DigestSet, HonestImage, IsPlan, GoodPool, DocsOf, TagFile, TagDir, PlanReady, RoundTrips, ValidDigest;
    PlanIsReady(truth, codec, source, RelDumpDir(ref).value, p, mDesc, man, has);
    ClosureIsValid(truth, codec, source, ref, mDesc, man);
    ClosureIsAll(codec, source, RelDumpDir(ref).value, mDesc, man);
    PlanMembers(mDesc, man, has, p);
    forall n | 0 <= n < |p.sorted|
      ensures ValidDigest(p.sorted[n]) && FinalKey(p.sorted[n]) in source && truth(p.sorted[n]) != []
    {
      assert p.sorted[n] in All(mDesc, man) by { assert p.sorted[n] in p.sorted; }
    }
  }

  lemma ReadyMid(truth: Truth, codec: Codec, mirror: Mirror, source: Files, before: Files, ref: ImageRef, limit: nat)
    requires Ready(truth, codec, mirror, source, before, ref, limit)
    ensures PoolUntouched(before, Tagged(before, ref, DocsOf(mirror, codec, source, ref).value, 2))
    ensures limit >= 1 && TagDir(ref).Some?
  {
    hide Tagged, DocsOf, PoolUntouched;
    TaggedIsGood(truth, before, ref, DocsOf(mirror, codec, source, ref).value, 2);
  }

  /** A state that claims the lost blob has the manifest. */
  lemma ClaimShowsManifest(truth: Truth, codec: Codec, mirror: Mirror, source: Files, before: Files, ref: ImageRef,
                           has: set<Digest>, limit: nat, mDesc: Descriptor, man: Manifest, lost: Digest, now: Files)
    requires Ready(truth, codec, mirror, source, before, ref, limit) && ImageIs(codec, source, ref, mDesc, man)
    requires lost in All(mDesc, man) && ValidDigest(mDesc.digest)
    requires LeavesBlobs(codec, source, Tagged(before, ref, DocsOf(mirror, codec, source, ref).value, 2), ref, has, limit, now)
    ensures lost in Closure(codec, now, RelDumpDir(ref).value) <==> FinalKey(mDesc.digest) in now
  {
    hide Ready, ReadManifest, ReadIndex, RelDumpDir, DigestSet, Tagged, DocsOf, LeavesBlobs, GoodPool, SoundPool, PoolSafe, Leaves, Closure;
    BlobsRead(truth, codec, mirror, source, before, ref, has, limit, now);
    SourceClosureIs(truth, codec, mirror, source, before, ref, limit, mDesc, man);
    ClaimIsManifest(truth, codec, source, now, RelDumpDir(ref).value, lost);
  }

  lemma ClaimNeedsOvertaking(truth: Truth, codec: Codec, mirror: Mirror, source: Files, before: Files, ref: ImageRef,
                             has: set<Digest>, limit: nat, lost: Digest, now: Files)
    requires Ready(truth, codec, mirror, source, before, ref, limit)
    requires RelDumpDir(ref).Ok? && ReadManifest(codec, source, RelDumpDir(ref).value).Ok?
    requires var (mDesc, man) := ReadManifest(codec, source, RelDumpDir(ref).value).value;
      lost in All(mDesc, man) - Skipped(mDesc, man, has) && mDesc.digest != lost
    requires FinalKey(lost) !in before
    requires DocsOf(mirror, codec, source, ref).Some? && CutClaims(codec, mirror, source, before, ref, has, limit, lost, now)
    ensures var (mDesc, man) := ReadManifest(codec, source, RelDumpDir(ref).value).value;
      CanOvertake(truth, before, All(mDesc, man) - Skipped(mDesc, man, has), mDesc.digest, lost, limit, false)
  {
    hide Ready, ReadManifest, RelDumpDir, CanOvertake, DigestSet, SetOf, Tagged, DocsOf, Exec, Heeds, PoolUntouched, PlanReady,
      TagDir, Closure, BlobIter, FinalKey, SizeOf;
    var mid := Tagged(before, ref, DocsOf(mirror, codec, source, ref).value, 2);
    var (mDesc, man) := ReadManifest(codec, source, RelDumpDir(ref).value).value;
    var p, schedule :| IsPlan(p, mDesc, man, has) && now == AfterBlobs(p, source, mid, limit, schedule);
    var i, k := PlanPlaces(truth, codec, mirror, source, before, ref, limit, p, mDesc, man, has, lost);
    assert ValidDigest(p.sorted[i]);
    ReadyMid(truth, codec, mirror, source, before, ref, limit);
    ClaimShowsManifest(truth, codec, mirror, source, before, ref, has, limit, mDesc, man, lost, now);
    OvertakenIs(p, source, mid, limit, schedule, i, k);
    PlanOvertakesIff(truth, AllDescriptors(mDesc, man), p.sorted, p.sizes, source, before, mid, limit, i, k, false);
  }

  /** Overtaking, told by the keys of the pool. */
  lemma OvertakenIs(p: ShipPlan, source: Files, mid: Files, limit: nat, schedule: seq<Choice>, i: nat, k: nat)
    requires i < |p.sorted| && k < |p.sorted|
    ensures var job, now := Job(BlobIter(p.sorted, p.sizes, source), false, limit), AfterBlobs(p, source, mid, limit, schedule);
      && i < |job.ups| && k < |job.ups|
      && (Overtaken(job, Exec(job, Start(mid), schedule).files, i, k) <==>
           FinalKey(p.sorted[i]) in now && FinalKey(p.sorted[k]) !in now)
  {
    hide Exec;
  }

  lemma SourceClosureIs(truth: Truth, codec: Codec, mirror: Mirror, source: Files, before: Files, ref: ImageRef, limit: nat,
                        mDesc: Descriptor, man: Manifest)
    requires Ready(truth, codec, mirror, source, before, ref, limit) && ImageIs(codec, source, ref, mDesc, man)
    ensures Closure(codec, source, RelDumpDir(ref).value) == All(mDesc, man) && SoundPool(truth, source)
  {
    hide ReadManifest, RelDumpDir, SoundPool;
    ClosureIsAll(codec, source, RelDumpDir(ref).value, mDesc, man);
  }

  /** A state in which the manifest has overtaken the lost blob. */
  lemma CutOfPlan(truth: Truth, codec: Codec, mirror: Mirror, source: Files, before: Files, ref: ImageRef,
                  has: set<Digest>, limit: nat, lost: Digest) returns (now: Files)
    requires Ready(truth, codec, mirror, source, before, ref, limit)
    requires RelDumpDir(ref).Ok? && ReadManifest(codec, source, RelDumpDir(ref).value).Ok?
    requires var (mDesc, man) := ReadManifest(codec, source, RelDumpDir(ref).value).value;
      && lost in All(mDesc, man) - Skipped(mDesc, man, has) && mDesc.digest != lost
      && CanOvertake(truth, before, All(mDesc, man) - Skipped(mDesc, man, has), mDesc.digest, lost, limit, false)
    requires FinalKey(lost) !in before
    ensures DocsOf(mirror, codec, source, ref).Some? && CutClaims(codec, mirror, source, before, ref, has, limit, lost, now)
  {
    hide Ready, ReadManifest, RelDumpDir, CanOvertake, DigestSet, SetOf, Tagged, DocsOf, Exec, Heeds, PoolUntouched, PlanReady,
      TagDir, Closure, BlobIter, FinalKey, SizeOf, IsPlan;
    ReadyDocs(truth, codec, mirror, source, before, ref, limit);
    var mid := Tagged(before, ref, DocsOf(mirror, codec, source, ref).value, 2);
    var (mDesc, man) := ReadManifest(codec, source, RelDumpDir(ref).value).value;
    var p := PlanExists(mDesc, man, has);
    var i, k := PlanPlaces(truth, codec, mirror, source, before, ref, limit, p, mDesc, man, has, lost);
    assert ValidDigest(p.sorted[i]);
    ReadyMid(truth, codec, mirror, source, before, ref, limit);
    PlanSorted(p, mDesc, man, has);
    PlanOvertakesIff(truth, AllDescriptors(mDesc, man), p.sorted, p.sizes, source, before, mid, limit, i, k, false);
    var job := Job(BlobIter(p.sorted, p.sizes, source), false, limit);
    var schedule :| Overtaken(job, Exec(job, Start(mid), schedule).files, i, k);
    now := AfterBlobs(p, source, mid, limit, schedule);
    OvertakenIs(p, source, mid, limit, schedule, i, k);
    assert LeavesBlobs(codec, source, mid, ref, has, limit, now);
    ClaimShowsManifest(truth, codec, mirror, source, before, ref, has, limit, mDesc, man, lost, now);
  }

  lemma PlanSorted(p: ShipPlan, mDesc: Descriptor, man: Manifest, has: set<Digest>)
    requires IsPlan(p, mDesc, man, has)
    ensures Sorted(p.sorted) && SetOf(p.sorted) == All(mDesc, man) - Skipped(mDesc, man, has)
  {
  }

  /** And then a listing of the receiver, whichever directories it knows, claims the lost blob. */
  lemma CutClaimsLost(truth: Truth, codec: Codec, mirror: Mirror, source: Files, before: Files, dirs: set<Key>, ref: ImageRef,
                      has: set<Digest>, limit: nat, lost: Digest) returns (now: Files)
    requires Ready(truth, codec, mirror, source, before, ref, limit) && Canonical(ref) && DotFree(ref)
    requires RelDumpDir(ref).Ok? && ReadManifest(codec, source, RelDumpDir(ref).value).Ok?
    requires var (mDesc, man) := ReadManifest(codec, source, RelDumpDir(ref).value).value;
      && lost in All(mDesc, man) - Skipped(mDesc, man, has) && mDesc.digest != lost
      && CanOvertake(truth, before, All(mDesc, man) - Skipped(mDesc, man, has), mDesc.digest, lost, limit, false)
    requires FinalKey(lost) !in before
    ensures Leaves(codec, mirror, source, before, ref, has, limit, now)
    ensures InSomeClosure(codec, now, dirs, {}, lost) && FinalKey(lost) !in now && GoodPool(truth, now)
  {
    hide Ready, ReadManifest, RelDumpDir, CanOvertake, DigestSet, Tagged, DocsOf, LeavesBlobs, InSomeClosure, Canonical, DotFree,
      GoodPool, Leaves, Closure, PoolSafe, SoundPool;
    now := CutOfPlan(truth, codec, mirror, source, before, ref, has, limit, lost);
    BlobsRead(truth, codec, mirror, source, before, ref, has, limit, now);
    ListedClosure(codec, now, dirs, ref, lost);
  }

  /** A closure that can be read at a dump directory is among those a listing claims. */
  lemma ListedClosure(codec: Codec, files: Files, dirs: set<Key>, ref: ImageRef, d: Digest)
    requires Canonical(ref) && DotFree(ref) && RelDumpDir(ref).Ok? && d in Closure(codec, files, RelDumpDir(ref).value)
    ensures InSomeClosure(codec, files, dirs, {}, d)
  {
    hide ReadManifest, RelDumpDir, DigestSet, KnownDir, IsDump, Canonical, DotFree, DumpNames;
    RelDumpDirIsNames(ref);
    TagPlaces(ref);
    IndexAtPlace(codec, files, ref);
    DumpIsThere(files, dirs, ref);
    assert IsDump(files, dirs, DumpNames(ref)) && DumpPath(DumpNames(ref)) == RelDumpDir(ref).value;
  }

  lemma ClosureIsValid(truth: Truth, codec: Codec, source: Files, ref: ImageRef, mDesc: Descriptor, man: Manifest)
    requires ImageIs(codec, source, ref, mDesc, man) && HonestImage(truth, codec, source, RelDumpDir(ref).value)
    ensures forall d :: d in All(mDesc, man) ==> ValidDigest(d)
  {
    hide ReadManifest, RelDumpDir;
    ClosureValid(truth, mDesc, man);
  }

  lemma IndexAtPlace(codec: Codec, files: Files, ref: ImageRef)
    requires RelDumpDir(ref).Ok? && ReadManifest(codec, files, RelDumpDir(ref).value).Ok?
    ensures TagFile(ref, "index.json").Some? && TagFile(ref, "index.json").value in files
  {
  }

  lemma DumpIsThere(files: Files, dirs: set<Key>, ref: ImageRef)
    requires Canonical(ref) && DumpNames(ref) + ["index.json"] in files
    ensures IsDump(files, dirs, DumpNames(ref))
  {
    hide DumpNames, Canonical, EndsAtMarker;
    DumpNamesShaped(ref);
    assert DumpNames(ref) < DumpNames(ref) + ["index.json"];
  }

  /**
    With such a false claim in its have-set, the next transfer of the image can run to its
    end without any fault and leave an image that cannot be loaded.  (The claim comes from
    a layout store, whose load step has nothing to do: the transfer reports success.)
   */
  lemma FalseClaimMisleads(truth: Truth, codec: Codec, mirror: Mirror, source: Files, before: Files, ref: ImageRef,
                           has: set<Digest>, limit: nat, lost: Digest) returns (now: Files)
    requires Ready(truth, codec, mirror, source, before, ref, limit)
    requires RelDumpDir(ref).Ok? && ReadManifest(codec, source, RelDumpDir(ref).value).Ok?
    requires var (mDesc, man) := ReadManifest(codec, source, RelDumpDir(ref).value).value;
      lost in All(mDesc, man) && lost !in Pinned(mDesc, man)
    requires lost in has && FinalKey(lost) !in before
    ensures Leaves(codec, mirror, source, before, ref, has, limit, now)
    ensures Shipped(truth, codec, source, before, now, ref, has) && !Loadable(truth, codec, now, ref)
  {
    hide Ready, ReadManifest, RelDumpDir, Loadable, Leaves, DigestSet;
    now := DeliveryExists(truth, codec, mirror, source, before, ref, has, limit);
    var (mDesc, man) := ReadManifest(codec, source, RelDumpDir(ref).value).value;
    assert lost in Skipped(mDesc, man, has);
  }

  /** The next transfer, under any have-set that makes the claim, can load what is not there. */
  ghost predicate NextMisled(truth: Truth, codec: Codec, mirror: Mirror, source: Files, now: Files, ref: ImageRef, limit: nat,
                             lost: Digest)
  {
    forall has: set<Digest> :: lost in has ==> exists later ::
      && Leaves(codec, mirror, source, now, ref, has, limit, later)
      && Shipped(truth, codec, source, now, later, ref, has) && !Loadable(truth, codec, later, ref)
  }

  /**
    Put together: from any good store that lacks a layer of an honest image, a transfer of
    that image cut off after its manifest makes the store claim the layer, and the next
    transfer, which believes it, ends without error over an image that cannot be loaded.
   */
  lemma CutMisleadsNext(truth: Truth, codec: Codec, mirror: Mirror, source: Files, before: Files, dirs: set<Key>, ref: ImageRef,
                        has: set<Digest>, limit: nat, lost: Digest) returns (now: Files)
    requires Ready(truth, codec, mirror, source, before, ref, limit) && Canonical(ref) && DotFree(ref)
    requires RelDumpDir(ref).Ok? && ReadManifest(codec, source, RelDumpDir(ref).value).Ok?
    requires var (mDesc, man) := ReadManifest(codec, source, RelDumpDir(ref).value).value;
      && lost in All(mDesc, man) - Skipped(mDesc, man, has) - Pinned(mDesc, man)
      && CanOvertake(truth, before, All(mDesc, man) - Skipped(mDesc, man, has), mDesc.digest, lost, limit, false)
    requires FinalKey(lost) !in before
    ensures Leaves(codec, mirror, source, before, ref, has, limit, now)
    ensures InSomeClosure(codec, now, dirs, {}, lost) && FinalKey(lost) !in now
    ensures NextMisled(truth, codec, mirror, source, now, ref, limit, lost)
  {
    hide GoodPool, Mirrorable, SourceServes, DocsOf, TagFile, TagDir, ReadManifest, RelDumpDir, Loadable, Leaves, DigestSet,
      Shipped, InSomeClosure, Canonical, DotFree, CanOvertake, FinalKey;
    now := CutClaimsLost(truth, codec, mirror, source, before, dirs, ref, has, limit, lost);
    forall next: set<Digest> | lost in next
      ensures exists later ::
        && Leaves(codec, mirror, source, now, ref, next, limit, later)
        && Shipped(truth, codec, source, now, later, ref, next) && !Loadable(truth, codec, later, ref)
    {
      var later := FalseClaimMisleads(truth, codec, mirror, source, now, ref, next, limit, lost);
    }
  }
}
