/**
  Push and pull: for every image derive the closure, diff it against the have-set taken at
  the start, mirror the tag files, ship the missing blobs, load.
 */
module PushPull {
  import opened Base
  import opened SlashPath
  import opened Digests
  import opened Transfer
  import opened Workers
  import opened ImageRefs
  import opened Layout
  import opened Vfs
  import opened OciDirs
  import opened OciImage
  import opened Inventory
  import opened Plan
  import opened Ship

  // ------------------------------------------------------------------- foreign outcomes

  /** What the external dump of an image into the local layout leaves. */
  datatype Dump = DumpFailed(files: Files) | Dumped(files: Files)

  /** What the foreign programs answer for one image: dump, raw manifest, load. */
  datatype Outcome = Outcome(dump: Dump, raw: Option<Bytes>, loads: bool)

  /** The closure of a readable image is honest, and its blobs at hand hold their content. */
  ghost predicate HonestImage(truth: Truth, codec: Codec, files: Files, dir: string)
  {
    && SoundPool(truth, files)
    && (ReadManifest(codec, files, dir).Ok? ==>
         var (mDesc, man) := ReadManifest(codec, files, dir).value;
         HonestDescriptors(truth, AllDescriptors(mDesc, man)))
  }

  ghost predicate LawfulDump(truth: Truth, codec: Codec, out: Outcome, ref: ImageRef)
  {
    out.dump.Dumped? && RelDumpDir(ref).Ok? ==> HonestImage(truth, codec, out.dump.files, RelDumpDir(ref).value)
  }

  datatype ImageError =
    | BadReference(parse: ParseError)
    | DumpError
    | ManifestError
    | TagSyncError
    | PutBlobsError
    | LoadError

  /** An error of the delivery itself; with any other the receiver is never touched. */
  predicate InDelivery(e: ImageError)
  {
    e.TagSyncError? || e.PutBlobsError? || e.LoadError?
  }

  datatype Report = Report(ref: ImageRef, sent: nat, reused: nat, bytes: nat, dryRun: bool, err: Option<ImageError>)

  datatype RunResult = RunResult(reports: seq<Report>, failed: nat)

  datatype RunError = Invalid | EnumerateFailed | Cancelled | ImageFailed(err: ImageError)

  /** One call of the load step: the image and the files it finds. */
  datatype Load = Load(ref: ImageRef, files: Files, cancelled: bool)

  datatype Args = Args(
    images: seq<string>,
    dryRun: bool,
    assumeSet: Option<set<Digest>>,
    assumeList: seq<Digest>,
    keepGoing: bool)

  /**
    One side of a transfer; `isLayout` if its live store is the layout itself.  `loads`
    remembers every call of its load step.
   */
  class Endpoint {
    const dir: FsOciDirs
    const readOnly: bool
    const configured: bool
    const isLayout: bool
    ghost var loads: seq<Load>

    constructor (dir: FsOciDirs, readOnly: bool, configured: bool, isLayout: bool)
      ensures this.dir == dir && this.readOnly == readOnly && this.configured == configured && this.isLayout == isLayout
      ensures loads == []
    {
      this.dir, this.readOnly, this.configured, this.isLayout := dir, readOnly, configured, isLayout;
      loads := [];
    }

    /**
      Tells this side to load `ref` from its layout.  A layout store has nothing to do and
      reports success, whatever it holds; otherwise an external copy works or not.
     */
    method LoadImage(ctx: Context, ref: ImageRef, works: bool) returns (ok: bool)
      modifies this`loads
      ensures loads == old(loads) + [Load(ref, dir.fs.files, ctx.done)]
      ensures ok == (isLayout || works)
    {
      loads := loads + [Load(ref, dir.fs.files, ctx.done)];
      if isLayout { return true; }
      return works;
    }
  }

  // ------------------------------------------------------------------------- the plan

  function Pinned(mDesc: Descriptor, man: Manifest): set<Digest>
  {
    {mDesc.digest, man.config.digest}
  }

  function All(mDesc: Descriptor, man: Manifest): set<Digest>
  {
    DigestSet(AllDescriptors(mDesc, man))
  }

  /** The closure digests a run does not ship because the have-set lists them. */
  function Skipped(mDesc: Descriptor, man: Manifest, has: set<Digest>): set<Digest>
  {
    All(mDesc, man) * has - Pinned(mDesc, man)
  }

  datatype ShipPlan = ShipPlan(all: set<Digest>, sorted: seq<Digest>, sizes: map<Digest, nat>)

  ghost predicate IsPlan(p: ShipPlan, mDesc: Descriptor, man: Manifest, has: set<Digest>)
  {
    && p.all == All(mDesc, man)
    && NoneTwice(p.sorted) && Sorted(p.sorted)
    && SetOf(p.sorted) == All(mDesc, man) - Skipped(mDesc, man, has)
    && |p.sorted| == |SetOf(p.sorted)|
    && forall d :: SizeIn(p.sizes, d) == SizeOf(AllDescriptors(mDesc, man), d)
  }

  method MakePlan(mDesc: Descriptor, man: Manifest, has: set<Digest>) returns (p: ShipPlan)
    ensures IsPlan(p, mDesc, man, has)
    ensures mDesc.digest in p.sorted && man.config.digest in p.sorted
    ensures forall d :: d in p.sorted <==> MustShip(mDesc, man, has, d)
    ensures forall d :: Announces(mDesc, man, d, SizeIn(p.sizes, d))
  {
    var descs := AllDescriptors(mDesc, man);
    var all := DescriptorDigestSet(descs);
    var sizes := DescriptorSizes(descs);
    var pinned := {mDesc.digest, man.config.digest};
    var toSend := MapKeyDiff(all, has, pinned);
    var sorted := SortedDigests(toSend);
    ManifestInClosure(mDesc, man);
    SetOfMembers(sorted);
    SetOfSize(sorted);
    assert SetOf(sorted) == toSend;
    p := ShipPlan(all, sorted, sizes);
    PlanExactly(p, mDesc, man, has);
    forall d ensures Announces(mDesc, man, d, SizeIn(p.sizes, d)) { SizeAnnounced(mDesc, man, d); }
  }

  /** A digest of the image that is shipped: manifest and config always, a layer if it is not listed as had. */
  predicate MustShip(mDesc: Descriptor, man: Manifest, has: set<Digest>, d: Digest)
  {
    || d == mDesc.digest
    || d == man.config.digest
    || (d !in has && exists i :: 0 <= i < |man.layers| && man.layers[i].digest == d)
  }

  predicate LayerSays(man: Manifest, d: Digest, i: nat)
    requires i < |man.layers|
  {
    man.layers[i].digest == d && man.layers[i].size > 0
  }

  /** The image's size of a digest: the last layer with one has its say, then the config, then the manifest. */
  predicate Announces(mDesc: Descriptor, man: Manifest, d: Digest, size: nat)
  {
    if exists i :: 0 <= i < |man.layers| && LayerSays(man, d, i) then
      exists i :: 0 <= i < |man.layers| && LastLayerSays(man, d, i) && size == man.layers[i].size
    else if man.config.digest == d && man.config.size > 0 then size == man.config.size
    else if mDesc.digest == d && mDesc.size > 0 then size == mDesc.size
    else size == 0
  }

  predicate LastLayerSays(man: Manifest, d: Digest, i: nat)
    requires i < |man.layers|
  {
    LayerSays(man, d, i) && forall j :: i < j < |man.layers| ==> !LayerSays(man, d, j)
  }

  lemma {:induction false} LastLayer(man: Manifest, d: Digest, i: nat) returns (k: nat)
    requires i < |man.layers| && LayerSays(man, d, i)
    ensures k < |man.layers| && LastLayerSays(man, d, k)
    decreases |man.layers| - i
  {
    if j: nat :| i < j < |man.layers| && LayerSays(man, d, j) {
      k := LastLayer(man, d, j);
    } else {
      k := i;
    }
  }

  /** The sizes of a plan are the ones announced. */
  lemma SizeAnnounced(mDesc: Descriptor, man: Manifest, d: Digest)
    ensures Announces(mDesc, man, d, SizeOf(AllDescriptors(mDesc, man), d))
  {
    hide SizeOf;
    var descs := AllDescriptors(mDesc, man);
    assert descs[0] == mDesc && descs[1] == man.config;
    assert forall i :: 0 <= i < |man.layers| ==> descs[i + 2] == man.layers[i];
    if i :| 0 <= i < |man.layers| && LayerSays(man, d, i) {
      var k := LastLayer(man, d, i);
      forall j | k + 2 < j < |descs| && descs[j].digest == d ensures descs[j].size <= 0 {
        assert !LayerSays(man, d, j - 2);
      }
      SizeOfLast(descs, d, k + 2);
    } else {
      forall j | 2 <= j < |descs| && descs[j].digest == d ensures descs[j].size <= 0 {
        assert !LayerSays(man, d, j - 2);
      }
      if man.config.digest == d && man.config.size > 0 {
        SizeOfLast(descs, d, 1);
      } else if mDesc.digest == d && mDesc.size > 0 {
        SizeOfLast(descs, d, 0);
      } else {
        SizeOfNone(descs, d);
      }
    }
  }

  /** Every plan lists exactly what must be shipped. */
  lemma PlanExactly(p: ShipPlan, mDesc: Descriptor, man: Manifest, has: set<Digest>)
    requires IsPlan(p, mDesc, man, has)
    ensures forall d :: d in p.sorted <==> MustShip(mDesc, man, has, d)
    ensures NoneTwice(p.sorted) && forall i, j :: 0 <= i < j < |p.sorted| ==> LexLeq(p.sorted[i], p.sorted[j])
  {
    hide DigestSet, SizeOf, AllDescriptors;
    SetOfMembers(p.sorted);
    forall d ensures d in p.sorted <==> MustShip(mDesc, man, has, d) {
      ClosureMembers(mDesc, man, d);
    }
  }

  /** What a run skips: the layers listed as had, manifest and config never. */
  lemma SkippedExactly(mDesc: Descriptor, man: Manifest, has: set<Digest>, d: Digest)
    ensures d in Skipped(mDesc, man, has) <==>
      && d in has && d != mDesc.digest && d != man.config.digest
      && exists i :: 0 <= i < |man.layers| && man.layers[i].digest == d
  {
    hide DigestSet, AllDescriptors;
    ClosureMembers(mDesc, man, d);
  }

  lemma SetOfMembers(sorted: seq<Digest>)
    ensures forall d :: d in SetOf(sorted) <==> d in sorted
  {
  }

  lemma {:induction false} SetOfSize(sorted: seq<Digest>)
    requires NoneTwice(sorted)
    ensures |SetOf(sorted)| == |sorted|
    decreases |sorted|
  {
    if sorted != [] {
      var n := |sorted| - 1;
      var front := sorted[..n];
      SetOfSize(front);
      assert sorted == front + [sorted[n]];
      SetOfMembers(sorted);
      SetOfMembers(front);
      assert sorted[n] !in front;
      assert SetOf(sorted) == SetOf(front) + {sorted[n]};
    }
  }

  lemma OneMoreCounted(all: set<Digest>, left: set<Digest>, sent: set<Digest>, d: Digest)
    requires left <= all && d in left
    ensures |all - (left - {d}) - sent| == |all - left - sent| + if d in sent then 0 else 1
  {
    var counted := all - left - sent;
    if d in sent {
      assert all - (left - {d}) - sent == counted;
    } else {
      assert all - (left - {d}) - sent == counted + {d};
    }
  }

  /** Counts the closure digests that are not shipped. */
  method CountReused(p: ShipPlan) returns (n: nat)
    ensures n == |p.all - SetOf(p.sorted)|
  {
    hide SetOf;
    ghost var sent := SetOf(p.sorted);
    SetOfMembers(p.sorted);
    n := 0;
    var left := p.all;
    assert p.all - left - sent == {};
    while left != {}
      invariant left <= p.all
      invariant n == |p.all - left - sent|
      decreases left
    {
      var d :| d in left;
      OneMoreCounted(p.all, left, sent, d);
      left := left - {d};
      if d !in p.sorted {
        n := n + 1;
      }
    }
    assert p.all - left == p.all;
  }

  function PlannedBytes(sorted: seq<Digest>, sizes: map<Digest, nat>): nat
  {
    if sorted == [] then 0
    else PlannedBytes(sorted[..|sorted| - 1], sizes) + SizeIn(sizes, sorted[|sorted| - 1])
  }

  method SumPlanned(sorted: seq<Digest>, sizes: map<Digest, nat>) returns (bytes: nat)
    ensures bytes == PlannedBytes(sorted, sizes)
  {
    bytes := 0;
    var i := 0;
    while i < |sorted|
      invariant 0 <= i <= |sorted|
      invariant bytes == PlannedBytes(sorted[..i], sizes)
    {
      ghost var front := sorted[..i + 1];
      assert front[..|front| - 1] == sorted[..i];
      bytes := bytes + SizeIn(sizes, sorted[i]);
      i := i + 1;
    }
    assert sorted[..|sorted|] == sorted;
  }

  /** Over an honest closure the planned bytes are the sizes of the contents. */
  lemma {:induction false} PlannedBytesHonest(truth: Truth, descs: seq<Descriptor>, sorted: seq<Digest>, sizes: map<Digest, nat>)
    requires HonestDescriptors(truth, descs) && NoneTwice(sorted)
    requires forall d :: d in sorted ==> d in DigestSet(descs)
    requires forall d :: SizeIn(sizes, d) == SizeOf(descs, d)
    ensures PlannedBytes(sorted, sizes) == SumSizes(truth, SetOf(sorted))
    decreases |sorted|
  {
    hide DigestSet;
    SetOfMembers(sorted);
    if sorted != [] {
      var n := |sorted| - 1;
      var front, d := sorted[..n], sorted[n];
      SetOfMembers(front);
      assert sorted == front + [d];
      assert d in sorted && d !in front;
      PlannedBytesHonest(truth, descs, front, sizes);
      HonestSize(truth, descs, d);
      assert SetOf(sorted) == SetOf(front) + {d};
      SumSizesRemove(truth, SetOf(sorted), d);
      assert SetOf(sorted) - {d} == SetOf(front);
    }
  }

  // -------------------------------------------------------------------- what shipping does

  /** Everything that may change at the receiving side while one image is processed. */
  ghost predicate ImageFrame(truth: Truth, before: Files, files: Files, ref: ImageRef)
  {
    && GoodPool(truth, files)
    && KeepsBlobs(truth, before, files)
    && OnlyTagFilesOf(before, files, ref)
  }

  lemma FrameOfTags(truth: Truth, before: Files, files: Files, ref: ImageRef)
    requires GoodPool(truth, before) && TagFrame(before, files, ref)
    ensures ImageFrame(truth, before, files, ref)
  {
    forall d | ValidDigest(d) ensures ViewOf(files, d) == ViewOf(before, d) {
    }
    assert SoundPool(truth, files) by {
      forall d | ValidDigest(d)
        ensures Lookup(files, FinalKey(d)) == None || Lookup(files, FinalKey(d)) == Some(truth(d))
      {
        assert ViewOf(files, d) == ViewOf(before, d);
      }
    }
    forall d | ValidDigest(d) && Lookup(before, FinalKey(d)) == Some(truth(d))
      ensures Lookup(files, FinalKey(d)) == Some(truth(d))
    {
      assert ViewOf(files, d) == ViewOf(before, d);
    }
  }

  lemma FrameOfShip(truth: Truth, before: Files, mid: Files, files: Files, ref: ImageRef)
    requires ImageFrame(truth, before, mid, ref) && PoolSafe(truth, mid, files)
    ensures ImageFrame(truth, before, files, ref)
  {
    hide PoolSafe, GoodPool, KeepsBlobs;
    SafeKeepsGood(truth, mid, files);
    SafeKeepsBlobs(truth, mid, files);
    KeepsTransitive(truth, before, mid, files);
    forall k: Key | !IsPoolKey(k) ensures Lookup(files, k) == Lookup(mid, k) {
      PoolSafeOutside(truth, mid, files, k);
    }
  }

  lemma KeepsTransitive(truth: Truth, a: Files, b: Files, c: Files)
    requires KeepsBlobs(truth, a, b) && KeepsBlobs(truth, b, c)
    ensures KeepsBlobs(truth, a, c)
  {
  }

  /** The image of `ref` at the source. */
  ghost predicate ImageIs(codec: Codec, source: Files, ref: ImageRef, mDesc: Descriptor, man: Manifest)
  {
    RelDumpDir(ref).Ok? && ReadManifest(codec, source, RelDumpDir(ref).value) == Ok((mDesc, man))
  }

  /**
    After an image was shipped: the receiver reads the same manifest as the source, holds
    everything that was not skipped, and can load the image exactly if the skipped blobs
    were there before.
   */
  ghost predicate Shipped(truth: Truth, codec: Codec, source: Files, before: Files, files: Files, ref: ImageRef, has: set<Digest>)
  {
    && RelDumpDir(ref).Ok?
    && var dir := RelDumpDir(ref).value;
      && ReadManifest(codec, source, dir).Ok?
      && ReadManifest(codec, files, dir) == ReadManifest(codec, source, dir)
      && var (mDesc, man) := ReadManifest(codec, source, dir).value;
        && (forall d :: d in All(mDesc, man) ==> ValidDigest(d))
        && Held(truth, files, All(mDesc, man) - Skipped(mDesc, man, has))
        && (Loadable(truth, codec, files, ref) <==> Held(truth, before, Skipped(mDesc, man, has)))
  }

  /** What an image added to the receiver's pool. */
  ghost predicate Delivered(truth: Truth, before: Files, files: Files, sentNow: set<Digest>)
  {
    && (forall d :: d in sentNow ==> Lookup(before, FinalKey(d)).None?)
    && Held(truth, files, sentNow)
  }

  /** Facts about the receiver between the tag files and the load. */
  ghost predicate ShipFacts(truth: Truth, before: Files, files: Files, sorted: seq<Digest>)
  {
    && (forall d :: ValidDigest(d) && d !in sorted ==> ViewOf(files, d) == ViewOf(before, d))
    && Held(truth, files, SetOf(sorted))
  }

  lemma ShippedFromFacts(truth: Truth, codec: Codec, source: Files, before: Files, files: Files, ref: ImageRef,
                         has: set<Digest>, p: ShipPlan, mDesc: Descriptor, man: Manifest)
    requires ImageIs(codec, source, ref, mDesc, man) && HonestImage(truth, codec, source, RelDumpDir(ref).value)
    requires IsPlan(p, mDesc, man, has) && ShipFacts(truth, before, files, p.sorted)
    requires ReadIndex(codec, files, RelDumpDir(ref).value) == ReadIndex(codec, source, RelDumpDir(ref).value)
    requires DumpFile(files, RelDumpDir(ref).value, "oci-layout").Some?
    ensures Shipped(truth, codec, source, before, files, ref, has)
  {
    hide DumpFile, ReadIndex, ReadManifest, DigestSet, HonestDescriptors, SizeOf, ViewOf, Closure, RelDumpDir;
    var dir := RelDumpDir(ref).value;
    ManifestInClosure(mDesc, man);
    SetOfMembers(p.sorted);
    assert mDesc.digest in SetOf(p.sorted);
    SameManifest(truth, codec, source, files, dir);
    ClosureIsAll(codec, files, dir, mDesc, man);
    ClosureValid(truth, mDesc, man);
    SkippedStay(truth, before, files, p.sorted, Skipped(mDesc, man, has));
    HeldSplit(truth, files, All(mDesc, man), Skipped(mDesc, man, has), SetOf(p.sorted));
  }

  lemma ClosureIsAll(codec: Codec, files: Files, dir: string, mDesc: Descriptor, man: Manifest)
    requires ReadManifest(codec, files, dir) == Ok((mDesc, man))
    ensures Closure(codec, files, dir) == All(mDesc, man)
  {
  }

  /** What was not shipped is held afterwards exactly if it was held before. */
  lemma SkippedStay(truth: Truth, before: Files, files: Files, sorted: seq<Digest>, skipped: set<Digest>)
    requires ShipFacts(truth, before, files, sorted)
    requires forall d :: d in skipped ==> ValidDigest(d) && d !in sorted
    ensures Held(truth, files, skipped) <==> Held(truth, before, skipped)
  {
    forall d | d in skipped ensures Lookup(files, FinalKey(d)) == Lookup(before, FinalKey(d)) {
      assert ViewOf(files, d) == ViewOf(before, d);
    }
  }

  lemma HeldSplit(truth: Truth, files: Files, all: set<Digest>, skipped: set<Digest>, sent: set<Digest>)
    requires Held(truth, files, sent) && sent == all - skipped && skipped <= all
    ensures Held(truth, files, all) <==> Held(truth, files, skipped)
  {
    assert forall d :: d in all ==> d in sent || d in skipped;
  }

  lemma SameManifest(truth: Truth, codec: Codec, source: Files, files: Files, dir: string)
    requires SoundPool(truth, source) && ReadManifest(codec, source, dir).Ok?
    requires ReadIndex(codec, files, dir) == ReadIndex(codec, source, dir)
    requires var d := ReadManifest(codec, source, dir).value.0.digest; Lookup(files, FinalKey(d)) == Some(truth(d))
    ensures ReadManifest(codec, files, dir) == ReadManifest(codec, source, dir)
  {
    hide ReadIndex, ParseManifest;
  }

  lemma ClosureValid(truth: Truth, mDesc: Descriptor, man: Manifest)
    requires HonestDescriptors(truth, AllDescriptors(mDesc, man))
    ensures forall e :: e in All(mDesc, man) ==> ValidDigest(e)
  {
  }

  lemma PlanIsReady(truth: Truth, codec: Codec, source: Files, dir: string, p: ShipPlan, mDesc: Descriptor, man: Manifest, has: set<Digest>)
    requires HonestImage(truth, codec, source, dir) && ReadManifest(codec, source, dir) == Ok((mDesc, man))
    requires IsPlan(p, mDesc, man, has)
    ensures PlanReady(truth, AllDescriptors(mDesc, man), p.sorted, p.sizes, source)
  {
    hide DigestSet, ReadManifest, HonestDescriptors;
    SetOfMembers(p.sorted);
  }

  lemma Conservation(p: ShipPlan, mDesc: Descriptor, man: Manifest, has: set<Digest>)
    requires IsPlan(p, mDesc, man, has)
    ensures p.all - SetOf(p.sorted) == Skipped(mDesc, man, has)
    ensures |p.all| == |Skipped(mDesc, man, has)| + |p.sorted|
  {
    var skipped := Skipped(mDesc, man, has);
    assert p.all == skipped + SetOf(p.sorted);
    assert p.all - SetOf(p.sorted) == skipped;
  }

  /** The receiver after tag files (`mid`) and blobs (`files`), for a plan. */
  ghost predicate ShippedBlobs(truth: Truth, mid: Files, files: Files, sorted: seq<Digest>)
  {
    && PoolSafe(truth, mid, files)
    && (forall d :: ValidDigest(d) && d !in sorted ==> ViewOf(files, d) == ViewOf(mid, d))
    && Held(truth, files, SetOf(sorted))
  }

  lemma FactsAcross(truth: Truth, before: Files, mid: Files, files: Files, sorted: seq<Digest>)
    requires PoolUntouched(before, mid) && ShippedBlobs(truth, mid, files, sorted)
    ensures ShipFacts(truth, before, files, sorted)
  {
    hide ViewOf, Held, SetOf, PoolSafe;
  }

  /** Tag files make no difference to which blobs are missing. */
  lemma AbsentAcross(before: Files, mid: Files, ds: set<Digest>)
    requires PoolUntouched(before, mid) && forall d :: d in ds ==> ValidDigest(d)
    ensures Absent(mid, ds) == Absent(before, ds)
  {
    forall d | d in ds ensures Lookup(mid, FinalKey(d)) == Lookup(before, FinalKey(d)) {
      assert ViewOf(mid, d) == ViewOf(before, d);
    }
  }

  lemma IndexAcross(truth: Truth, codec: Codec, mid: Files, files: Files, ref: ImageRef)
    requires PoolSafe(truth, mid, files) && RelDumpDir(ref).Ok?
    ensures ReadIndex(codec, files, RelDumpDir(ref).value) == ReadIndex(codec, mid, RelDumpDir(ref).value)
    ensures DumpFile(files, RelDumpDir(ref).value, "oci-layout") == DumpFile(mid, RelDumpDir(ref).value, "oci-layout")
  {
    hide PoolSafe, RelDumpDir, DumpFile;
    ShipKeepsTagFiles(truth, mid, files, ref);
    assert IsTagFile("index.json") && IsTagFile("oci-layout");
  }

  /** From the tag files and the shipped blobs to the image as a whole. */
  lemma AfterShip(truth: Truth, codec: Codec, source: Files, before: Files, mid: Files, files: Files, ref: ImageRef,
                  has: set<Digest>, p: ShipPlan, mDesc: Descriptor, man: Manifest)
    requires ImageIs(codec, source, ref, mDesc, man) && HonestImage(truth, codec, source, RelDumpDir(ref).value)
    requires IsPlan(p, mDesc, man, has)
    requires PoolUntouched(before, mid) && ShippedBlobs(truth, mid, files, p.sorted)
    requires ReadIndex(codec, mid, RelDumpDir(ref).value) == ReadIndex(codec, source, RelDumpDir(ref).value)
    requires DumpFile(mid, RelDumpDir(ref).value, "oci-layout").Some?
    ensures Shipped(truth, codec, source, before, files, ref, has)
  {
    hide DumpFile, ReadManifest, ReadIndex, ViewOf, HonestImage, RelDumpDir, Shipped, IsPlan, ShipFacts, PoolUntouched, PoolSafe;
    FactsAcross(truth, before, mid, files, p.sorted);
    IndexAcross(truth, codec, mid, files, ref);
    ShippedFromFacts(truth, codec, source, before, files, ref, has, p, mDesc, man);
  }

  /** What the first `n` of a plan, shipped, add to the receiver's pool and to the counts. */
  lemma FirstDelivered(truth: Truth, before: Files, mid: Files, files: Files, sorted: seq<Digest>, n: nat, res: Tally)
    returns (sentNow: set<Digest>)
    requires PoolUntouched(before, mid) && n <= |sorted| && ShippedFirst(truth, mid, files, sorted, n, res)
    ensures Delivered(truth, before, files, sentNow)
    ensures sentNow <= Absent(before, SetOf(sorted))
    ensures n == |sorted| ==> sentNow == Absent(before, SetOf(sorted)) && Held(truth, files, SetOf(sorted))
    ensures res.sent == |sentNow| && res.bytesSent == SumSizes(truth, sentNow) && res.sent + res.reused == n
  {
    hide SumSizes, ViewOf;
    AbsentAcross(before, mid, SetOf(sorted[..n]));
    sentNow := Absent(before, SetOf(sorted[..n]));
    assert forall d :: d in SetOf(sorted[..n]) ==> d in SetOf(sorted) by {
      forall d | d in SetOf(sorted[..n]) ensures d in SetOf(sorted) {
        var i :| 0 <= i < n && sorted[..n][i] == d;
        assert sorted[i] == d;
      }
    }
    if n == |sorted| { assert sorted[..n] == sorted; }
  }

  method MirrorTags(mirror: Mirror, source: Fs, ref: ImageRef, dst: FsOciDirs, codec: Codec)
    returns (ok: bool, ghost steps: nat)
    requires source != dst.fs && (mirror.Reencoded? ==> RoundTrips(codec))
    requires RelDumpDir(ref).Ok? && ReadIndex(codec, source.files, RelDumpDir(ref).value).Ok?
    modifies dst.fs, source`faulty
    ensures (old(dst.fs.faulty) ==> dst.fs.faulty) && (old(source.faulty) ==> source.faulty)
    ensures ok ==> dst.fs.faulty == old(dst.fs.faulty) && source.faulty == old(source.faulty)
    ensures !ok ==> dst.fs.faulty || source.faulty || TagDir(ref).None? || DocsOf(mirror, codec, source.files, ref).None?
    ensures ok ==> ReadIndex(codec, dst.fs.files, RelDumpDir(ref).value) == ReadIndex(codec, source.files, RelDumpDir(ref).value)
    ensures ok ==> DumpFile(dst.fs.files, RelDumpDir(ref).value, "oci-layout").Some?
    ensures ok ==> DocsOf(mirror, codec, source.files, ref).Some? && steps == 2
    ensures ok ==> TagDir(ref).Some? && TagDir(ref).value in dst.fs.dirs
    ensures LeavesTags(mirror, codec, source.files, old(dst.fs.files), ref, dst.fs.files, steps)
    ensures TagFrame(old(dst.fs.files), dst.fs.files, ref) && OnlyTagDirOf(old(dst.fs.dirs), dst.fs.dirs, ref)
  {
    hide DumpFile, RelDumpDir, TagDir, Tagged, TagFrame, OnlyTagDirOf, RoundTrips, SameTagFiles, ReadImageLayout;
    match mirror
    case Verbatim =>
      IndexFileThere(codec, source.files, RelDumpDir(ref).value);
      ok, steps := MirrorTagFiles(source, ref, dst, codec);
      if ok { SameTagsRead(codec, source.files, dst.fs.files, ref); }
    case Reencoded =>
      ghost var before := dst.fs.files;
      ok, steps := MirrorTagFilesFromPeer(codec, source, ref, dst);
      var docs := DocsOf(Reencoded, codec, source.files, ref);
      if docs.Some? { TaggedFrame(before, ref, docs.value, steps); } else { TagFrameSame(before, ref); }
      if ok { LayoutFileThere(codec, dst.fs.files, RelDumpDir(ref).value); }
  }

  lemma SameTagsRead(codec: Codec, source: Files, files: Files, ref: ImageRef)
    requires SameTagFiles(source, files, ref) && DocsOf(Verbatim, codec, source, ref).Some?
    ensures ReadIndex(codec, files, RelDumpDir(ref).value) == ReadIndex(codec, source, RelDumpDir(ref).value)
    ensures DumpFile(files, RelDumpDir(ref).value, "oci-layout").Some?
  {
    hide DumpFile, RelDumpDir;
    assert IsTagFile("index.json") && IsTagFile("oci-layout");
  }

  lemma LayoutFileThere(codec: Codec, files: Files, dir: string)
    requires ReadImageLayout(codec, files, dir).Ok?
    ensures DumpFile(files, dir, "oci-layout").Some?
  {
  }

  lemma IndexFileThere(codec: Codec, files: Files, dir: string)
    requires ReadIndex(codec, files, dir).Ok?
    ensures DumpFile(files, dir, "index.json").Some?
  {
  }

  // --------------------------------------------------- everything a transfer may leave

  /** The receiver after some of the tag file writes; nothing is written without both files. */
  predicate LeavesTags(mirror: Mirror, codec: Codec, source: Files, before: Files, ref: ImageRef, now: Files, steps: nat)
  {
    match DocsOf(mirror, codec, source, ref)
    case None => now == before
    case Some(docs) => steps <= 2 && now == Tagged(before, ref, docs, steps)
  }

  /** The receiver somewhere in the transfer of the plan's blobs, under some schedule. */
  ghost predicate LeavesBlobs(codec: Codec, source: Files, mid: Files, ref: ImageRef, has: set<Digest>, limit: nat, now: Files)
    requires RelDumpDir(ref).Ok? && ReadManifest(codec, source, RelDumpDir(ref).value).Ok?
  {
    var (mDesc, man) := ReadManifest(codec, source, RelDumpDir(ref).value).value;
    exists p, schedule :: IsPlan(p, mDesc, man, has) && now == AfterBlobs(p, source, mid, limit, schedule)
  }

  function AfterBlobs(p: ShipPlan, source: Files, mid: Files, limit: nat, schedule: seq<Choice>): Files
  {
    Exec(Job(BlobIter(p.sorted, p.sizes, source), false, limit), Start(mid), schedule).files
  }

  /**
    Everything a transfer of `ref` from `source` can leave, wherever and why ever it ends:
    none, one or both tag files, or both and the blobs as far as some schedule brought them.
   */
  ghost predicate Leaves(codec: Codec, mirror: Mirror, source: Files, before: Files, ref: ImageRef, has: set<Digest>,
                         limit: nat, now: Files)
  {
    && RelDumpDir(ref).Ok? && ReadManifest(codec, source, RelDumpDir(ref).value).Ok?
    && ((exists steps :: LeavesTags(mirror, codec, source, before, ref, now, steps))
        || (DocsOf(mirror, codec, source, ref).Some? && TagDir(ref).Some?
            && LeavesBlobs(codec, source, Tagged(before, ref, DocsOf(mirror, codec, source, ref).value, 2), ref, has, limit, now)))
  }

  lemma LeavesAfterBlobs(codec: Codec, mirror: Mirror, source: Files, before: Files, mid: Files, ref: ImageRef,
                         has: set<Digest>, limit: nat, p: ShipPlan, mDesc: Descriptor, man: Manifest, schedule: seq<Choice>)
    requires ImageIs(codec, source, ref, mDesc, man) && IsPlan(p, mDesc, man, has) && TagDir(ref).Some?
    requires DocsOf(mirror, codec, source, ref).Some? && mid == Tagged(before, ref, DocsOf(mirror, codec, source, ref).value, 2)
    ensures Leaves(codec, mirror, source, before, ref, has, limit, AfterBlobs(p, source, mid, limit, schedule))
  {
    hide IsPlan, AfterBlobs, ReadManifest, RelDumpDir, DocsOf, Tagged, TagDir;
    assert LeavesBlobs(codec, source, mid, ref, has, limit, AfterBlobs(p, source, mid, limit, schedule));
  }

  /** The mutating half of one image: tag files, then blobs, then load. */
  method DeliverImage(mirror: Mirror, source: Fs, dst: Endpoint, has: set<Digest>, ref: ImageRef, p: ShipPlan,
                      mDesc: Descriptor, man: Manifest, loads: bool, ctx: Context, codec: Codec, ghost truth: Truth)
    returns (res: Tally, err: Option<ImageError>, ghost sentNow: set<Digest>)
    requires source != dst.dir.fs && dst.dir.limit >= 1 && (mirror.Reencoded? ==> RoundTrips(codec))
    requires ImageIs(codec, source.files, ref, mDesc, man)
    requires HonestImage(truth, codec, source.files, RelDumpDir(ref).value)
    requires IsPlan(p, mDesc, man, has) && GoodPool(truth, dst.dir.fs.files)
    modifies dst.dir.fs, dst`loads, ctx, source`faulty
    ensures old(ctx.done) ==> ctx.done
    ensures (old(dst.dir.fs.faulty) ==> dst.dir.fs.faulty) && (old(source.faulty) ==> source.faulty)
    ensures err.None? || err == Some(LoadError) ==>
      dst.dir.fs.faulty == old(dst.dir.fs.faulty) && source.faulty == old(source.faulty)
    ensures err == Some(TagSyncError) && !dst.dir.fs.faulty && !source.faulty ==>
      TagDir(ref).None? || DocsOf(mirror, codec, source.files, ref).None?
    ensures err == Some(PutBlobsError) && !dst.dir.fs.faulty && !ctx.done ==>
      Stuck(old(dst.dir.fs.files), p.sorted, p.sizes, source.files)
    ensures ImageFrame(truth, old(dst.dir.fs.files), dst.dir.fs.files, ref)
    ensures OnlyTagDirOf(old(dst.dir.fs.dirs), dst.dir.fs.dirs, ref)
    ensures Leaves(codec, mirror, source.files, old(dst.dir.fs.files), ref, has, dst.dir.limit, dst.dir.fs.files)
    ensures dst.loads == old(dst.loads) || dst.loads == old(dst.loads) + [Load(ref, dst.dir.fs.files, ctx.done)]
    ensures dst.loads != old(dst.loads) <==> err.None? || err == Some(LoadError)
    ensures err.Some? ==> InDelivery(err.value)
    ensures err.None? ==> dst.isLayout || loads
    ensures err == Some(LoadError) ==> !dst.isLayout && !loads
    ensures err == Some(TagSyncError) ==> PoolUntouched(old(dst.dir.fs.files), dst.dir.fs.files)
    ensures err == Some(PutBlobsError) ==>
      ReadIndex(codec, dst.dir.fs.files, RelDumpDir(ref).value) == ReadIndex(codec, source.files, RelDumpDir(ref).value)
    ensures dst.loads == old(dst.loads) ==> res == Tally(0, 0, 0) && sentNow == {}
    ensures Delivered(truth, old(dst.dir.fs.files), dst.dir.fs.files, sentNow)
    ensures sentNow <= Absent(old(dst.dir.fs.files), SetOf(p.sorted))
    ensures res.sent == |sentNow| && res.bytesSent == SumSizes(truth, sentNow)
    ensures dst.loads != old(dst.loads) ==> TagDir(ref).Some? && TagDir(ref).value in dst.dir.fs.dirs
    ensures dst.loads != old(dst.loads) && !ctx.done ==>
      && Shipped(truth, codec, source.files, old(dst.dir.fs.files), dst.dir.fs.files, ref, has)
      && sentNow == Absent(old(dst.dir.fs.files), SetOf(p.sorted))
      && res.sent + res.reused == |p.sorted|
  {
    hide DumpFile, ReadManifest, ReadIndex, ViewOf, DigestSet, HonestImage, RelDumpDir, Shipped, SumSizes, IsPlan, Exec, Leaves,
      ImageFrame, Delivered, PoolUntouched, OnlyTagFilesOf, DocsOf, Tagged, TagDir, PlanReady, PoolSafe, ShippedFirst, GoodPool, Stuck;
    ghost var before := dst.dir.fs.files;
    sentNow := {};
    NothingDelivered(truth, before, p.sorted);
    ReadableIndex(codec, source.files, RelDumpDir(ref).value);
    var ok; ghost var steps;
    ok, steps := MirrorTags(mirror, source, ref, dst.dir, codec);
    ghost var mid := dst.dir.fs.files;
    FrameOfTags(truth, before, mid, ref);
    NothingDelivered(truth, before, p.sorted);
    LeavesMid(codec, mirror, source.files, before, ref, has, dst.dir.limit, mid, steps);
    DeliveredNone(truth, before, mid);
    TagFrameUntouched(before, mid, ref);
    if !ok { return Tally(0, 0, 0), Some(TagSyncError), {}; }

    PlanIsReady(truth, codec, source.files, RelDumpDir(ref).value, p, mDesc, man, has);
    FrameIsGood(truth, before, mid, ref);
    var failed; ghost var n; ghost var schedule;
    res, failed, n, schedule := ShipBlobs(dst.dir, ctx, source, p.sorted, p.sizes, truth, AllDescriptors(mDesc, man));
    FrameOfShip(truth, before, mid, dst.dir.fs.files, ref);
    IndexAcross(truth, codec, mid, dst.dir.fs.files, ref);
    StuckAcross(before, mid, p.sorted, p.sizes, source.files);
    DeliveredNone(truth, before, dst.dir.fs.files);
    LeavesAfterBlobs(codec, mirror, source.files, before, mid, ref, has, dst.dir.limit, p, mDesc, man, schedule);
    if failed { return Tally(0, 0, 0), Some(PutBlobsError), {}; }
    sentNow := FirstDelivered(truth, before, mid, dst.dir.fs.files, p.sorted, n, res);
    if !ctx.done {
      AfterShip(truth, codec, source.files, before, mid, dst.dir.fs.files, ref, has, p, mDesc, man);
    }
    ok := dst.LoadImage(ctx, ref, loads);
    err := if ok then None else Some(LoadError);
  }

  lemma NothingDelivered(truth: Truth, before: Files, sorted: seq<Digest>)
    ensures {} <= Absent(before, SetOf(sorted)) && SumSizes(truth, {}) == 0
  {
  }

  lemma DeliveredNone(truth: Truth, before: Files, files: Files)
    ensures Delivered(truth, before, files, {})
  {
  }

  lemma ReadableIndex(codec: Codec, files: Files, dir: string)
    requires ReadManifest(codec, files, dir).Ok?
    ensures ReadIndex(codec, files, dir).Ok?
  {
  }

  lemma TagFrameUntouched(before: Files, files: Files, ref: ImageRef)
    requires TagFrame(before, files, ref)
    ensures PoolUntouched(before, files)
  {
  }

  lemma FrameIsGood(truth: Truth, before: Files, files: Files, ref: ImageRef)
    requires ImageFrame(truth, before, files, ref)
    ensures GoodPool(truth, files)
  {
  }

  lemma LeavesMid(codec: Codec, mirror: Mirror, source: Files, before: Files, ref: ImageRef, has: set<Digest>,
                  limit: nat, mid: Files, steps: nat)
    requires LeavesTags(mirror, codec, source, before, ref, mid, steps)
    requires RelDumpDir(ref).Ok? && ReadManifest(codec, source, RelDumpDir(ref).value).Ok?
    ensures Leaves(codec, mirror, source, before, ref, has, limit, mid)
  {
    hide ReadManifest, RelDumpDir, LeavesTags;
  }

  // ------------------------------------------------------------------------ spelled out

  /** A layer the have-set lists, and neither the manifest nor the config, was in place before. */
  predicate SkippedLayerThere(truth: Truth, before: Files, mDesc: Descriptor, man: Manifest, has: set<Digest>, i: nat)
    requires i < |man.layers|
  {
    var d := man.layers[i].digest;
    (d in has && d != mDesc.digest && d != man.config.digest) ==> InPlace(truth, before, d)
  }

  lemma HeldSkipped(truth: Truth, before: Files, mDesc: Descriptor, man: Manifest, has: set<Digest>)
    ensures Held(truth, before, Skipped(mDesc, man, has)) <==>
      forall i :: 0 <= i < |man.layers| ==> SkippedLayerThere(truth, before, mDesc, man, has, i)
  {
    hide DigestSet, AllDescriptors, ValidDigest, FinalKey, Skipped;
    if Held(truth, before, Skipped(mDesc, man, has)) {
      forall i | 0 <= i < |man.layers| ensures SkippedLayerThere(truth, before, mDesc, man, has, i) {
        SkippedExactly(mDesc, man, has, man.layers[i].digest);
      }
    }
    if forall i :: 0 <= i < |man.layers| ==> SkippedLayerThere(truth, before, mDesc, man, has, i) {
      forall d | d in Skipped(mDesc, man, has) ensures ValidDigest(d) && Lookup(before, FinalKey(d)) == Some(truth(d)) {
        SkippedExactly(mDesc, man, has, d);
        var i :| 0 <= i < |man.layers| && man.layers[i].digest == d;
        assert SkippedLayerThere(truth, before, mDesc, man, has, i);
      }
    }
  }

  /**
    Of a shipped image the receiver has manifest and config whatever the have-set claims,
    and every layer the have-set does not list; it can load the image exactly if the other
    layers were in place before.
   */
  lemma ShippedHolds(truth: Truth, codec: Codec, source: Files, before: Files, files: Files, ref: ImageRef, has: set<Digest>)
    requires Shipped(truth, codec, source, before, files, ref, has)
    ensures RelDumpDir(ref).Ok? && ReadManifest(codec, source, RelDumpDir(ref).value).Ok?
    ensures var (mDesc, man) := ReadManifest(codec, source, RelDumpDir(ref).value).value;
      && InPlace(truth, files, mDesc.digest) && InPlace(truth, files, man.config.digest)
      && (forall i :: 0 <= i < |man.layers| && man.layers[i].digest !in has ==> InPlace(truth, files, man.layers[i].digest))
      && (Loadable(truth, codec, files, ref) <==>
           forall i :: 0 <= i < |man.layers| ==> SkippedLayerThere(truth, before, mDesc, man, has, i))
  {
    hide RelDumpDir, ReadManifest, DigestSet, AllDescriptors, ValidDigest, FinalKey, Loadable;
    var (mDesc, man) := ReadManifest(codec, source, RelDumpDir(ref).value).value;
    forall d ensures d in All(mDesc, man) - Skipped(mDesc, man, has) <==> MustShip(mDesc, man, has, d) {
      ClosureMembers(mDesc, man, d);
    }
    HeldSkipped(truth, before, mDesc, man, has);
    assert MustShip(mDesc, man, has, mDesc.digest) && MustShip(mDesc, man, has, man.config.digest);
    forall i | 0 <= i < |man.layers| && man.layers[i].digest !in has ensures InPlace(truth, files, man.layers[i].digest) {
      assert MustShip(mDesc, man, has, man.layers[i].digest);
    }
  }
}
