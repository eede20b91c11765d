/** Whole push and pull runs over many images. */
module Runs {
  import opened Base
  import opened SlashPath
  import opened Digests
  import opened Transfer
  import opened Workers
  import opened ImageRefs
  import opened Layout
  import opened Vfs
  import opened OciDirs
  import opened OciImage
  import opened Inventory
  import opened Plan
  import opened Ship
  import opened PushPull
  import opened DumpWalk

  /** What a dry run reports for a manifest: the plan, with nothing sent. */
  ghost predicate ReportsPlan(rep: Report, mDesc: Descriptor, man: Manifest, has: set<Digest>)
  {
    exists p :: IsPlan(p, mDesc, man, has) && PlanReport(rep, p)
  }

  predicate PlanReport(rep: Report, p: ShipPlan)
  {
    && rep.sent == |p.sorted| && rep.bytes == PlannedBytes(p.sorted, p.sizes)
    && rep.reused == |p.all - SetOf(p.sorted)|
  }

  /** The planned digests that are to be sent: those the receiver has no final file for. */
  function ToSend(mDesc: Descriptor, man: Manifest, has: set<Digest>, before: Files): set<Digest>
  {
    Absent(before, All(mDesc, man) - Skipped(mDesc, man, has))
  }

  /** What a real run reports: as reused what it skipped, as sent what was not there. */
  ghost predicate ReportsRun(truth: Truth, rep: Report, mDesc: Descriptor, man: Manifest, has: set<Digest>, before: Files)
  {
    && rep.reused == |Skipped(mDesc, man, has)|
    && rep.sent == |ToSend(mDesc, man, has, before)|
    && rep.bytes == SumSizes(truth, ToSend(mDesc, man, has, before))
  }

  /**
    What a dry run of a push reports: nothing without the raw manifest or if it does not
    parse, else the plan for this manifest, itself counted under its hash and length.
   */
  ghost predicate DryOutcome(codec: Codec, raw: Option<Bytes>, rep: Report, has: set<Digest>)
  {
    match raw
    case None => rep.err == Some(DumpError) && CountsNothing(rep)
    case Some(data) =>
      match ParseManifest(codec, data)
      case Err(_) => rep.err == Some(ManifestError) && CountsNothing(rep)
      case Ok(man) =>
        rep.err.None? && ReportsPlan(rep, Descriptor(man.mediaType, codec.digestBytes(data), |data|), man, has)
  }

  predicate CountsNothing(rep: Report)
  {
    rep.sent == 0 && rep.reused == 0 && rep.bytes == 0
  }

  /** The external dump writes into the local layout. */
  method SkopeoCopy(fs: Fs, dump: Dump) returns (ok: bool)
    modifies fs`files
    ensures fs.files == dump.files && ok == dump.Dumped?
  {
    fs.files := dump.files;
    return dump.Dumped?;
  }

  /** Why a dump may not give a manifest, if no operation of the store failed. */
  predicate DumpExcused(codec: Codec, ref: ImageRef, dump: Dump)
  {
    TagDir(ref).None? || dump.DumpFailed? || ReadManifest(codec, dump.files, RelDumpDir(ref).value).Err?
  }

  /** Manifest and closure of an image to push: from a fresh dump, or inspected on a dry run. */
  method DumpAndDeriveClosure(dryRun: bool, fs: Fs, ref: ImageRef, out: Outcome, codec: Codec)
    returns (r: Result<(Descriptor, Manifest), ImageError>)
    modifies fs
    ensures (old(fs.faulty) ==> fs.faulty) && (r.Ok? ==> fs.faulty == old(fs.faulty))
    ensures dryRun ==> fs.files == old(fs.files) && fs.dirs == old(fs.dirs)
    ensures dryRun && out.raw.None? ==> r == Err(DumpError)
    ensures dryRun && out.raw.Some? && ParseManifest(codec, out.raw.value).Err? ==> r == Err(ManifestError)
    ensures dryRun && out.raw.Some? && ParseManifest(codec, out.raw.value).Ok? ==>
      var man := ParseManifest(codec, out.raw.value).value;
      r == Ok((Descriptor(man.mediaType, codec.digestBytes(out.raw.value), |out.raw.value|), man))
    ensures !dryRun && r.Ok? ==>
      fs.files == out.dump.files && out.dump.Dumped? && ImageIs(codec, fs.files, ref, r.value.0, r.value.1)
    ensures !dryRun && r.Err? ==> r.error == DumpError && (fs.faulty || DumpExcused(codec, ref, out.dump))
  {
    hide ReadManifest, RelDumpDir, ParseManifest;
    if dryRun {
      if out.raw.None? { return Err(DumpError); }
      var parsed := ParseManifest(codec, out.raw.value);
      if parsed.Err? { return Err(ManifestError); }
      var man := parsed.value;
      return Ok((Descriptor(man.mediaType, codec.digestBytes(out.raw.value), |out.raw.value|), man));
    }
    var rel := RelDumpDir(ref);
    if rel.Err? { return Err(DumpError); }
    var dir := KeyOf(rel.value);
    if dir.None? { return Err(DumpError); }
    var ok := fs.MkdirAll(dir.value);
    if !ok { return Err(DumpError); }
    ok := SkopeoCopy(fs, out.dump);
    if !ok { return Err(DumpError); }
    var read := LoadManifest(codec, fs, rel.value);
    if read.Err? { return Err(DumpError); }
    return Ok(read.value);
  }

  lemma NothingSent(truth: Truth, files: Files)
    ensures SumSizes(truth, {}) == 0 && Delivered(truth, files, files, {})
  {
  }

  /** One image from one side to the other, after its manifest is known. */
  method PlanAndDeliver(args: Args, mirror: Mirror, source: Fs, dst: Endpoint, has: set<Digest>, ref: ImageRef,
                        mDesc: Descriptor, man: Manifest, loads: bool, ctx: Context, codec: Codec, ghost truth: Truth)
    returns (rep: Report, ghost sentNow: set<Digest>)
    requires source != dst.dir.fs && dst.dir.limit >= 1 && (mirror.Reencoded? ==> RoundTrips(codec))
    requires !args.dryRun ==> ImageIs(codec, source.files, ref, mDesc, man)
    requires !args.dryRun ==> HonestImage(truth, codec, source.files, RelDumpDir(ref).value)
    requires GoodPool(truth, dst.dir.fs.files)
    modifies dst.dir.fs, dst`loads, ctx, source`faulty
    ensures (old(dst.dir.fs.faulty) ==> dst.dir.fs.faulty) && (old(source.faulty) ==> source.faulty)
    ensures args.dryRun || Loaded(rep) ==>
      dst.dir.fs.faulty == old(dst.dir.fs.faulty) && source.faulty == old(source.faulty)
    ensures rep.err.Some? && !dst.dir.fs.faulty && !source.faulty && !ctx.done ==>
      DeliveryExcused(codec, mirror, source.files, old(dst.dir.fs.files), ref, has, dst.isLayout || loads, rep.err.value)
    ensures !args.dryRun && !Loaded(rep) ==> rep.sent == 0 && rep.bytes == 0
    ensures rep.ref == ref && rep.dryRun == args.dryRun && rep.reused == |Skipped(mDesc, man, has)|
    ensures args.dryRun ==> dst.dir.fs.files == old(dst.dir.fs.files) && dst.dir.fs.dirs == old(dst.dir.fs.dirs)
    ensures args.dryRun ==> dst.loads == old(dst.loads) && ctx.done == old(ctx.done)
    ensures args.dryRun ==> rep.err == None && ReportsPlan(rep, mDesc, man, has)
    ensures old(ctx.done) ==> ctx.done
    ensures ImageFrame(truth, old(dst.dir.fs.files), dst.dir.fs.files, ref)
    ensures OnlyTagDirOf(old(dst.dir.fs.dirs), dst.dir.fs.dirs, ref)
    ensures !args.dryRun ==>
      Leaves(codec, mirror, source.files, old(dst.dir.fs.files), ref, has, dst.dir.limit, dst.dir.fs.files)
    ensures dst.loads == old(dst.loads) || dst.loads == old(dst.loads) + [Load(ref, dst.dir.fs.files, ctx.done)]
    ensures !args.dryRun ==> (dst.loads != old(dst.loads) <==> Loaded(rep))
    ensures !args.dryRun && rep.err.None? ==> dst.isLayout || loads
    ensures rep.err == Some(LoadError) ==> !dst.isLayout && !loads
    ensures rep.err.Some? ==> InDelivery(rep.err.value)
    ensures dst.loads != old(dst.loads) ==> TagDir(ref).Some? && TagDir(ref).value in dst.dir.fs.dirs
    ensures !args.dryRun ==> Counted(truth, rep, sentNow) && Delivered(truth, old(dst.dir.fs.files), dst.dir.fs.files, sentNow)
    ensures !args.dryRun && dst.loads == old(dst.loads) ==> sentNow == {}
    ensures dst.loads != old(dst.loads) && !ctx.done ==>
      && Shipped(truth, codec, source.files, old(dst.dir.fs.files), dst.dir.fs.files, ref, has)
      && sentNow == ToSend(mDesc, man, has, old(dst.dir.fs.files))
      && ReportsRun(truth, rep, mDesc, man, has, old(dst.dir.fs.files))
  {
    hide ReadManifest, RelDumpDir, DigestSet, SumSizes, SizeOf, PlannedBytes, HonestImage, DumpFile, ViewOf, Leaves, Shipped,
      Delivered, ImageFrame, TagDir, GoodPool, Stuck, DocsOf;
    var plan := MakePlan(mDesc, man, has);
    var reused := CountReused(plan);
    Conservation(plan, mDesc, man, has);
    rep := Report(ref, 0, reused, 0, args.dryRun, None);
    sentNow := {};
    if args.dryRun {
      FrameSame(truth, dst.dir.fs.files, ref);
      var bytes := SumPlanned(plan.sorted, plan.sizes);
      rep := rep.(sent := |plan.sorted|, bytes := bytes);
      assert PlanReport(rep, plan);
      return;
    }
    var res, err;
    res, err, sentNow := DeliverImage(mirror, source, dst, has, ref, plan, mDesc, man, loads, ctx, codec, truth);
    rep := rep.(sent := res.sent, bytes := res.bytesSent, err := err);
  }

  /** Why a delivery may fail, if no operation of the two stores failed and nobody cancelled. */
  ghost predicate DeliveryExcused(codec: Codec, mirror: Mirror, source: Files, before: Files, ref: ImageRef, has: set<Digest>,
                                  works: bool, e: ImageError)
  {
    match e
    case TagSyncError => TagDir(ref).None? || DocsOf(mirror, codec, source, ref).None?
    case PutBlobsError =>
      && RelDumpDir(ref).Ok? && ReadManifest(codec, source, RelDumpDir(ref).value).Ok?
      && var (mDesc, man) := ReadManifest(codec, source, RelDumpDir(ref).value).value;
         exists p :: IsPlan(p, mDesc, man, has) && Stuck(before, p.sorted, p.sizes, source)
    case LoadError => !works
    case _ => false
  }

  /** The source has all of the image: readable, both tag files, and every blob with its content. */
  ghost predicate Serves(truth: Truth, codec: Codec, mirror: Mirror, source: Files, ref: ImageRef)
  {
    && RelDumpDir(ref).Ok? && ReadManifest(codec, source, RelDumpDir(ref).value).Ok?
    && DocsOf(mirror, codec, source, ref).Some?
    && forall d :: d in Closure(codec, source, RelDumpDir(ref).value) ==> FinalKey(d) in source && truth(d) != []
  }

  /** A served image leaves a delivery no excuse but the load step's. */
  lemma ServedNoExcuse(truth: Truth, codec: Codec, mirror: Mirror, source: Files, before: Files, ref: ImageRef, has: set<Digest>,
                       works: bool, e: ImageError)
    requires Serves(truth, codec, mirror, source, ref) && TagDir(ref).Some? && works
    requires HonestImage(truth, codec, source, RelDumpDir(ref).value)
    ensures !DeliveryExcused(codec, mirror, source, before, ref, has, works, e)
  {
    hide ReadManifest, RelDumpDir, TagDir, DocsOf, IsPlan, Stuck, HonestImage, Closure;
    if e.PutBlobsError? {
      var (mDesc, man) := ReadManifest(codec, source, RelDumpDir(ref).value).value;
      forall p | IsPlan(p, mDesc, man, has) ensures !Stuck(before, p.sorted, p.sizes, source) {
        ServedNotStuck(truth, codec, mirror, source, before, ref, mDesc, man, has, p);
      }
    }
  }

  lemma ServedNotStuck(truth: Truth, codec: Codec, mirror: Mirror, source: Files, before: Files, ref: ImageRef,
                       mDesc: Descriptor, man: Manifest, has: set<Digest>, p: ShipPlan)
    requires Serves(truth, codec, mirror, source, ref) && HonestImage(truth, codec, source, RelDumpDir(ref).value)
    requires ImageIs(codec, source, ref, mDesc, man) && IsPlan(p, mDesc, man, has)
    ensures !Stuck(before, p.sorted, p.sizes, source)
  {
    hide ReadManifest, RelDumpDir, DocsOf, HonestImage, Transferable, PlanReady, SizeOf, DigestSet;
    PlanIsReady(truth, codec, source, RelDumpDir(ref).value, p, mDesc, man, has);
    ClosureIsAll(codec, source, RelDumpDir(ref).value, mDesc, man);
    SetOfMembers(p.sorted);
    forall i | 0 <= i < |p.sorted| ensures Transferable(before, BlobIter(p.sorted, p.sizes, source)[i]) {
      assert p.sorted[i] in p.sorted;
      ServedIsTransferable(truth, source, before, AllDescriptors(mDesc, man), p.sorted, p.sizes, i);
    }
  }

  lemma FrameSame(truth: Truth, files: Files, ref: ImageRef)
    requires GoodPool(truth, files)
    ensures ImageFrame(truth, files, files, ref)
  {
    TagFrameSame(files, ref);
    FrameOfTags(truth, files, files, ref);
  }

  /** The report of an image whose load step was called. */
  predicate Loaded(rep: Report)
  {
    rep.err.None? || rep.err == Some(LoadError)
  }

  /** What a real report counts as reused, whatever became of the image; nothing is sent before the load. */
  ghost predicate RealCounts(codec: Codec, source: Files, ref: ImageRef, rep: Report, has: set<Digest>)
  {
    if rep.err.Some? && !InDelivery(rep.err.value) then CountsNothing(rep)
    else
      && (!Loaded(rep) ==> rep.sent == 0 && rep.bytes == 0)
      && RelDumpDir(ref).Ok? && ReadManifest(codec, source, RelDumpDir(ref).value).Ok?
      && var (mDesc, man) := ReadManifest(codec, source, RelDumpDir(ref).value).value;
         rep.reused == |Skipped(mDesc, man, has)|
  }

  /** The report's counts are those of the blobs just sent. */
  ghost predicate Counted(truth: Truth, rep: Report, sentNow: set<Digest>)
  {
    rep.sent == |sentNow| && rep.bytes == SumSizes(truth, sentNow)
  }

  /** One image of a push. */
  method PushOne(args: Args, local: Endpoint, peer: Endpoint, has: set<Digest>, ref: ImageRef, out: Outcome,
                 ctx: Context, codec: Codec, ghost truth: Truth)
    returns (rep: Report, ghost sentNow: set<Digest>)
    requires local.dir.fs != peer.dir.fs && peer.dir.limit >= 1
    requires LawfulDump(truth, codec, out, ref) && GoodPool(truth, peer.dir.fs.files)
    modifies local.dir.fs, peer.dir.fs, peer`loads, ctx
    ensures (old(local.dir.fs.faulty) ==> local.dir.fs.faulty) && (old(peer.dir.fs.faulty) ==> peer.dir.fs.faulty)
    ensures rep.err.None? ==>
      local.dir.fs.faulty == old(local.dir.fs.faulty) && peer.dir.fs.faulty == old(peer.dir.fs.faulty)
    ensures !args.dryRun && rep.err.Some? && !local.dir.fs.faulty && !peer.dir.fs.faulty && !ctx.done ==>
      if InDelivery(rep.err.value)
      then DeliveryExcused(codec, Verbatim, out.dump.files, old(peer.dir.fs.files), ref, has, peer.isLayout || out.loads, rep.err.value)
      else rep.err == Some(DumpError) && DumpExcused(codec, ref, out.dump)
    ensures !args.dryRun ==> RealCounts(codec, out.dump.files, ref, rep, has)
    ensures rep.err.Some? ==> !rep.err.value.BadReference?
    ensures rep.ref == ref && rep.dryRun == args.dryRun
    ensures args.dryRun ==> local.dir.fs.files == old(local.dir.fs.files) && local.dir.fs.dirs == old(local.dir.fs.dirs)
    ensures args.dryRun ==> peer.dir.fs.files == old(peer.dir.fs.files) && peer.dir.fs.dirs == old(peer.dir.fs.dirs)
    ensures args.dryRun ==> peer.loads == old(peer.loads) && ctx.done == old(ctx.done)
    ensures args.dryRun ==> DryOutcome(codec, out.raw, rep, has)
    ensures old(ctx.done) ==> ctx.done
    ensures ImageFrame(truth, old(peer.dir.fs.files), peer.dir.fs.files, ref)
    ensures OnlyTagDirOf(old(peer.dir.fs.dirs), peer.dir.fs.dirs, ref)
    ensures rep.err.Some? && !InDelivery(rep.err.value) ==>
      && peer.dir.fs.files == old(peer.dir.fs.files) && peer.dir.fs.dirs == old(peer.dir.fs.dirs)
      && peer.loads == old(peer.loads)
    ensures !args.dryRun && (rep.err.None? || InDelivery(rep.err.value)) ==>
      Leaves(codec, Verbatim, local.dir.fs.files, old(peer.dir.fs.files), ref, has, peer.dir.limit, peer.dir.fs.files)
    ensures peer.loads == old(peer.loads) || peer.loads == old(peer.loads) + [Load(ref, peer.dir.fs.files, ctx.done)]
    ensures !args.dryRun ==> (peer.loads != old(peer.loads) <==> Loaded(rep))
    ensures !args.dryRun && (rep.err.None? || InDelivery(rep.err.value)) ==> local.dir.fs.files == out.dump.files
    ensures rep.err == Some(DumpError) || rep.err == Some(ManifestError) ==>
      peer.dir.fs.files == old(peer.dir.fs.files) && peer.loads == old(peer.loads)
    ensures peer.loads != old(peer.loads) ==> TagDir(ref).Some? && TagDir(ref).value in peer.dir.fs.dirs
    ensures !args.dryRun ==> Counted(truth, rep, sentNow) && Delivered(truth, old(peer.dir.fs.files), peer.dir.fs.files, sentNow)
    ensures !args.dryRun && peer.loads == old(peer.loads) ==> sentNow == {}
    ensures peer.loads != old(peer.loads) && !ctx.done ==>
      && Shipped(truth, codec, local.dir.fs.files, old(peer.dir.fs.files), peer.dir.fs.files, ref, has)
      && var (mDesc, man) := ReadManifest(codec, local.dir.fs.files, RelDumpDir(ref).value).value;
         && ReportsRun(truth, rep, mDesc, man, has, old(peer.dir.fs.files))
         && sentNow == ToSend(mDesc, man, has, old(peer.dir.fs.files))
  {
    hide ReadManifest, RelDumpDir, DigestSet, SumSizes, SizeOf, HonestDescriptors, HonestImage, DumpFile, ViewOf, ParseManifest,
      Leaves, Delivered, ImageFrame, TagDir, ReportsRun, ToSend, Skipped, GoodPool, Shipped, DumpExcused, DeliveryExcused, ReportsPlan;
    FrameSame(truth, peer.dir.fs.files, ref);
    NothingSent(truth, peer.dir.fs.files);
    var derived := DumpAndDeriveClosure(args.dryRun, local.dir.fs, ref, out, codec);
    if derived.Err? { return Report(ref, 0, 0, 0, args.dryRun, Some(derived.error)), {}; }
    var (mDesc, man) := derived.value;
    rep, sentNow := PlanAndDeliver(args, Verbatim, local.dir.fs, peer, has, ref, mDesc, man, out.loads, ctx, codec, truth);
    if peer.loads != old(peer.loads) && !ctx.done {
      ShippedIs(truth, codec, local.dir.fs.files, old(peer.dir.fs.files), peer.dir.fs.files, ref, has);
    }
  }

  lemma ShippedIs(truth: Truth, codec: Codec, source: Files, before: Files, files: Files, ref: ImageRef, has: set<Digest>)
    requires Shipped(truth, codec, source, before, files, ref, has)
    ensures RelDumpDir(ref).Ok? && ReadManifest(codec, source, RelDumpDir(ref).value).Ok?
    ensures ReadManifest(codec, files, RelDumpDir(ref).value) == ReadManifest(codec, source, RelDumpDir(ref).value)
  {
  }

  /** The peer has no image of `ref` that can be read. */
  predicate Unreadable(codec: Codec, source: Files, ref: ImageRef)
  {
    RelDumpDir(ref).Err? || ReadManifest(codec, source, RelDumpDir(ref).value).Err?
  }

  /** What a dry run of a pull reports for an image. */
  ghost predicate PullDry(codec: Codec, source: Files, ref: ImageRef, rep: Report, has: set<Digest>, faulty: bool)
  {
    if rep.err.None? then
      && !Unreadable(codec, source, ref)
      && var (mDesc, man) := ReadManifest(codec, source, RelDumpDir(ref).value).value; ReportsPlan(rep, mDesc, man, has)
    else rep.err == Some(ManifestError) && CountsNothing(rep) && (faulty || Unreadable(codec, source, ref))
  }

  /** One image of a pull: the peer's layout is only read. */
  method PullOne(args: Args, local: Endpoint, peer: Endpoint, has: set<Digest>, ref: ImageRef, out: Outcome,
                 ctx: Context, codec: Codec, ghost truth: Truth)
    returns (rep: Report, ghost sentNow: set<Digest>)
    requires local.dir.fs != peer.dir.fs && local.dir.limit >= 1 && RoundTrips(codec)
    requires RelDumpDir(ref).Ok? ==> HonestImage(truth, codec, peer.dir.fs.files, RelDumpDir(ref).value)
    requires GoodPool(truth, local.dir.fs.files)
    modifies local.dir.fs, local`loads, ctx, peer.dir.fs`faulty
    ensures (old(local.dir.fs.faulty) ==> local.dir.fs.faulty) && (old(peer.dir.fs.faulty) ==> peer.dir.fs.faulty)
    ensures rep.err.None? ==>
      local.dir.fs.faulty == old(local.dir.fs.faulty) && peer.dir.fs.faulty == old(peer.dir.fs.faulty)
    ensures !args.dryRun && rep.err.Some? && !local.dir.fs.faulty && !peer.dir.fs.faulty && !ctx.done ==>
      if InDelivery(rep.err.value)
      then DeliveryExcused(codec, Reencoded, peer.dir.fs.files, old(local.dir.fs.files), ref, has,
                           local.isLayout || out.loads, rep.err.value)
      else Unreadable(codec, peer.dir.fs.files, ref)
    ensures !args.dryRun ==> RealCounts(codec, peer.dir.fs.files, ref, rep, has)
    ensures rep.err.Some? ==> !rep.err.value.BadReference?
    ensures rep.ref == ref && rep.dryRun == args.dryRun
    ensures args.dryRun ==> local.dir.fs.files == old(local.dir.fs.files) && local.dir.fs.dirs == old(local.dir.fs.dirs)
    ensures args.dryRun ==> local.loads == old(local.loads) && ctx.done == old(ctx.done)
    ensures args.dryRun ==> PullDry(codec, peer.dir.fs.files, ref, rep, has, peer.dir.fs.faulty)
    ensures old(ctx.done) ==> ctx.done
    ensures ImageFrame(truth, old(local.dir.fs.files), local.dir.fs.files, ref)
    ensures OnlyTagDirOf(old(local.dir.fs.dirs), local.dir.fs.dirs, ref)
    ensures rep.err.Some? && !InDelivery(rep.err.value) ==>
      && rep.err == Some(ManifestError)
      && local.dir.fs.files == old(local.dir.fs.files) && local.dir.fs.dirs == old(local.dir.fs.dirs)
      && local.loads == old(local.loads)
    ensures Unreadable(codec, peer.dir.fs.files, ref) ==> rep.err == Some(ManifestError)
    ensures !args.dryRun && (rep.err.None? || InDelivery(rep.err.value)) ==>
      Leaves(codec, Reencoded, peer.dir.fs.files, old(local.dir.fs.files), ref, has, local.dir.limit, local.dir.fs.files)
    ensures local.loads == old(local.loads) || local.loads == old(local.loads) + [Load(ref, local.dir.fs.files, ctx.done)]
    ensures !args.dryRun ==> (local.loads != old(local.loads) <==> Loaded(rep))
    ensures local.loads != old(local.loads) ==> TagDir(ref).Some? && TagDir(ref).value in local.dir.fs.dirs
    ensures !args.dryRun ==> Counted(truth, rep, sentNow) && Delivered(truth, old(local.dir.fs.files), local.dir.fs.files, sentNow)
    ensures !args.dryRun && local.loads == old(local.loads) ==> sentNow == {}
    ensures local.loads != old(local.loads) && !ctx.done ==>
      && Shipped(truth, codec, peer.dir.fs.files, old(local.dir.fs.files), local.dir.fs.files, ref, has)
      && var (mDesc, man) := ReadManifest(codec, peer.dir.fs.files, RelDumpDir(ref).value).value;
         && ReportsRun(truth, rep, mDesc, man, has, old(local.dir.fs.files))
         && sentNow == ToSend(mDesc, man, has, old(local.dir.fs.files))
  {
    hide ReadManifest, RelDumpDir, DigestSet, SumSizes, SizeOf, HonestDescriptors, HonestImage, DumpFile, ViewOf, ParseManifest,
      Leaves, Delivered, ImageFrame, TagDir, ReportsRun, ToSend, Skipped, GoodPool, Shipped, DumpExcused, DeliveryExcused, ReportsPlan;
    FrameSame(truth, local.dir.fs.files, ref);
    NothingSent(truth, local.dir.fs.files);
    rep, sentNow := Report(ref, 0, 0, 0, args.dryRun, None), {};
    var rel := RelDumpDir(ref);
    if rel.Err? { return rep.(err := Some(ManifestError)), {}; }
    var read := LoadManifest(codec, peer.dir.fs, rel.value);
    if read.Err? { return rep.(err := Some(ManifestError)), {}; }
    var (mDesc, man) := read.value;
    rep, sentNow := PlanAndDeliver(args, Reencoded, peer.dir.fs, local, has, ref, mDesc, man, out.loads, ctx, codec, truth);
    if local.loads != old(local.loads) && !ctx.done {
      ShippedIs(truth, codec, peer.dir.fs.files, old(local.dir.fs.files), local.dir.fs.files, ref, has);
    }
  }

  // --------------------------------------------------------------------- whole runs

  function CountFailed(reports: seq<Report>): nat
  {
    if reports == [] then 0
    else CountFailed(reports[..|reports| - 1]) + if reports[|reports| - 1].err.Some? then 1 else 0
  }

  function TotalSent(reports: seq<Report>): nat
  {
    if reports == [] then 0 else TotalSent(reports[..|reports| - 1]) + reports[|reports| - 1].sent
  }

  function TotalBytes(reports: seq<Report>): nat
  {
    if reports == [] then 0 else TotalBytes(reports[..|reports| - 1]) + reports[|reports| - 1].bytes
  }

  lemma TotalsAppend(reports: seq<Report>, rep: Report)
    ensures CountFailed(reports + [rep]) == CountFailed(reports) + if rep.err.Some? then 1 else 0
    ensures TotalSent(reports + [rep]) == TotalSent(reports) + rep.sent
    ensures TotalBytes(reports + [rep]) == TotalBytes(reports) + rep.bytes
  {
    assert (reports + [rep])[..|reports|] == reports;
  }

  /** The have-set claims no closure blob that is not there. */
  ghost predicate HasSound(truth: Truth, start: Files, has: set<Digest>)
  {
    forall d :: d in has && ValidDigest(d) ==> Lookup(start, FinalKey(d)) == Some(truth(d))
  }

  predicate SameDumpDir(r: ImageRef, q: ImageRef)
  {
    RelDumpDir(r).Ok? && RelDumpDir(q).Ok? && KeyOf(RelDumpDir(r).value) == KeyOf(RelDumpDir(q).value)
  }

  /** None of the images after position `at` and before `i` is dumped where `ref` is. */
  ghost predicate NoLater(images: seq<string>, at: nat, i: nat, ref: ImageRef)
  {
    forall k :: at < k < i && k < |images| && ParseSpec(images[k]).Ok? ==> !SameDumpDir(ref, ParseSpec(images[k]).value)
  }

  /** The dump directory a load step looked at. */
  function LoadDir(load: Load): string
  {
    if RelDumpDir(load.ref).Ok? then RelDumpDir(load.ref).value else ""
  }

  /**
    A load that found everything: the image was loadable then; its closure is held ever
    after; and it stays loadable while no later image is dumped at the same place.
   */
  ghost predicate LoadOk(truth: Truth, codec: Codec, images: seq<string>, i: nat, now: Files, load: Load, at: nat)
  {
    && at < i <= |images| && ParseSpec(images[at]) == Ok(load.ref)
    && Loadable(truth, codec, load.files, load.ref)
    && Held(truth, now, Closure(codec, load.files, LoadDir(load)))
    && (NoLater(images, at, i, load.ref) ==> Loadable(truth, codec, now, load.ref))
  }

  /**
    The record of a run: its reports, the receiver's files before the first and after each
    image, the loads, the image each of them was for, and what was sent.
   */
  datatype Ledger = Ledger(reports: seq<Report>, trace: seq<Files>, loads: seq<Load>, at: seq<nat>, sent: set<Digest>)

  ghost predicate InSomeLoad(codec: Codec, loads: seq<Load>, d: Digest)
  {
    exists j :: 0 <= j < |loads| && d in Closure(codec, loads[j].files, LoadDir(loads[j]))
  }

  /** What one image may do to the receiver's files, by its text and its report. */
  ghost predicate TraceStep(truth: Truth, raw: string, rep: Report, before: Files, now: Files)
  {
    && (ParseSpec(raw).Ok? ==> ImageFrame(truth, before, now, ParseSpec(raw).value))
    && (ParseSpec(raw).Err? || (rep.err.Some? && !InDelivery(rep.err.value)) ==> now == before)
  }

  ghost predicate TraceOk(truth: Truth, images: seq<string>, start: Files, now: Files, l: Ledger)
  {
    && |l.trace| == |l.reports| + 1 && |l.reports| <= |images|
    && l.trace[0] == start && l.trace[|l.reports|] == now
    && forall k :: 0 <= k < |l.reports| ==> TraceStep(truth, images[k], l.reports[k], l.trace[k], l.trace[k + 1])
  }

  /** The loads are those of the images whose report says so, in order, each at its point of the trace. */
  predicate LoadsMatch(images: seq<string>, l: Ledger)
    requires |l.trace| == |l.reports| + 1 && |l.reports| <= |images|
  {
    && |l.loads| == |l.at|
    && (forall j :: 0 <= j < |l.at| ==> l.at[j] < |l.reports| && l.loads[j].files == l.trace[l.at[j] + 1])
    && (forall j :: 0 <= j < |l.at| ==> ParseSpec(images[l.at[j]]) == Ok(l.loads[j].ref))
    && (forall j, k :: 0 <= j < k < |l.at| ==> l.at[j] < l.at[k])
    && forall i :: 0 <= i < |l.reports| ==> (Loaded(l.reports[i]) <==> i in l.at)
  }

  /** The report of a load counts exactly what its image needed and did not find. */
  ghost predicate CountsAt(truth: Truth, codec: Codec, has: set<Digest>, rep: Report, load: Load, before: Files)
  {
    && ReadManifest(codec, load.files, LoadDir(load)).Ok?
    && var (mDesc, man) := ReadManifest(codec, load.files, LoadDir(load)).value;
       ReportsRun(truth, rep, mDesc, man, has, before)
  }

  /** The load reads the manifest its source has. */
  ghost predicate MirrorsAt(codec: Codec, source: Files, load: Load)
  {
    ReadManifest(codec, load.files, LoadDir(load)) == ReadManifest(codec, source, LoadDir(load))
  }

  /** What holds of every load the caller had not cancelled before. */
  ghost predicate LoadsGood(truth: Truth, codec: Codec, images: seq<string>, sources: seq<Files>, has: set<Digest>,
                            start: Files, now: Files, l: Ledger)
    requires |l.trace| == |l.reports| + 1 && |l.reports| <= |images| == |sources| && LoadsMatch(images, l)
  {
    forall j :: 0 <= j < |l.at| && !l.loads[j].cancelled ==>
      && (HasSound(truth, start, has) ==> LoadOk(truth, codec, images, |l.reports|, now, l.loads[j], l.at[j]))
      && CountsAt(truth, codec, has, l.reports[l.at[j]], l.loads[j], l.trace[l.at[j]])
      && MirrorsAt(codec, sources[l.at[j]], l.loads[j])
  }

  /** What each report counts, by its text and the files its image came from. */
  ghost predicate ReportCounts(codec: Codec, source: Files, raw: string, rep: Report, has: set<Digest>)
  {
    match ParseSpec(raw)
    case Err(_) => CountsNothing(rep)
    case Ok(ref) => RealCounts(codec, source, ref, rep, has)
  }

  ghost predicate ReportsGood(codec: Codec, images: seq<string>, sources: seq<Files>, has: set<Digest>, reports: seq<Report>)
    requires |reports| <= |images| == |sources|
  {
    forall k :: 0 <= k < |reports| ==> ReportCounts(codec, sources[k], images[k], reports[k], has)
  }

  predicate NoneCancelled(loads: seq<Load>)
  {
    forall j :: 0 <= j < |loads| ==> !loads[j].cancelled
  }

  predicate OnlyLastCancelled(loads: seq<Load>)
  {
    forall j :: 0 <= j < |loads| - 1 ==> !loads[j].cancelled
  }

  /** All reports together count one set of digests, absent at the start and held now. */
  ghost predicate TotalsGood(truth: Truth, codec: Codec, start: Files, now: Files, l: Ledger)
  {
    && TotalSent(l.reports) == |l.sent| && TotalBytes(l.reports) == SumSizes(truth, l.sent)
    && Delivered(truth, start, now, l.sent)
    && (NoneCancelled(l.loads) ==> forall d :: d in l.sent ==> InSomeLoad(codec, l.loads, d))
  }

  /**
    What holds after some images of a run: the record is that of the files; every load the
    caller had not cancelled found a complete image, if the have-set was sound at the
    start, and its report counts exactly; all counts are those of one set of digests, so
    none was sent twice; and only the last load can have been cancelled.  `sources` are the
    files each image came from.
   */
  ghost predicate LedgerInv(truth: Truth, codec: Codec, images: seq<string>, sources: seq<Files>, has: set<Digest>,
                            start: Files, now: Files, l: Ledger)
  {
    && |sources| == |images| && TraceOk(truth, images, start, now, l)
    && LoadsMatch(images, l) && OnlyLastCancelled(l.loads)
    && LoadsGood(truth, codec, images, sources, has, start, now, l)
    && ReportsGood(codec, images, sources, has, l.reports)
    && TotalsGood(truth, codec, start, now, l)
  }

  /** Dumps at different places: the one keeps its tag files while the other is processed. */
  lemma OtherDumpStays(truth: Truth, before: Files, files: Files, r: ImageRef, q: ImageRef)
    requires ImageFrame(truth, before, files, q) && RelDumpDir(r).Ok? && !SameDumpDir(r, q)
    ensures SameTagFiles(before, files, r)
  {
    hide RelDumpDir, KeyOf, JoinPath;
    var dir := RelDumpDir(r).value;
    DumpDirNonempty(r);
    forall name | IsTagFile(name) ensures DumpFile(before, dir, name) == DumpFile(files, dir, name) {
      var k := KeyOf(JoinPath([dir, name]));
      if k.Some? {
        TagFileNotInPool(dir, name);
        if RelDumpDir(q).Ok? {
          DumpDirNonempty(q);
          TagFilesDiffer(dir, RelDumpDir(q).value, name, "index.json");
          TagFilesDiffer(dir, RelDumpDir(q).value, name, "oci-layout");
        }
      }
    }
  }

  lemma NoLaterStep(images: seq<string>, at: nat, i: nat, ref: ImageRef)
    requires at < i < |images|
    ensures NoLater(images, at, i + 1, ref) ==> NoLater(images, at, i, ref)
    ensures NoLater(images, at, i + 1, ref) && ParseSpec(images[i]).Ok? ==> !SameDumpDir(ref, ParseSpec(images[i]).value)
  {
  }

  /** Processing one more image keeps every earlier load as good as it was. */
  lemma LoadStaysOk(truth: Truth, codec: Codec, images: seq<string>, i: nat, before: Files, now: Files, load: Load, at: nat, ref: ImageRef)
    requires i < |images| && ParseSpec(images[i]) == Ok(ref)
    requires LoadOk(truth, codec, images, i, before, load, at) && ImageFrame(truth, before, now, ref)
    ensures LoadOk(truth, codec, images, i + 1, now, load, at)
  {
    hide ParseSpec, RelDumpDir, Closure, ReadManifest, DumpFile;
    HeldPersists(truth, before, now, Closure(codec, load.files, LoadDir(load)));
    NoLaterStep(images, at, i, load.ref);
    if NoLater(images, at, i + 1, load.ref) {
      OtherDumpStays(truth, before, now, load.ref, ref);
      LoadablePersists(truth, codec, before, now, load.ref);
    }
  }

  /** The new load is good if the have-set was sound at the start. */
  lemma NewLoadOk(truth: Truth, codec: Codec, images: seq<string>, i: nat, source: Files, start: Files, before: Files, now: Files,
                  ref: ImageRef, has: set<Digest>)
    requires i < |images| && ParseSpec(images[i]) == Ok(ref)
    requires Shipped(truth, codec, source, before, now, ref, has)
    requires HasSound(truth, start, has) && KeepsBlobs(truth, start, before)
    ensures LoadOk(truth, codec, images, i + 1, now, Load(ref, now, false), i)
  {
    hide ParseSpec, RelDumpDir, ReadManifest, DumpFile, DigestSet;
    var (mDesc, man) := ReadManifest(codec, source, RelDumpDir(ref).value).value;
    forall d | d in Skipped(mDesc, man, has)
      ensures ValidDigest(d) && Lookup(before, FinalKey(d)) == Some(truth(d))
    {
      assert d in All(mDesc, man) && d in has;
    }
  }

  lemma SentTwiceNever(truth: Truth, start: Files, before: Files, now: Files, sent: set<Digest>, sentNow: set<Digest>)
    requires GoodPool(truth, start) && KeepsBlobs(truth, start, before) && KeepsBlobs(truth, before, now)
    requires Delivered(truth, start, before, sent) && Delivered(truth, before, now, sentNow)
    ensures sent !! sentNow
    ensures Delivered(truth, start, now, sent + sentNow)
  {
    forall d | d in sentNow ensures Lookup(start, FinalKey(d)).None? {
      assert ValidDigest(d);
      assert Lookup(before, FinalKey(d)).None?;
      assert Lookup(start, FinalKey(d)) == None || Lookup(start, FinalKey(d)) == Some(truth(d));
    }
  }

  /** The record with one more image. */
  function NextLedger(l: Ledger, rep: Report, now: Files, sentNow: set<Digest>, load: Option<Load>): Ledger
  {
    match load
    case None => Ledger(l.reports + [rep], l.trace + [now], l.loads, l.at, l.sent + sentNow)
    case Some(one) => Ledger(l.reports + [rep], l.trace + [now], l.loads + [one], l.at + [|l.reports|], l.sent + sentNow)
  }

  /** What one processed image did, as its contract tells. */
  ghost predicate ImageStep(truth: Truth, codec: Codec, source: Files, before: Files, now: Files, ref: ImageRef, has: set<Digest>,
                            rep: Report, sentNow: set<Digest>, load: Option<Load>)
  {
    && ImageFrame(truth, before, now, ref)
    && (rep.err.Some? && !InDelivery(rep.err.value) ==> now == before)
    && RealCounts(codec, source, ref, rep, has)
    && Counted(truth, rep, sentNow) && Delivered(truth, before, now, sentNow)
    && (load.Some? <==> Loaded(rep))
    && (load.None? ==> sentNow == {})
    && (load.Some? ==> load.value.ref == ref && load.value.files == now)
    && (load.Some? && !load.value.cancelled ==> LoadStep(truth, codec, source, before, now, ref, has, rep, sentNow))
  }

  ghost predicate LoadStep(truth: Truth, codec: Codec, source: Files, before: Files, now: Files, ref: ImageRef, has: set<Digest>,
                           rep: Report, sentNow: set<Digest>)
  {
    && Shipped(truth, codec, source, before, now, ref, has)
    && var (mDesc, man) := ReadManifest(codec, source, RelDumpDir(ref).value).value;
       ReportsRun(truth, rep, mDesc, man, has, before) && sentNow == ToSend(mDesc, man, has, before)
  }

  /** The new load's counts, told from the receiver's side. */
  lemma NewLoadCounts(truth: Truth, codec: Codec, source: Files, before: Files, now: Files, ref: ImageRef, has: set<Digest>,
                      rep: Report, sentNow: set<Digest>)
    requires LoadStep(truth, codec, source, before, now, ref, has, rep, sentNow)
    ensures CountsAt(truth, codec, has, rep, Load(ref, now, false), before)
    ensures sentNow <= Closure(codec, now, LoadDir(Load(ref, now, false)))
    ensures MirrorsAt(codec, source, Load(ref, now, false))
  {
    hide ReadManifest, RelDumpDir, SumSizes, DigestSet, Held, Loadable;
    var dir := RelDumpDir(ref).value;
    var (mDesc, man) := ReadManifest(codec, source, dir).value;
    ClosureIsAll(codec, now, dir, mDesc, man);
  }

  lemma LedgerTrace(truth: Truth, images: seq<string>, start: Files, before: Files, now: Files, l: Ledger, rep: Report,
                    sentNow: set<Digest>, load: Option<Load>)
    requires TraceOk(truth, images, start, before, l) && |l.reports| < |images|
    requires TraceStep(truth, images[|l.reports|], rep, before, now)
    ensures TraceOk(truth, images, start, now, NextLedger(l, rep, now, sentNow, load))
  {
    hide TraceStep;
  }

  lemma LedgerMatch(images: seq<string>, l: Ledger, rep: Report, now: Files, sentNow: set<Digest>, load: Option<Load>)
    requires |l.trace| == |l.reports| + 1 && |l.reports| < |images| && LoadsMatch(images, l) && NoneCancelled(l.loads)
    requires load.Some? <==> Loaded(rep)
    requires load.Some? ==> load.value.files == now && ParseSpec(images[|l.reports|]) == Ok(load.value.ref)
    ensures var m := NextLedger(l, rep, now, sentNow, load);
      |m.trace| == |m.reports| + 1 && LoadsMatch(images, m) && OnlyLastCancelled(m.loads)
  {
    hide Loaded, ParseSpec;
    var m, n := NextLedger(l, rep, now, sentNow, load), |l.reports|;
    assert n !in l.at;
    forall i | 0 <= i < |m.reports| ensures Loaded(m.reports[i]) <==> i in m.at {
      if i < n { assert m.reports[i] == l.reports[i]; }
    }
  }

  /** Loads of earlier images stay as good as they were; a new one is good. */
  lemma LedgerLoads(truth: Truth, codec: Codec, images: seq<string>, sources: seq<Files>, start: Files, before: Files, now: Files,
                    ref: ImageRef, has: set<Digest>, l: Ledger, rep: Report, sentNow: set<Digest>, load: Option<Load>)
    requires TraceOk(truth, images, start, before, l) && LoadsMatch(images, l) && NoneCancelled(l.loads)
    requires |l.reports| < |images| == |sources| && ParseSpec(images[|l.reports|]) == Ok(ref)
    requires KeepsBlobs(truth, start, before)
    requires LoadsGood(truth, codec, images, sources, has, start, before, l)
    requires ImageStep(truth, codec, sources[|l.reports|], before, now, ref, has, rep, sentNow, load)
    ensures |l.trace| == |l.reports| + 1 && LoadsMatch(images, NextLedger(l, rep, now, sentNow, load))
    ensures LoadsGood(truth, codec, images, sources, has, start, now, NextLedger(l, rep, now, sentNow, load))
  {
    hide ParseSpec, RelDumpDir, LoadOk, KeepsBlobs, HasSound, ImageFrame, CountsAt, MirrorsAt, TraceStep, LoadStep, Counted, Delivered, Loaded, RealCounts;
    LedgerMatch(images, l, rep, now, sentNow, load);
    var m, n := NextLedger(l, rep, now, sentNow, load), |l.reports|;
    forall j | 0 <= j < |m.at| && !m.loads[j].cancelled
      ensures HasSound(truth, start, has) ==> LoadOk(truth, codec, images, n + 1, now, m.loads[j], m.at[j])
      ensures CountsAt(truth, codec, has, m.reports[m.at[j]], m.loads[j], m.trace[m.at[j]])
      ensures MirrorsAt(codec, sources[m.at[j]], m.loads[j])
    {
      if j < |l.at| {
        assert m.loads[j] == l.loads[j] && m.at[j] == l.at[j];
        if HasSound(truth, start, has) { LoadStaysOk(truth, codec, images, n, before, now, l.loads[j], l.at[j], ref); }
      } else {
        NewLoadCounts(truth, codec, sources[|l.reports|], before, now, ref, has, rep, sentNow);
        if HasSound(truth, start, has) { NewLoadGood(truth, codec, images, n, sources[n], start, before, now, ref, has, rep, sentNow); }
      }
    }
  }

  lemma NewLoadGood(truth: Truth, codec: Codec, images: seq<string>, i: nat, source: Files, start: Files, before: Files, now: Files,
                    ref: ImageRef, has: set<Digest>, rep: Report, sentNow: set<Digest>)
    requires i < |images| && ParseSpec(images[i]) == Ok(ref)
    requires LoadStep(truth, codec, source, before, now, ref, has, rep, sentNow)
    requires HasSound(truth, start, has) && KeepsBlobs(truth, start, before)
    ensures LoadOk(truth, codec, images, i + 1, now, Load(ref, now, false), i)
  {
    hide ParseSpec, Shipped, HasSound, KeepsBlobs, LoadOk;
    NewLoadOk(truth, codec, images, i, source, start, before, now, ref, has);
  }

  lemma LedgerTotals(truth: Truth, codec: Codec, source: Files, start: Files, before: Files, now: Files, ref: ImageRef,
                     has: set<Digest>, l: Ledger, rep: Report, sentNow: set<Digest>, load: Option<Load>)
    requires GoodPool(truth, start) && KeepsBlobs(truth, start, before)
    requires TotalsGood(truth, codec, start, before, l)
    requires ImageStep(truth, codec, source, before, now, ref, has, rep, sentNow, load)
    ensures TotalsGood(truth, codec, start, now, NextLedger(l, rep, now, sentNow, load))
  {
    hide RelDumpDir, Closure, GoodPool, KeepsBlobs, SumSizes, Delivered, TotalSent, TotalBytes, LoadDir, InSomeLoad, LoadStep, ImageFrame, RealCounts;
    TotalsAppend(l.reports, rep);
    FrameKeeps(truth, before, now, ref);
    SentTwiceNever(truth, start, before, now, l.sent, sentNow);
    SumSizesUnion(truth, l.sent, sentNow);
    var m := NextLedger(l, rep, now, sentNow, load);
    if NoneCancelled(m.loads) {
      assert NoneCancelled(l.loads) by {
        forall j | 0 <= j < |l.loads| ensures !l.loads[j].cancelled { assert m.loads[j] == l.loads[j]; }
      }
      if load.Some? {
        assert m.loads[|l.loads|] == load.value;
        NewLoadCounts(truth, codec, source, before, now, ref, has, rep, sentNow);
      }
      LoadsGrow(codec, l, m, sentNow, load);
    }
  }

  lemma LoadsGrow(codec: Codec, l: Ledger, m: Ledger, sentNow: set<Digest>, load: Option<Load>)
    requires forall d :: d in l.sent ==> InSomeLoad(codec, l.loads, d)
    requires m.sent == l.sent + sentNow
    requires load.None? ==> m.loads == l.loads && sentNow == {}
    requires load.Some? ==> m.loads == l.loads + [load.value]
    requires load.Some? ==> sentNow <= Closure(codec, load.value.files, LoadDir(load.value))
    ensures forall d :: d in m.sent ==> InSomeLoad(codec, m.loads, d)
  {
    hide Closure, LoadDir;
    forall d | d in m.sent ensures InSomeLoad(codec, m.loads, d) {
      if d in l.sent {
        var j :| 0 <= j < |l.loads| && d in Closure(codec, l.loads[j].files, LoadDir(l.loads[j]));
        assert m.loads[j] == l.loads[j];
      } else {
        var n := |l.loads|;
        assert d in Closure(codec, m.loads[n].files, LoadDir(m.loads[n]));
      }
    }
  }

  lemma FrameKeeps(truth: Truth, before: Files, now: Files, ref: ImageRef)
    requires ImageFrame(truth, before, now, ref)
    ensures KeepsBlobs(truth, before, now)
  {
  }

  /** One more image, successful or not, keeps the record sound. */
  lemma LedgerImage(truth: Truth, codec: Codec, images: seq<string>, sources: seq<Files>, start: Files, before: Files, now: Files,
                    ref: ImageRef, has: set<Digest>, l: Ledger, rep: Report, sentNow: set<Digest>, load: Option<Load>)
    requires |l.reports| < |images| == |sources| && ParseSpec(images[|l.reports|]) == Ok(ref)
    requires GoodPool(truth, start) && KeepsBlobs(truth, start, before)
    requires LedgerInv(truth, codec, images, sources, has, start, before, l) && NoneCancelled(l.loads)
    requires ImageStep(truth, codec, sources[|l.reports|], before, now, ref, has, rep, sentNow, load)
    ensures LedgerInv(truth, codec, images, sources, has, start, now, NextLedger(l, rep, now, sentNow, load))
  {
    hide ParseSpec, LoadsGood, GoodPool, KeepsBlobs, TotalsGood, TraceOk, Counted, Delivered, LoadStep, ImageFrame, RealCounts;
    assert TraceStep(truth, images[|l.reports|], rep, before, now);
    LedgerTrace(truth, images, start, before, now, l, rep, sentNow, load);
    TraceLength(truth, images, start, before, l);
    LedgerMatch(images, l, rep, now, sentNow, load);
    LedgerLoads(truth, codec, images, sources, start, before, now, ref, has, l, rep, sentNow, load);
    LedgerTotals(truth, codec, sources[|l.reports|], start, before, now, ref, has, l, rep, sentNow, load);
  }

  lemma TraceLength(truth: Truth, images: seq<string>, start: Files, now: Files, l: Ledger)
    requires TraceOk(truth, images, start, now, l)
    ensures |l.trace| == |l.reports| + 1 && |l.reports| <= |images|
  {
  }

  /** An image whose reference does not parse changes nothing. */
  lemma LedgerBadReference(truth: Truth, codec: Codec, images: seq<string>, sources: seq<Files>, has: set<Digest>,
                           start: Files, now: Files, l: Ledger, rep: Report)
    requires |l.reports| < |images| && ParseSpec(images[|l.reports|]).Err?
    requires LedgerInv(truth, codec, images, sources, has, start, now, l) && NoneCancelled(l.loads)
    requires CountsNothing(rep) && !Loaded(rep)
    ensures LedgerInv(truth, codec, images, sources, has, start, now, NextLedger(l, rep, now, {}, None))
  {
    hide ParseSpec, SumSizes, Delivered, InSomeLoad, TotalSent, TotalBytes, TraceOk, LoadsMatch, LoadsGood, ReportsGood, Loaded, TraceStep;
    TotalsAppend(l.reports, rep);
    TraceLength(truth, images, start, now, l);
    BadReferenceStep(truth, images[|l.reports|], rep, now);
    LedgerTrace(truth, images, start, now, now, l, rep, {}, None);
    LedgerMatch(images, l, rep, now, {}, None);
    LoadsBadReference(truth, codec, images, sources, has, start, now, l, rep);
    ReportsBadReference(codec, images, sources, has, l.reports, rep);
    assert NextLedger(l, rep, now, {}, None).sent == l.sent;
  }

  lemma LoadsBadReference(truth: Truth, codec: Codec, images: seq<string>, sources: seq<Files>, has: set<Digest>,
                          start: Files, now: Files, l: Ledger, rep: Report)
    requires |l.trace| == |l.reports| + 1 && |l.reports| < |images| == |sources| && ParseSpec(images[|l.reports|]).Err?
    requires LoadsMatch(images, l) && LoadsMatch(images, NextLedger(l, rep, now, {}, None))
    requires LoadsGood(truth, codec, images, sources, has, start, now, l)
    ensures LoadsGood(truth, codec, images, sources, has, start, now, NextLedger(l, rep, now, {}, None))
  {
    hide ParseSpec, CountsAt, MirrorsAt, HasSound, LoadOk, Loaded;
    var m := NextLedger(l, rep, now, {}, None);
    forall j | 0 <= j < |m.at| && !m.loads[j].cancelled
      ensures HasSound(truth, start, has) ==> LoadOk(truth, codec, images, |m.reports|, now, m.loads[j], m.at[j])
      ensures CountsAt(truth, codec, has, m.reports[m.at[j]], m.loads[j], m.trace[m.at[j]])
      ensures MirrorsAt(codec, sources[m.at[j]], m.loads[j])
    {
      LoadOkBadReference(truth, codec, images, |l.reports|, now, l.loads[j], l.at[j]);
      assert m.reports[m.at[j]] == l.reports[l.at[j]] && m.trace[m.at[j]] == l.trace[l.at[j]];
    }
  }

  lemma ReportsBadReference(codec: Codec, images: seq<string>, sources: seq<Files>, has: set<Digest>, reports: seq<Report>, rep: Report)
    requires |reports| < |images| == |sources| && ReportsGood(codec, images, sources, has, reports)
    requires ParseSpec(images[|reports|]).Err? && CountsNothing(rep)
    ensures ReportsGood(codec, images, sources, has, reports + [rep])
  {
    hide ParseSpec, RealCounts;
  }

  lemma BadReferenceStep(truth: Truth, raw: string, rep: Report, now: Files)
    requires ParseSpec(raw).Err?
    ensures TraceStep(truth, raw, rep, now, now)
  {
  }

  lemma LoadOkBadReference(truth: Truth, codec: Codec, images: seq<string>, i: nat, now: Files, load: Load, at: nat)
    requires i < |images| && ParseSpec(images[i]).Err?
    ensures LoadOk(truth, codec, images, i, now, load, at) ==> LoadOk(truth, codec, images, i + 1, now, load, at)
  {
    hide ParseSpec, Loadable, Held, Closure, SameDumpDir;
    if at < i { NoLaterStep(images, at, i, load.ref); }
  }

  lemma LedgerEmpty(truth: Truth, codec: Codec, images: seq<string>, sources: seq<Files>, has: set<Digest>, start: Files)
    requires |sources| == |images|
    ensures LedgerInv(truth, codec, images, sources, has, start, start, EmptyLedger(start))
    ensures KeepsBlobs(truth, start, start)
  {
  }

  ghost function EmptyLedger(start: Files): Ledger
  {
    Ledger([], [start], [], [], {})
  }

  // ----------------------------------------------------------- what a run leaves alone

  predicate TagFileOf(raw: string, k: Key)
  {
    && ParseSpec(raw).Ok?
    && (TagFile(ParseSpec(raw).value, "index.json") == Some(k) || TagFile(ParseSpec(raw).value, "oci-layout") == Some(k))
  }

  predicate TagDirIs(raw: string, k: Key)
  {
    ParseSpec(raw).Ok? && TagDir(ParseSpec(raw).value) == Some(k)
  }

  /** Outside the blob pool only tag files and dump directories of these images may differ. */
  ghost predicate StoreFrame(images: seq<string>, files0: Files, dirs0: set<Key>, files: Files, dirs: set<Key>)
  {
    && (forall k: Key :: !IsPoolKey(k) && Lookup(files, k) != Lookup(files0, k) ==>
         exists j :: 0 <= j < |images| && TagFileOf(images[j], k))
    && dirs0 <= dirs
    && forall d :: d in dirs && d !in dirs0 ==>
         [SHARE] <= d || exists j :: 0 <= j < |images| && TagDirIs(images[j], d)
  }

  /** The same for the image of one text. */
  ghost predicate OneFrame(raw: string, before: Files, dirs: set<Key>, now: Files, dirsNow: set<Key>)
  {
    && (forall k: Key :: !IsPoolKey(k) && Lookup(now, k) != Lookup(before, k) ==> TagFileOf(raw, k))
    && dirs <= dirsNow
    && forall d :: d in dirsNow && d !in dirs ==> [SHARE] <= d || TagDirIs(raw, d)
  }

  lemma FrameGrows(images: seq<string>, i: nat, files0: Files, dirs0: set<Key>, before: Files, dirs: set<Key>, now: Files, dirsNow: set<Key>)
    requires i < |images| && StoreFrame(images[..i], files0, dirs0, before, dirs)
    requires OneFrame(images[i], before, dirs, now, dirsNow)
    ensures StoreFrame(images[..i + 1], files0, dirs0, now, dirsNow)
  {
    hide TagFileOf, TagDirIs, IsPoolKey;
    var more := images[..i + 1];
    forall k: Key | !IsPoolKey(k) && Lookup(now, k) != Lookup(files0, k)
      ensures exists j :: 0 <= j < |more| && TagFileOf(more[j], k)
    {
      if Lookup(now, k) != Lookup(before, k) {
        assert TagFileOf(more[i], k);
      } else {
        var j :| 0 <= j < i && TagFileOf(images[..i][j], k);
        assert TagFileOf(more[j], k);
      }
    }
    forall d | d in dirsNow && d !in dirs0 && !([SHARE] <= d)
      ensures exists j :: 0 <= j < |more| && TagDirIs(more[j], d)
    {
      if d in dirs {
        var j :| 0 <= j < i && TagDirIs(images[..i][j], d);
        assert TagDirIs(more[j], d);
      } else {
        assert TagDirIs(more[i], d);
      }
    }
  }

  lemma FrameOfImage(truth: Truth, raw: string, ref: ImageRef, before: Files, dirs: set<Key>, now: Files, dirsNow: set<Key>)
    requires ParseSpec(raw) == Ok(ref)
    requires ImageFrame(truth, before, now, ref) && OnlyTagDirOf(dirs, dirsNow, ref)
    ensures OneFrame(raw, before, dirs, now, dirsNow)
  {
    hide ParseSpec, TagFile, TagDir, IsPoolKey;
  }

  lemma FrameSameStore(raw: string, files: Files, dirs: set<Key>)
    ensures OneFrame(raw, files, dirs, files, dirs)
  {
  }

  lemma FrameNoImages(files: Files, dirs: set<Key>)
    ensures StoreFrame([], files, dirs, files, dirs)
  {
  }

  /** The dump directory of every load was made. */
  predicate DirsMade(loads: seq<Load>, dirs: set<Key>)
  {
    forall j :: 0 <= j < |loads| ==> TagDir(loads[j].ref).Some? && TagDir(loads[j].ref).value in dirs
  }

  /** The report of an image is about the reference its text parses to. */
  predicate ReportFor(dryRun: bool, raw: string, rep: Report)
  {
    && rep.dryRun == dryRun
    && match ParseSpec(raw)
       case Ok(ref) => rep.ref == ref && (rep.err.Some? ==> !rep.err.value.BadReference?)
       case Err(e) => rep.err == Some(BadReference(e)) && rep.ref == ImageRef("", "", "", "", raw) && CountsNothing(rep)
  }

  ghost predicate ReportsFor(args: Args, reports: seq<Report>)
  {
    |reports| <= |args.images| && forall i :: 0 <= i < |reports| ==> ReportFor(args.dryRun, args.images[i], reports[i])
  }

  /** How a run that came to its result treats failures. */
  ghost predicate FailurePolicy(args: Args, result: RunResult, err: Option<RunError>)
  {
    && result.failed == CountFailed(result.reports)
    && ReportsFor(args, result.reports)
    && (err.None? ==> |result.reports| == |args.images| && (args.keepGoing || result.failed == 0))
    && (err.Some? && err.value.ImageFailed? ==>
         && !args.keepGoing && result.failed == 1
         && result.reports != [] && result.reports[|result.reports| - 1].err == Some(err.value.err))
    && (err == Some(Cancelled) ==> args.keepGoing || result.failed == 0)
  }

  lemma {:induction false} NoneFailed(reports: seq<Report>)
    requires forall k :: 0 <= k < |reports| ==> reports[k].err.None?
    ensures CountFailed(reports) == 0
    decreases |reports|
  {
    if reports != [] { NoneFailed(reports[..|reports| - 1]); }
  }

  /** A run that is not stopped and whose reports are all good comes to the end of its list. */
  lemma AllDone(args: Args, result: RunResult, err: Option<RunError>)
    requires FailurePolicy(args, result, err) && Resolved(err) && err != Some(Cancelled)
    requires forall k :: 0 <= k < |result.reports| ==> result.reports[k].err.None?
    ensures Succeeded(args, result, err)
  {
    hide ReportsFor;
    NoneFailed(result.reports);
  }

  /** No error, and a good report for every image. */
  predicate Succeeded(args: Args, result: RunResult, err: Option<RunError>)
  {
    && err.None? && result.failed == 0 && |result.reports| == |args.images|
    && forall k :: 0 <= k < |result.reports| ==> result.reports[k].err.None?
  }

  /** The have-set is read from the receiver, not assumed. */
  predicate Enumerated(args: Args)
  {
    args.assumeSet.None? && args.assumeList == []
  }

  /** A have-set given by the caller: the set if there is one, else the list, as they are. */
  method AssumedHas(args: Args) returns (has: set<Digest>)
    requires !Enumerated(args)
    ensures args.assumeSet.Some? ==> has == args.assumeSet.value
    ensures args.assumeSet.None? ==> forall d :: d in has <==> d in args.assumeList
  {
    if args.assumeSet.Some? { return args.assumeSet.value; }
    has := {};
    var i := 0;
    while i < |args.assumeList|
      invariant 0 <= i <= |args.assumeList|
      invariant forall d :: d in has <==> d in args.assumeList[..i]
    {
      has := has + {args.assumeList[i]};
      i := i + 1;
    }
    assert args.assumeList[..|args.assumeList|] == args.assumeList;
  }

  lemma ListedIsSound(truth: Truth, files: Files, dirs: set<Key>, has: set<Digest>)
    requires SoundPool(truth, files) && forall d :: d in has ==> d in BlobInventory(files, dirs)
    ensures HasSound(truth, files, has)
  {
    forall d | d in has && ValidDigest(d) ensures Lookup(files, FinalKey(d)) == Some(truth(d)) {
      InventoryIsPool(files, dirs, d);
    }
  }

  /** What a push takes for the peer's have-set: the set given, else the list given, else the pool's listing. */
  ghost predicate RemoteHasIs(args: Args, has: set<Digest>, files: Files, dirs: set<Key>)
  {
    if args.assumeSet.Some? then has == args.assumeSet.value
    else if args.assumeList != [] then forall d :: d in has <==> d in args.assumeList
    else has == BlobInventory(files, dirs)
  }

  /** The peer's have-set: as assumed, or what its pool lists. */
  method ResolveRemoteHas(args: Args, peer: Endpoint, ctx: Context, ghost truth: Truth) returns (ok: bool, has: set<Digest>)
    requires GoodPool(truth, peer.dir.fs.files)
    modifies ctx, peer.dir.fs`faulty
    ensures old(ctx.done) ==> ctx.done
    ensures (old(peer.dir.fs.faulty) ==> peer.dir.fs.faulty) && (ok ==> peer.dir.fs.faulty == old(peer.dir.fs.faulty))
    ensures !ok ==> args.assumeSet.None? && args.assumeList == [] && (peer.dir.fs.faulty || ctx.done)
    ensures ok ==> RemoteHasIs(args, has, peer.dir.fs.files, peer.dir.fs.dirs)
    ensures ok && Enumerated(args) ==> HasSound(truth, peer.dir.fs.files, has)
  {
    hide BlobInventory, GoodParts;
    if args.assumeSet.Some? || args.assumeList != [] {
      has := AssumedHas(args);
      return true, has;
    }
    var listed;
    ok, listed := ListBlobs(peer.dir.fs, ctx);
    if !ok { return false, {}; }
    has := {};
    var i := 0;
    while i < |listed|
      invariant 0 <= i <= |listed|
      invariant forall d :: d in has <==> d in listed[..i]
    {
      has := has + {listed[i]};
      i := i + 1;
    }
    assert listed[..|listed|] == listed;
    ListedIsSound(truth, peer.dir.fs.files, peer.dir.fs.dirs, has);
  }

  lemma OneMoreReport(args: Args, reports: seq<Report>, rep: Report)
    requires ReportsFor(args, reports) && |reports| < |args.images| && ReportFor(args.dryRun, args.images[|reports|], rep)
    ensures ReportsFor(args, reports + [rep])
  {
    hide ReportFor;
  }

  /** The load an image added, if any. */
  function NewLoad(loadsBefore: seq<Load>, loads: seq<Load>): Option<Load>
  {
    if |loads| > |loadsBefore| then Some(loads[|loads| - 1]) else None
  }

  /** From what is known of one processed image to its step of the record. */
  lemma StepOfImage(truth: Truth, codec: Codec, source: Files, before: Files, now: Files, ref: ImageRef, has: set<Digest>,
                    rep: Report, sentNow: set<Digest>, loadsBefore: seq<Load>, loads: seq<Load>, cancelled: bool)
    requires ImageFrame(truth, before, now, ref) && Counted(truth, rep, sentNow) && Delivered(truth, before, now, sentNow)
    requires rep.err.Some? && !InDelivery(rep.err.value) ==> now == before
    requires RealCounts(codec, source, ref, rep, has)
    requires loads == loadsBefore || loads == loadsBefore + [Load(ref, now, cancelled)]
    requires loads != loadsBefore <==> Loaded(rep)
    requires loads == loadsBefore ==> sentNow == {}
    requires loads != loadsBefore && !cancelled ==> LoadStep(truth, codec, source, before, now, ref, has, rep, sentNow)
    ensures ImageStep(truth, codec, source, before, now, ref, has, rep, sentNow, NewLoad(loadsBefore, loads))
  {
    hide ImageFrame, Delivered, LoadStep, Counted, Loaded, RealCounts;
  }

  /** How the load sequence and the record grow together. */
  lemma LoadsAppend(l: Ledger, m: Ledger, loadsBefore: seq<Load>, loads: seq<Load>, ref: ImageRef, now: Files, cancelled: bool,
                    rep: Report, sentNow: set<Digest>, dirs: set<Key>)
    requires m == NextLedger(l, rep, now, sentNow, NewLoad(loadsBefore, loads)) && NoneCancelled(l.loads)
    requires loads == loadsBefore || loads == loadsBefore + [Load(ref, now, cancelled)]
    requires loads != loadsBefore ==> TagDir(ref).Some? && TagDir(ref).value in dirs
    ensures l.loads <= m.loads && loads == loadsBefore + m.loads[|l.loads|..]
    ensures !cancelled ==> NoneCancelled(m.loads)
    ensures DirsMade(m.loads[|l.loads|..], dirs)
  {
    hide TagDir;
  }

  lemma MoreDirsMade(some: seq<Load>, all: seq<Load>, dirs: set<Key>, more: set<Key>)
    requires DirsMade(some, dirs) && some <= all && dirs <= more && DirsMade(all[|some|..], more)
    ensures DirsMade(all, more)
  {
    hide TagDir;
    forall j | 0 <= j < |all| ensures TagDir(all[j].ref).Some? && TagDir(all[j].ref).value in more {
      if j < |some| { assert all[j] == some[j]; } else { assert all[j] == all[|some|..][j - |some|]; }
    }
  }

  /** Nothing about the image keeps it from being pushed. */
  ghost predicate Pushable(truth: Truth, codec: Codec, raw: string, out: Outcome, isLayout: bool)
  {
    && ParseSpec(raw).Ok? && TagDir(ParseSpec(raw).value).Some? && out.dump.Dumped?
    && Serves(truth, codec, Verbatim, out.dump.files, ParseSpec(raw).value)
    && (isLayout || out.loads)
  }

  lemma PushableNoExcuse(truth: Truth, codec: Codec, raw: string, out: Outcome, isLayout: bool, before: Files, has: set<Digest>,
                         e: ImageError)
    requires Pushable(truth, codec, raw, out, isLayout) && LawfulDump(truth, codec, out, ParseSpec(raw).value)
    ensures !DumpExcused(codec, ParseSpec(raw).value, out.dump)
    ensures !DeliveryExcused(codec, Verbatim, out.dump.files, before, ParseSpec(raw).value, has, isLayout || out.loads, e)
  {
    hide ParseSpec, ReadManifest, RelDumpDir, TagDir, DeliveryExcused, HonestImage, DocsOf, Closure;
    ServedNoExcuse(truth, codec, Verbatim, out.dump.files, before, ParseSpec(raw).value, has, isLayout || out.loads, e);
  }

  /** Nothing about the image keeps it from being pulled. */
  ghost predicate Pullable(truth: Truth, codec: Codec, raw: string, source: Files, loads: bool)
  {
    && ParseSpec(raw).Ok? && TagDir(ParseSpec(raw).value).Some?
    && Serves(truth, codec, Reencoded, source, ParseSpec(raw).value) && loads
  }

  lemma PullableNoExcuse(truth: Truth, codec: Codec, raw: string, source: Files, loads: bool, before: Files, has: set<Digest>,
                         e: ImageError)
    requires Pullable(truth, codec, raw, source, loads)
    requires RelDumpDir(ParseSpec(raw).value).Ok? ==> HonestImage(truth, codec, source, RelDumpDir(ParseSpec(raw).value).value)
    ensures !Unreadable(codec, source, ParseSpec(raw).value)
    ensures !DeliveryExcused(codec, Reencoded, source, before, ParseSpec(raw).value, has, loads, e)
  {
    hide ParseSpec, ReadManifest, RelDumpDir, TagDir, DeliveryExcused, HonestImage, DocsOf, Closure;
    ServedNoExcuse(truth, codec, Reencoded, source, before, ParseSpec(raw).value, has, loads, e);
  }

  /** What a dry run of a push reports for a text that parses. */
  ghost predicate PushDry(codec: Codec, text: string, raw: Option<Bytes>, rep: Report, has: set<Digest>)
  {
    ParseSpec(text).Ok? ==> DryOutcome(codec, raw, rep, has)
  }

  /** What a dry run of a pull reports for a text that parses. */
  ghost predicate PulledDry(codec: Codec, text: string, source: Files, rep: Report, has: set<Digest>, faulty: bool)
  {
    ParseSpec(text).Ok? ==> PullDry(codec, source, ParseSpec(text).value, rep, has, faulty)
  }

  lemma PulledDryLater(codec: Codec, text: string, source: Files, rep: Report, has: set<Digest>, faulty: bool, later: bool)
    requires PulledDry(codec, text, source, rep, has, faulty) && (faulty ==> later)
    ensures PulledDry(codec, text, source, rep, has, later)
  {
    hide ParseSpec, ReportsPlan, Unreadable;
  }

  /** One text of a push: parse it, process the image, and continue the record. */
  method PushImage(args: Args, local: Endpoint, peer: Endpoint, has: set<Digest>, raw: string, out: Outcome, ctx: Context,
                   codec: Codec, ghost truth: Truth, ghost sources: seq<Files>, ghost start: Files, ghost i: nat, ghost l: Ledger)
    returns (rep: Report, ghost m: Ledger)
    requires local.dir.fs != peer.dir.fs && peer.dir.limit >= 1 && i < |args.images| && raw == args.images[i] && !ctx.done
    requires |sources| == |args.images| && sources[i] == out.dump.files
    requires ParseSpec(raw).Ok? ==> LawfulDump(truth, codec, out, ParseSpec(raw).value)
    requires GoodPool(truth, start) && GoodPool(truth, peer.dir.fs.files) && KeepsBlobs(truth, start, peer.dir.fs.files)
    requires !args.dryRun ==>
      |l.reports| == i && NoneCancelled(l.loads) && LedgerInv(truth, codec, args.images, sources, has, start, peer.dir.fs.files, l)
    modifies local.dir.fs, peer.dir.fs, peer`loads, ctx
    ensures (old(local.dir.fs.faulty) ==> local.dir.fs.faulty) && (old(peer.dir.fs.faulty) ==> peer.dir.fs.faulty)
    ensures rep.err.None? ==>
      local.dir.fs.faulty == old(local.dir.fs.faulty) && peer.dir.fs.faulty == old(peer.dir.fs.faulty)
    ensures !args.dryRun && !local.dir.fs.faulty && !peer.dir.fs.faulty && !ctx.done ==>
      (Pushable(truth, codec, raw, out, peer.isLayout) ==> rep.err.None?)
    ensures ReportFor(args.dryRun, raw, rep)
    ensures GoodPool(truth, peer.dir.fs.files) && KeepsBlobs(truth, start, peer.dir.fs.files)
    ensures args.dryRun ==> local.dir.fs.files == old(local.dir.fs.files) && local.dir.fs.dirs == old(local.dir.fs.dirs)
    ensures args.dryRun ==> peer.dir.fs.files == old(peer.dir.fs.files) && peer.dir.fs.dirs == old(peer.dir.fs.dirs)
    ensures args.dryRun ==> peer.loads == old(peer.loads) && PushDry(codec, raw, out.raw, rep, has)
    ensures OneFrame(raw, old(peer.dir.fs.files), old(peer.dir.fs.dirs), peer.dir.fs.files, peer.dir.fs.dirs)
    ensures !args.dryRun ==>
      && m.reports == l.reports + [rep] && l.loads <= m.loads && peer.loads == old(peer.loads) + m.loads[|l.loads|..]
      && LedgerInv(truth, codec, args.images, sources, has, start, peer.dir.fs.files, m)
      && (!ctx.done ==> NoneCancelled(m.loads)) && DirsMade(m.loads[|l.loads|..], peer.dir.fs.dirs)
  {
    hide GoodPool, KeepsBlobs, LedgerInv, ImageFrame, Shipped, Delivered, SumSizes, ParseSpec, RelDumpDir, Closure, HasSound,
      LawfulDump, TotalSent, TotalBytes, ReportsRun, ReportsPlan, DryOutcome, ReadManifest, OneFrame, OnlyTagDirOf,
      ImageStep, Counted, Loaded, NoneCancelled, DirsMade, TagDir, Leaves, ToSend, MirrorsAt, CountsAt, RealCounts, DeliveryExcused, DumpExcused, PullDry, Unreadable, Serves, HonestImage,
      DocsOf;
    ghost var before, dirs, loads0 := peer.dir.fs.files, peer.dir.fs.dirs, peer.loads;
    var parsed := Parse(raw);
    if parsed.Err? {
      rep := Report(ImageRef("", "", "", "", raw), 0, 0, 0, args.dryRun, Some(BadReference(parsed.error)));
      m := NextLedger(l, rep, before, {}, None);
      FrameSameStore(raw, before, dirs);
      NoLoads(peer.dir.fs.dirs);
      NotLoaded(rep);
      if !args.dryRun { LedgerBadReference(truth, codec, args.images, sources, has, start, before, l, rep); }
    } else {
      ghost var sentNow;
      rep, sentNow := PushOne(args, local, peer, has, parsed.value, out, ctx, codec, truth);
      FrameGood(truth, start, before, peer.dir.fs.files, parsed.value);
      FrameOfImage(truth, raw, parsed.value, before, dirs, peer.dir.fs.files, peer.dir.fs.dirs);
      ghost var load := NewLoad(loads0, peer.loads);
      m := NextLedger(l, rep, peer.dir.fs.files, sentNow, load);
      if !args.dryRun {
        StepOfImage(truth, codec, sources[i], before, peer.dir.fs.files, parsed.value, has, rep, sentNow,
                    loads0, peer.loads, ctx.done);
        LoadsAppend(l, m, loads0, peer.loads, parsed.value, peer.dir.fs.files, ctx.done, rep, sentNow, peer.dir.fs.dirs);
        LedgerImage(truth, codec, args.images, sources, start, before, peer.dir.fs.files, parsed.value, has,
                    l, rep, sentNow, load);
        if rep.err.Some? && Pushable(truth, codec, raw, out, peer.isLayout) {
          PushableNoExcuse(truth, codec, raw, out, peer.isLayout, before, has, rep.err.value);
        }
      }
    }
  }

  lemma NoLoads(dirs: set<Key>)
    ensures DirsMade([], dirs) && NoneCancelled([])
  {
  }

  lemma NotLoaded(rep: Report)
    requires rep.err.Some? && rep.err.value.BadReference?
    ensures !Loaded(rep)
  {
  }

  /** Every image that could be pushed was. */
  ghost predicate PushesOk(truth: Truth, codec: Codec, images: seq<string>, script: seq<Outcome>, isLayout: bool, reports: seq<Report>)
    requires |reports| <= |images| == |script|
  {
    forall k :: 0 <= k < |reports| && Pushable(truth, codec, images[k], script[k], isLayout) ==> reports[k].err.None?
  }

  ghost predicate AllPushable(truth: Truth, codec: Codec, images: seq<string>, script: seq<Outcome>, isLayout: bool)
    requires |images| == |script|
  {
    forall k :: 0 <= k < |images| ==> Pushable(truth, codec, images[k], script[k], isLayout)
  }

  lemma AllPushed(truth: Truth, codec: Codec, args: Args, script: seq<Outcome>, isLayout: bool, result: RunResult,
                  err: Option<RunError>)
    requires FailurePolicy(args, result, err) && Resolved(err) && err != Some(Cancelled)
    requires |args.images| == |script| && |result.reports| <= |args.images|
    requires PushesOk(truth, codec, args.images, script, isLayout, result.reports)
    ensures AllPushable(truth, codec, args.images, script, isLayout) ==> Succeeded(args, result, err)
  {
    hide Pushable, FailurePolicy;
    if AllPushable(truth, codec, args.images, script, isLayout) {
      forall k | 0 <= k < |result.reports| ensures result.reports[k].err.None? {
        assert Pushable(truth, codec, args.images[k], script[k], isLayout);
      }
      AllDone(args, result, err);
    }
  }

  lemma PushesOkMore(truth: Truth, codec: Codec, images: seq<string>, script: seq<Outcome>, isLayout: bool, reports: seq<Report>,
                     rep: Report)
    requires |reports| < |images| == |script| && PushesOk(truth, codec, images, script, isLayout, reports)
    requires Pushable(truth, codec, images[|reports|], script[|reports|], isLayout) ==> rep.err.None?
    ensures PushesOk(truth, codec, images, script, isLayout, reports + [rep])
  {
    hide Pushable;
  }

  /** Every report of a dry run of a push is the plan of its image. */
  ghost predicate PushesDry(codec: Codec, images: seq<string>, script: seq<Outcome>, reports: seq<Report>, has: set<Digest>)
    requires |reports| <= |images| == |script|
  {
    forall k :: 0 <= k < |reports| ==> PushDry(codec, images[k], script[k].raw, reports[k], has)
  }

  lemma PushesDryMore(codec: Codec, images: seq<string>, script: seq<Outcome>, reports: seq<Report>, has: set<Digest>, rep: Report)
    requires |reports| < |images| == |script| && PushesDry(codec, images, script, reports, has)
    requires PushDry(codec, images[|reports|], script[|reports|].raw, rep, has)
    ensures PushesDry(codec, images, script, reports + [rep], has)
  {
    hide PushDry;
  }

  /** Every image that could be pulled was. */
  ghost predicate PullsOk(truth: Truth, codec: Codec, images: seq<string>, source: Files, script: seq<Outcome>, isLayout: bool,
                          reports: seq<Report>)
    requires |reports| <= |images| == |script|
  {
    forall k :: 0 <= k < |reports| && Pullable(truth, codec, images[k], source, isLayout || script[k].loads) ==> reports[k].err.None?
  }

  ghost predicate AllPullable(truth: Truth, codec: Codec, images: seq<string>, source: Files, script: seq<Outcome>, isLayout: bool)
    requires |images| == |script|
  {
    forall k :: 0 <= k < |images| ==> Pullable(truth, codec, images[k], source, isLayout || script[k].loads)
  }

  lemma AllPulled(truth: Truth, codec: Codec, args: Args, source: Files, script: seq<Outcome>, isLayout: bool, result: RunResult,
                  err: Option<RunError>)
    requires FailurePolicy(args, result, err) && Resolved(err) && err != Some(Cancelled)
    requires |args.images| == |script| && |result.reports| <= |args.images|
    requires PullsOk(truth, codec, args.images, source, script, isLayout, result.reports)
    ensures AllPullable(truth, codec, args.images, source, script, isLayout) ==> Succeeded(args, result, err)
  {
    hide Pullable, FailurePolicy;
    if AllPullable(truth, codec, args.images, source, script, isLayout) {
      forall k | 0 <= k < |result.reports| ensures result.reports[k].err.None? {
        assert Pullable(truth, codec, args.images[k], source, isLayout || script[k].loads);
      }
      AllDone(args, result, err);
    }
  }

  lemma PullsOkMore(truth: Truth, codec: Codec, images: seq<string>, source: Files, script: seq<Outcome>, isLayout: bool,
                    reports: seq<Report>, rep: Report)
    requires |reports| < |images| == |script| && PullsOk(truth, codec, images, source, script, isLayout, reports)
    requires Pullable(truth, codec, images[|reports|], source, isLayout || script[|reports|].loads) ==> rep.err.None?
    ensures PullsOk(truth, codec, images, source, script, isLayout, reports + [rep])
  {
    hide Pullable;
  }

  /** Every report of a dry run of a pull is the plan of its image. */
  ghost predicate PullsDry(codec: Codec, images: seq<string>, source: Files, reports: seq<Report>, has: set<Digest>, faulty: bool)
    requires |reports| <= |images|
  {
    forall k :: 0 <= k < |reports| ==> PulledDry(codec, images[k], source, reports[k], has, faulty)
  }

  lemma PullsDryMore(codec: Codec, images: seq<string>, source: Files, reports: seq<Report>, has: set<Digest>, rep: Report,
                     faulty: bool, later: bool)
    requires |reports| < |images| && PullsDry(codec, images, source, reports, has, faulty) && (faulty ==> later)
    requires PulledDry(codec, images[|reports|], source, rep, has, later)
    ensures PullsDry(codec, images, source, reports + [rep], has, later)
  {
    hide PulledDry;
    forall k | 0 <= k < |reports| ensures PulledDry(codec, images[k], source, reports[k], has, later) {
      PulledDryLater(codec, images[k], source, reports[k], has, faulty, later);
    }
  }

  /** The run came past its checks and has its have-set. */
  predicate Resolved(err: Option<RunError>)
  {
    err != Some(Invalid) && err != Some(EnumerateFailed)
  }

  /** Where the images of a push come from: the files their dumps leave. */
  function DumpFiles(script: seq<Outcome>): seq<Files>
  {
    seq(|script|, i requires 0 <= i < |script| => script[i].dump.files)
  }

  /** The images of a push, one after the other, under the have-set taken before. */
  method PushAll(args: Args, local: Endpoint, peer: Endpoint, script: seq<Outcome>, has: set<Digest>, ctx: Context, codec: Codec,
                 ghost truth: Truth)
    returns (result: RunResult, err: Option<RunError>, ghost ledger: Ledger)
    requires local.dir.fs != peer.dir.fs && peer.dir.limit >= 1
    requires |script| == |args.images|
    requires forall i :: 0 <= i < |script| && ParseSpec(args.images[i]).Ok? ==>
      LawfulDump(truth, codec, script[i], ParseSpec(args.images[i]).value)
    requires GoodPool(truth, peer.dir.fs.files)
    modifies local.dir.fs, peer.dir.fs, peer`loads, ctx
    ensures FailurePolicy(args, result, err) && Resolved(err)
    ensures err == Some(Cancelled) ==> ctx.done
    ensures old(ctx.done) ==> ctx.done && result.reports == []
    ensures (old(local.dir.fs.faulty) ==> local.dir.fs.faulty) && (old(peer.dir.fs.faulty) ==> peer.dir.fs.faulty)
    ensures result.failed == 0 ==>
      local.dir.fs.faulty == old(local.dir.fs.faulty) && peer.dir.fs.faulty == old(peer.dir.fs.faulty)
    ensures |result.reports| <= |args.images|
    ensures !args.dryRun && !local.dir.fs.faulty && !peer.dir.fs.faulty && !ctx.done ==>
      PushesOk(truth, codec, args.images, script, peer.isLayout, result.reports)
    ensures GoodPool(truth, peer.dir.fs.files) && KeepsBlobs(truth, old(peer.dir.fs.files), peer.dir.fs.files)
    ensures StoreFrame(args.images[..|result.reports|], old(peer.dir.fs.files), old(peer.dir.fs.dirs),
                       peer.dir.fs.files, peer.dir.fs.dirs)
    ensures args.dryRun ==> local.dir.fs.files == old(local.dir.fs.files) && local.dir.fs.dirs == old(local.dir.fs.dirs)
    ensures args.dryRun ==> peer.dir.fs.files == old(peer.dir.fs.files) && peer.dir.fs.dirs == old(peer.dir.fs.dirs)
    ensures args.dryRun ==> peer.loads == old(peer.loads) && PushesDry(codec, args.images, script, result.reports, has)
    ensures !args.dryRun ==>
      && ledger.reports == result.reports && peer.loads == old(peer.loads) + ledger.loads
      && LedgerInv(truth, codec, args.images, DumpFiles(script), has, old(peer.dir.fs.files), peer.dir.fs.files, ledger)
      && (!ctx.done ==> NoneCancelled(ledger.loads)) && DirsMade(ledger.loads, peer.dir.fs.dirs)
  {
    hide GoodPool, KeepsBlobs, LedgerInv, ImageFrame, Shipped, Delivered, SumSizes, ParseSpec, RelDumpDir, Closure, HasSound,
      LawfulDump, CountFailed, ReportsFor, TotalSent, TotalBytes, ReportsRun, ReportsPlan, DryOutcome, ReadManifest,
      StoreFrame, OneFrame, DirsMade, NoneCancelled, BlobInventory, RemoteHasIs, PushDry, PushesDry, PushesOk,
      ReportFor, SoundPool, GoodParts, HonestImage, Pushable;
    ghost var sources := DumpFiles(script);
    ghost var start, dirs0, loads0 := peer.dir.fs.files, peer.dir.fs.dirs, peer.loads;
    result, err, ledger := RunResult([], 0), None, EmptyLedger(start);
    LedgerEmpty(truth, codec, args.images, sources, has, start);
    NoReports(truth, codec, args, script, peer.isLayout, has);
    FrameNoImages(start, dirs0);
    NoLoads(dirs0);
    assert args.images[..0] == [];
    var i := 0;
    while i < |args.images|
      invariant 0 <= i <= |args.images| && |result.reports| == i && err.None?
      invariant result.failed == CountFailed(result.reports) && (args.keepGoing || result.failed == 0)
      invariant ReportsFor(args, result.reports)
      invariant GoodPool(truth, peer.dir.fs.files) && KeepsBlobs(truth, start, peer.dir.fs.files)
      invariant StoreFrame(args.images[..i], start, dirs0, peer.dir.fs.files, peer.dir.fs.dirs)
      invariant args.dryRun ==> local.dir.fs.files == old(local.dir.fs.files) && local.dir.fs.dirs == old(local.dir.fs.dirs)
      invariant args.dryRun ==> peer.dir.fs.files == start && peer.dir.fs.dirs == dirs0 && peer.loads == loads0
      invariant args.dryRun ==> PushesDry(codec, args.images, script, result.reports, has)
      invariant (old(local.dir.fs.faulty) ==> local.dir.fs.faulty) && (old(peer.dir.fs.faulty) ==> peer.dir.fs.faulty)
      invariant old(ctx.done) ==> ctx.done && i == 0
      invariant result.failed == 0 ==>
        local.dir.fs.faulty == old(local.dir.fs.faulty) && peer.dir.fs.faulty == old(peer.dir.fs.faulty)
      invariant !args.dryRun && !local.dir.fs.faulty && !peer.dir.fs.faulty && !ctx.done ==>
        PushesOk(truth, codec, args.images, script, peer.isLayout, result.reports)
      invariant !args.dryRun ==>
        && ledger.reports == result.reports && peer.loads == loads0 + ledger.loads
        && LedgerInv(truth, codec, args.images, sources, has, start, peer.dir.fs.files, ledger)
        && (!ctx.done ==> NoneCancelled(ledger.loads)) && DirsMade(ledger.loads, peer.dir.fs.dirs)
    {
      var cancelled := ctx.Poll();
      if cancelled {
        err := Some(Cancelled);
        break;
      }
      ghost var l, before, dirs := ledger, peer.dir.fs.files, peer.dir.fs.dirs;
      var rep;
      rep, ledger := PushImage(args, local, peer, has, args.images[i], script[i], ctx, codec, truth, sources, start, i, ledger);
      FrameGrows(args.images, i, start, dirs0, before, dirs, peer.dir.fs.files, peer.dir.fs.dirs);
      DirsKept(args.images[i], before, dirs, peer.dir.fs.files, peer.dir.fs.dirs);
      if args.dryRun {
        PushesDryMore(codec, args.images, script, result.reports, has, rep);
      } else {
        MoreDirsMade(l.loads, ledger.loads, dirs, peer.dir.fs.dirs);
        if !local.dir.fs.faulty && !peer.dir.fs.faulty && !ctx.done {
          PushesOkMore(truth, codec, args.images, script, peer.isLayout, result.reports, rep);
        }
      }
      OneMoreReport(args, result.reports, rep);
      TotalsAppend(result.reports, rep);
      result := RunResult(result.reports + [rep], result.failed + if rep.err.Some? then 1 else 0);
      i := i + 1;
      if rep.err.Some? && !args.keepGoing {
        err := Some(ImageFailed(rep.err.value));
        break;
      }
    }
  }

  /**
    A push of many images.  Whatever fails on the way and wherever the caller cancels, its
    record is sound (see `LedgerInv`) under the have-set used, and one read from the peer
    claims nothing that is not there.
   */
  method Push(args: Args, local: Endpoint, peer: Endpoint, script: seq<Outcome>, skopeoOk: bool,
              ctx: Context, codec: Codec, ghost truth: Truth)
    returns (result: RunResult, err: Option<RunError>, ghost ledger: Ledger, ghost usedHas: set<Digest>)
    requires local.dir.fs != peer.dir.fs && peer.dir.limit >= 1
    requires |script| == |args.images|
    requires forall i :: 0 <= i < |script| && ParseSpec(args.images[i]).Ok? ==>
      LawfulDump(truth, codec, script[i], ParseSpec(args.images[i]).value)
    requires GoodPool(truth, peer.dir.fs.files)
    modifies local.dir.fs, peer.dir.fs, peer`loads, ctx
    ensures FailurePolicy(args, result, err)
    ensures (old(local.dir.fs.faulty) ==> local.dir.fs.faulty) && (old(peer.dir.fs.faulty) ==> peer.dir.fs.faulty)
    ensures err == Some(Invalid) <==> args.images == [] || !local.configured || peer.readOnly || !skopeoOk
    ensures err == Some(Cancelled) ==> ctx.done
    ensures err == Some(EnumerateFailed) ==> args.assumeSet.None? && args.assumeList == [] && (peer.dir.fs.faulty || ctx.done)
    ensures old(ctx.done) ==> result.reports == []
    ensures Resolved(err) && result.failed == 0 ==>
      local.dir.fs.faulty == old(local.dir.fs.faulty) && peer.dir.fs.faulty == old(peer.dir.fs.faulty)
    ensures |result.reports| <= |args.images|
    ensures !args.dryRun && !local.dir.fs.faulty && !peer.dir.fs.faulty && !ctx.done ==>
      PushesOk(truth, codec, args.images, script, peer.isLayout, result.reports)
    ensures !args.dryRun && !local.dir.fs.faulty && !peer.dir.fs.faulty && !ctx.done && err != Some(Invalid) ==>
      (AllPushable(truth, codec, args.images, script, peer.isLayout) ==> Succeeded(args, result, err))
    ensures err == Some(Invalid) || err == Some(EnumerateFailed) ==>
      && result.reports == [] && local.dir.fs.files == old(local.dir.fs.files)
      && peer.dir.fs.files == old(peer.dir.fs.files) && peer.loads == old(peer.loads)
    ensures GoodPool(truth, peer.dir.fs.files) && KeepsBlobs(truth, old(peer.dir.fs.files), peer.dir.fs.files)
    ensures StoreFrame(args.images[..|result.reports|], old(peer.dir.fs.files), old(peer.dir.fs.dirs),
                       peer.dir.fs.files, peer.dir.fs.dirs)
    ensures args.dryRun ==> local.dir.fs.files == old(local.dir.fs.files) && local.dir.fs.dirs == old(local.dir.fs.dirs)
    ensures args.dryRun ==> peer.dir.fs.files == old(peer.dir.fs.files) && peer.dir.fs.dirs == old(peer.dir.fs.dirs)
    ensures args.dryRun ==> peer.loads == old(peer.loads)
    ensures args.dryRun ==> PushesDry(codec, args.images, script, result.reports, usedHas)
    ensures !args.dryRun ==>
      && ledger.reports == result.reports && peer.loads == old(peer.loads) + ledger.loads
      && LedgerInv(truth, codec, args.images, DumpFiles(script), usedHas, old(peer.dir.fs.files), peer.dir.fs.files, ledger)
      && (!ctx.done ==> NoneCancelled(ledger.loads)) && DirsMade(ledger.loads, peer.dir.fs.dirs)
    ensures Resolved(err) ==> RemoteHasIs(args, usedHas, old(peer.dir.fs.files), old(peer.dir.fs.dirs))
    ensures Enumerated(args) ==> HasSound(truth, old(peer.dir.fs.files), usedHas)
  {
    hide GoodPool, KeepsBlobs, LedgerInv, ParseSpec, HasSound, LawfulDump, CountFailed, ReportsFor, StoreFrame, DirsMade,
      NoneCancelled, BlobInventory, RemoteHasIs, PushesDry, PushesOk, AllPushable, Succeeded;
    ghost var start := peer.dir.fs.files;
    result, ledger, usedHas := RunResult([], 0), EmptyLedger(start), {};
    NothingClaimed(truth, start);
    LedgerEmpty(truth, codec, args.images, DumpFiles(script), {}, start);
    NoReports(truth, codec, args, script, peer.isLayout, {});
    FrameNoImages(start, peer.dir.fs.dirs);
    NoLoads(peer.dir.fs.dirs);
    assert args.images[..0] == [];
    if args.images == [] || !local.configured || peer.readOnly || !skopeoOk {
      return result, Some(Invalid), ledger, {};
    }
    var ok, has := ResolveRemoteHas(args, peer, ctx, truth);
    if !ok { return result, Some(EnumerateFailed), ledger, {}; }
    usedHas := has;
    result, err, ledger := PushAll(args, local, peer, script, has, ctx, codec, truth);
    if !args.dryRun && !local.dir.fs.faulty && !peer.dir.fs.faulty && !ctx.done {
      AllPushed(truth, codec, args, script, peer.isLayout, result, err);
    }
  }

  lemma DirsKept(raw: string, before: Files, dirs: set<Key>, now: Files, dirsNow: set<Key>)
    requires OneFrame(raw, before, dirs, now, dirsNow)
    ensures dirs <= dirsNow
  {
  }

  lemma NoReports(truth: Truth, codec: Codec, args: Args, script: seq<Outcome>, isLayout: bool, has: set<Digest>)
    requires |script| == |args.images|
    ensures CountFailed([]) == 0 && ReportsFor(args, [])
    ensures PushesOk(truth, codec, args.images, script, isLayout, []) && PushesDry(codec, args.images, script, [], has)
  {
  }

  lemma FrameGood(truth: Truth, start: Files, before: Files, now: Files, ref: ImageRef)
    requires ImageFrame(truth, before, now, ref) && KeepsBlobs(truth, start, before)
    ensures GoodPool(truth, now) && KeepsBlobs(truth, start, now)
  {
  }

  lemma NothingClaimed(truth: Truth, files: Files)
    ensures HasSound(truth, files, {})
  {
  }

  // ------------------------------------------------------------------------------ pull

  /**
    What a pull takes for the local have-set: as assumed, or what the store claims, with the
    closures of the dumps read for a layout store, with the live images otherwise.
   */
  ghost predicate LocalHasIs(args: Args, codec: Codec, isLayout: bool, live: Option<set<Digest>>, has: set<Digest>,
                             files: Files, dirs: set<Key>, unread: set<Key>)
  {
    if args.assumeSet.Some? then has == args.assumeSet.value
    else if args.assumeList != [] then forall d :: d in has <==> d in args.assumeList
    else if isLayout then
      forall d :: d in has <==> InSomeClosure(codec, files, dirs, unread, d) || d in BlobInventory(files, dirs)
    else live.Some? && has == live.value + BlobInventory(files, dirs)
  }

  /** When the store's own claim can be trusted. */
  ghost predicate ClaimTrue(truth: Truth, codec: Codec, isLayout: bool, live: Option<set<Digest>>, files: Files, dirs: set<Key>,
                            unread: set<Key>)
  {
    if isLayout then DumpsComplete(truth, codec, files, dirs, unread)
    else live.Some? ==> HasSound(truth, files, live.value)
  }

  /** The local have-set, and exactly when it names nothing that is not there. */
  method ResolveLocalHas(args: Args, local: Endpoint, live: Option<set<Digest>>, ctx: Context, codec: Codec, ghost truth: Truth)
    returns (ok: bool, has: set<Digest>, ghost unread: set<Key>)
    requires GoodPool(truth, local.dir.fs.files)
    modifies ctx, local.dir.fs`faulty
    ensures old(ctx.done) ==> ctx.done
    ensures old(local.dir.fs.faulty) ==> local.dir.fs.faulty
    ensures ok ==> local.dir.fs.faulty == (old(local.dir.fs.faulty) || unread != {})
    ensures !ok ==> args.assumeSet.None? && args.assumeList == []
    ensures !ok ==> local.dir.fs.faulty || ctx.done || (!local.isLayout && live.None?)
    ensures ok ==> LocalHasIs(args, codec, local.isLayout, live, has, local.dir.fs.files, local.dir.fs.dirs, unread)
    ensures ok && Enumerated(args) ==>
      (HasSound(truth, local.dir.fs.files, has)
       <==> ClaimTrue(truth, codec, local.isLayout, live, local.dir.fs.files, local.dir.fs.dirs, unread))
  {
    hide InSomeClosure, BlobInventory, DumpsComplete, HasSound, Lookup;
    unread := {};
    if args.assumeSet.Some? || args.assumeList != [] {
      has := AssumedHas(args);
      return true, has, {};
    }
    if local.isLayout {
      ok, has, unread := EnumerateOci(local.dir.fs, ctx, codec);
      if ok { LayoutHasSoundIff(truth, codec, local.dir.fs.files, local.dir.fs.dirs, unread, has); }
    } else {
      if live.None? { return false, {}, {}; }
      ok, has := UnionShareInventory(local.dir.fs, live.value);
      if ok { LiveHasSoundIff(truth, local.dir.fs.files, local.dir.fs.dirs, live.value); }
    }
  }

  /** With the live images of another transport, exactly if their blobs are all in the pool. */
  lemma LiveHasSoundIff(truth: Truth, files: Files, dirs: set<Key>, live: set<Digest>)
    requires SoundPool(truth, files)
    ensures HasSound(truth, files, live + BlobInventory(files, dirs)) <==> HasSound(truth, files, live)
  {
    hide BlobInventory;
    forall d | ValidDigest(d) && d in BlobInventory(files, dirs) ensures Lookup(files, FinalKey(d)) == Some(truth(d)) {
      InventoryIsPool(files, dirs, d);
    }
    forall d | d in live ensures d in live + BlobInventory(files, dirs) {
    }
  }

  /** Every dump that was read has its whole closure in the pool. */
  ghost predicate DumpsComplete(truth: Truth, codec: Codec, files: Files, dirs: set<Key>, unread: set<Key>)
  {
    forall p, d :: IsDump(files, dirs, p) && p !in unread && d in Closure(codec, files, DumpPath(p)) && ValidDigest(d) ==>
      Lookup(files, FinalKey(d)) == Some(truth(d))
  }

  /**
    The have-set of a layout store can be trusted exactly if every dump that was read has
    its whole closure in the pool, which a pull cut off between manifest and layers breaks.
   */
  lemma LayoutHasSoundIff(truth: Truth, codec: Codec, files: Files, dirs: set<Key>, unread: set<Key>, has: set<Digest>)
    requires SoundPool(truth, files)
    requires forall d :: d in has <==> InSomeClosure(codec, files, dirs, unread, d) || d in BlobInventory(files, dirs)
    ensures HasSound(truth, files, has) <==> DumpsComplete(truth, codec, files, dirs, unread)
  {
    hide BlobInventory, Closure, IsDump, DumpPath;
    forall d | ValidDigest(d) && d in BlobInventory(files, dirs) ensures Lookup(files, FinalKey(d)) == Some(truth(d)) {
      InventoryIsPool(files, dirs, d);
    }
    forall p, d | IsDump(files, dirs, p) && p !in unread && d in Closure(codec, files, DumpPath(p)) ensures d in has {
      assert InSomeClosure(codec, files, dirs, unread, d);
    }
  }

  lemma FewerDumps(truth: Truth, codec: Codec, files: Files, dirs: set<Key>, unread: set<Key>)
    requires DumpsComplete(truth, codec, files, dirs, {})
    ensures DumpsComplete(truth, codec, files, dirs, unread)
  {
    hide Closure, IsDump, DumpPath;
  }

  /** One text of a pull: parse it, process the image, and continue the record. */
  method PullImage(args: Args, local: Endpoint, peer: Endpoint, has: set<Digest>, raw: string, out: Outcome, ctx: Context,
                   codec: Codec, ghost truth: Truth, ghost sources: seq<Files>, ghost start: Files, ghost i: nat, ghost l: Ledger)
    returns (rep: Report, ghost m: Ledger)
    requires local.dir.fs != peer.dir.fs && local.dir.limit >= 1 && RoundTrips(codec)
    requires i < |args.images| && raw == args.images[i] && !ctx.done
    requires |sources| == |args.images| && sources[i] == peer.dir.fs.files
    requires ParseSpec(raw).Ok? && RelDumpDir(ParseSpec(raw).value).Ok? ==>
      HonestImage(truth, codec, peer.dir.fs.files, RelDumpDir(ParseSpec(raw).value).value)
    requires GoodPool(truth, start) && GoodPool(truth, local.dir.fs.files) && KeepsBlobs(truth, start, local.dir.fs.files)
    requires !args.dryRun ==>
      |l.reports| == i && NoneCancelled(l.loads) && LedgerInv(truth, codec, args.images, sources, has, start, local.dir.fs.files, l)
    modifies local.dir.fs, local`loads, ctx, peer.dir.fs`faulty
    ensures (old(local.dir.fs.faulty) ==> local.dir.fs.faulty) && (old(peer.dir.fs.faulty) ==> peer.dir.fs.faulty)
    ensures rep.err.None? ==>
      local.dir.fs.faulty == old(local.dir.fs.faulty) && peer.dir.fs.faulty == old(peer.dir.fs.faulty)
    ensures !args.dryRun && !local.dir.fs.faulty && !peer.dir.fs.faulty && !ctx.done ==>
      (Pullable(truth, codec, raw, peer.dir.fs.files, local.isLayout || out.loads) ==> rep.err.None?)
    ensures ReportFor(args.dryRun, raw, rep)
    ensures GoodPool(truth, local.dir.fs.files) && KeepsBlobs(truth, start, local.dir.fs.files)
    ensures args.dryRun ==> local.dir.fs.files == old(local.dir.fs.files) && local.dir.fs.dirs == old(local.dir.fs.dirs)
    ensures args.dryRun ==> local.loads == old(local.loads) && PulledDry(codec, raw, peer.dir.fs.files, rep, has, peer.dir.fs.faulty)
    ensures OneFrame(raw, old(local.dir.fs.files), old(local.dir.fs.dirs), local.dir.fs.files, local.dir.fs.dirs)
    ensures !args.dryRun ==>
      && m.reports == l.reports + [rep] && l.loads <= m.loads && local.loads == old(local.loads) + m.loads[|l.loads|..]
      && LedgerInv(truth, codec, args.images, sources, has, start, local.dir.fs.files, m)
      && (!ctx.done ==> NoneCancelled(m.loads)) && DirsMade(m.loads[|l.loads|..], local.dir.fs.dirs)
  {
    hide GoodPool, KeepsBlobs, LedgerInv, ImageFrame, Shipped, Delivered, SumSizes, ParseSpec, RelDumpDir, Closure, HasSound,
      HonestImage, TotalSent, TotalBytes, ReportsRun, ReportsPlan, ReadManifest, OneFrame, OnlyTagDirOf,
      ImageStep, Counted, Loaded, NoneCancelled, DirsMade, TagDir, Leaves, ToSend, MirrorsAt, CountsAt, RealCounts, DeliveryExcused, DumpExcused, PullDry, Unreadable, Serves, HonestImage,
      DocsOf;
    ghost var before, dirs, loads0 := local.dir.fs.files, local.dir.fs.dirs, local.loads;
    var parsed := Parse(raw);
    if parsed.Err? {
      rep := Report(ImageRef("", "", "", "", raw), 0, 0, 0, args.dryRun, Some(BadReference(parsed.error)));
      m := NextLedger(l, rep, before, {}, None);
      FrameSameStore(raw, before, dirs);
      NoLoads(local.dir.fs.dirs);
      NotLoaded(rep);
      if !args.dryRun { LedgerBadReference(truth, codec, args.images, sources, has, start, before, l, rep); }
    } else {
      ghost var sentNow;
      rep, sentNow := PullOne(args, local, peer, has, parsed.value, out, ctx, codec, truth);
      FrameGood(truth, start, before, local.dir.fs.files, parsed.value);
      FrameOfImage(truth, raw, parsed.value, before, dirs, local.dir.fs.files, local.dir.fs.dirs);
      ghost var load := NewLoad(loads0, local.loads);
      m := NextLedger(l, rep, local.dir.fs.files, sentNow, load);
      if !args.dryRun {
        StepOfImage(truth, codec, sources[i], before, local.dir.fs.files, parsed.value, has, rep, sentNow,
                    loads0, local.loads, ctx.done);
        LoadsAppend(l, m, loads0, local.loads, parsed.value, local.dir.fs.files, ctx.done, rep, sentNow, local.dir.fs.dirs);
        LedgerImage(truth, codec, args.images, sources, start, before, local.dir.fs.files, parsed.value, has,
                    l, rep, sentNow, load);
        if rep.err.Some? && Pullable(truth, codec, raw, peer.dir.fs.files, local.isLayout || out.loads) {
          PullableNoExcuse(truth, codec, raw, peer.dir.fs.files, local.isLayout || out.loads, before, has, rep.err.value);
        }
      }
    }
  }

  /** All images of a pull come from the peer's files. */
  function OneSource(files: Files, n: nat): seq<Files>
  {
    seq(n, _ => files)
  }

  /** The images of a pull, one after the other, under the have-set taken before. */
  method PullAll(args: Args, local: Endpoint, peer: Endpoint, script: seq<Outcome>, has: set<Digest>, ctx: Context, codec: Codec,
                 ghost truth: Truth)
    returns (result: RunResult, err: Option<RunError>, ghost ledger: Ledger)
    requires local.dir.fs != peer.dir.fs && local.dir.limit >= 1 && RoundTrips(codec)
    requires |script| == |args.images|
    requires forall i :: 0 <= i < |script| && ParseSpec(args.images[i]).Ok? && RelDumpDir(ParseSpec(args.images[i]).value).Ok? ==>
      HonestImage(truth, codec, peer.dir.fs.files, RelDumpDir(ParseSpec(args.images[i]).value).value)
    requires GoodPool(truth, local.dir.fs.files)
    modifies local.dir.fs, local`loads, ctx, peer.dir.fs`faulty
    ensures FailurePolicy(args, result, err) && Resolved(err)
    ensures err == Some(Cancelled) ==> ctx.done
    ensures old(ctx.done) ==> ctx.done && result.reports == []
    ensures (old(local.dir.fs.faulty) ==> local.dir.fs.faulty) && (old(peer.dir.fs.faulty) ==> peer.dir.fs.faulty)
    ensures result.failed == 0 ==>
      local.dir.fs.faulty == old(local.dir.fs.faulty) && peer.dir.fs.faulty == old(peer.dir.fs.faulty)
    ensures |result.reports| <= |args.images|
    ensures !args.dryRun && !local.dir.fs.faulty && !peer.dir.fs.faulty && !ctx.done ==>
      PullsOk(truth, codec, args.images, peer.dir.fs.files, script, local.isLayout, result.reports)
    ensures GoodPool(truth, local.dir.fs.files) && KeepsBlobs(truth, old(local.dir.fs.files), local.dir.fs.files)
    ensures StoreFrame(args.images[..|result.reports|], old(local.dir.fs.files), old(local.dir.fs.dirs),
                       local.dir.fs.files, local.dir.fs.dirs)
    ensures args.dryRun ==> local.dir.fs.files == old(local.dir.fs.files) && local.dir.fs.dirs == old(local.dir.fs.dirs)
    ensures args.dryRun ==> local.loads == old(local.loads)
    ensures args.dryRun ==> PullsDry(codec, args.images, peer.dir.fs.files, result.reports, has, peer.dir.fs.faulty)
    ensures !args.dryRun ==>
      && ledger.reports == result.reports && local.loads == old(local.loads) + ledger.loads
      && LedgerInv(truth, codec, args.images, OneSource(peer.dir.fs.files, |args.images|), has,
                   old(local.dir.fs.files), local.dir.fs.files, ledger)
      && (!ctx.done ==> NoneCancelled(ledger.loads)) && DirsMade(ledger.loads, local.dir.fs.dirs)
  {
    hide GoodPool, KeepsBlobs, LedgerInv, ImageFrame, Shipped, Delivered, SumSizes, ParseSpec, RelDumpDir, Closure, HasSound,
      CountFailed, ReportsFor, TotalSent, TotalBytes, ReportsRun, ReportsPlan, ReadManifest, HonestImage, BlobInventory,
      PullsDry, PullsOk, PulledDry, Pullable, StoreFrame, OneFrame, DirsMade, NoneCancelled, ReportFor, SoundPool, GoodParts;
    ghost var sources := OneSource(peer.dir.fs.files, |args.images|);
    ghost var start, dirs0, loads0 := local.dir.fs.files, local.dir.fs.dirs, local.loads;
    result, err, ledger := RunResult([], 0), None, EmptyLedger(start);
    LedgerEmpty(truth, codec, args.images, sources, has, start);
    NoPullReports(truth, codec, args, script, local.isLayout, has, peer.dir.fs.files, peer.dir.fs.faulty);
    FrameNoImages(start, dirs0);
    NoLoads(dirs0);
    assert args.images[..0] == [];
    var i := 0;
    while i < |args.images|
      invariant 0 <= i <= |args.images| && |result.reports| == i && err.None?
      invariant result.failed == CountFailed(result.reports) && (args.keepGoing || result.failed == 0)
      invariant ReportsFor(args, result.reports)
      invariant GoodPool(truth, local.dir.fs.files) && KeepsBlobs(truth, start, local.dir.fs.files)
      invariant StoreFrame(args.images[..i], start, dirs0, local.dir.fs.files, local.dir.fs.dirs)
      invariant args.dryRun ==> local.dir.fs.files == start && local.dir.fs.dirs == dirs0 && local.loads == loads0
      invariant args.dryRun ==> PullsDry(codec, args.images, peer.dir.fs.files, result.reports, has, peer.dir.fs.faulty)
      invariant (old(local.dir.fs.faulty) ==> local.dir.fs.faulty) && (old(peer.dir.fs.faulty) ==> peer.dir.fs.faulty)
      invariant old(ctx.done) ==> ctx.done && i == 0
      invariant result.failed == 0 ==>
        local.dir.fs.faulty == old(local.dir.fs.faulty) && peer.dir.fs.faulty == old(peer.dir.fs.faulty)
      invariant !args.dryRun && !local.dir.fs.faulty && !peer.dir.fs.faulty && !ctx.done ==>
        PullsOk(truth, codec, args.images, peer.dir.fs.files, script, local.isLayout, result.reports)
      invariant !args.dryRun ==>
        && ledger.reports == result.reports && local.loads == loads0 + ledger.loads
        && LedgerInv(truth, codec, args.images, sources, has, start, local.dir.fs.files, ledger)
        && (!ctx.done ==> NoneCancelled(ledger.loads)) && DirsMade(ledger.loads, local.dir.fs.dirs)
    {
      var cancelled := ctx.Poll();
      if cancelled {
        err := Some(Cancelled);
        break;
      }
      ghost var l, before, dirs, faulty := ledger, local.dir.fs.files, local.dir.fs.dirs, peer.dir.fs.faulty;
      var rep;
      rep, ledger := PullImage(args, local, peer, has, args.images[i], script[i], ctx, codec, truth, sources, start, i, ledger);
      FrameGrows(args.images, i, start, dirs0, before, dirs, local.dir.fs.files, local.dir.fs.dirs);
      DirsKept(args.images[i], before, dirs, local.dir.fs.files, local.dir.fs.dirs);
      if args.dryRun {
        PullsDryMore(codec, args.images, peer.dir.fs.files, result.reports, has, rep, faulty, peer.dir.fs.faulty);
      } else {
        MoreDirsMade(l.loads, ledger.loads, dirs, local.dir.fs.dirs);
        if !local.dir.fs.faulty && !peer.dir.fs.faulty && !ctx.done {
          PullsOkMore(truth, codec, args.images, peer.dir.fs.files, script, local.isLayout, result.reports, rep);
        }
      }
      OneMoreReport(args, result.reports, rep);
      TotalsAppend(result.reports, rep);
      result := RunResult(result.reports + [rep], result.failed + if rep.err.Some? then 1 else 0);
      i := i + 1;
      if rep.err.Some? && !args.keepGoing {
        err := Some(ImageFailed(rep.err.value));
        break;
      }
    }
  }

  lemma NoPullReports(truth: Truth, codec: Codec, args: Args, script: seq<Outcome>, isLayout: bool, has: set<Digest>,
                      source: Files, faulty: bool)
    requires |script| == |args.images|
    ensures CountFailed([]) == 0 && ReportsFor(args, [])
    ensures PullsOk(truth, codec, args.images, source, script, isLayout, [])
    ensures PullsDry(codec, args.images, source, [], has, faulty)
  {
  }

  /**
    A pull of many images.  Its record is sound under the have-set used; one read from the
    store claims nothing false exactly if the dumps read are complete (layout store), or
    the blobs of the live images are all in the pool (other transports).
   */
  method Pull(args: Args, local: Endpoint, peer: Endpoint, script: seq<Outcome>, skopeoOk: bool,
              live: Option<set<Digest>>, ctx: Context, codec: Codec, ghost truth: Truth)
    returns (result: RunResult, err: Option<RunError>, ghost ledger: Ledger, ghost usedHas: set<Digest>, ghost unread: set<Key>)
    requires local.dir.fs != peer.dir.fs && local.dir.limit >= 1 && RoundTrips(codec)
    requires |script| == |args.images|
    requires forall i :: 0 <= i < |script| && ParseSpec(args.images[i]).Ok? && RelDumpDir(ParseSpec(args.images[i]).value).Ok? ==>
      HonestImage(truth, codec, peer.dir.fs.files, RelDumpDir(ParseSpec(args.images[i]).value).value)
    requires GoodPool(truth, local.dir.fs.files)
    modifies local.dir.fs, local`loads, ctx, peer.dir.fs`faulty
    ensures FailurePolicy(args, result, err)
    ensures (old(local.dir.fs.faulty) ==> local.dir.fs.faulty) && (old(peer.dir.fs.faulty) ==> peer.dir.fs.faulty)
    ensures err == Some(Invalid) <==> args.images == [] || !local.configured || !skopeoOk
    ensures err == Some(Cancelled) ==> ctx.done
    ensures err == Some(EnumerateFailed) ==> args.assumeSet.None? && args.assumeList == []
    ensures err == Some(EnumerateFailed) ==> local.dir.fs.faulty || ctx.done || (!local.isLayout && live.None?)
    ensures old(ctx.done) ==> result.reports == []
    ensures Resolved(err) && result.failed == 0 ==>
      && local.dir.fs.faulty == (old(local.dir.fs.faulty) || unread != {})
      && peer.dir.fs.faulty == old(peer.dir.fs.faulty)
    ensures |result.reports| <= |args.images|
    ensures !args.dryRun && !local.dir.fs.faulty && !peer.dir.fs.faulty && !ctx.done ==>
      PullsOk(truth, codec, args.images, peer.dir.fs.files, script, local.isLayout, result.reports)
    ensures !args.dryRun && !local.dir.fs.faulty && !peer.dir.fs.faulty && !ctx.done && Resolved(err) ==>
      (AllPullable(truth, codec, args.images, peer.dir.fs.files, script, local.isLayout) ==> Succeeded(args, result, err))
    ensures GoodPool(truth, local.dir.fs.files) && KeepsBlobs(truth, old(local.dir.fs.files), local.dir.fs.files)
    ensures StoreFrame(args.images[..|result.reports|], old(local.dir.fs.files), old(local.dir.fs.dirs),
                       local.dir.fs.files, local.dir.fs.dirs)
    ensures args.dryRun ==> local.dir.fs.files == old(local.dir.fs.files) && local.dir.fs.dirs == old(local.dir.fs.dirs)
    ensures args.dryRun ==> local.loads == old(local.loads)
    ensures args.dryRun ==> PullsDry(codec, args.images, peer.dir.fs.files, result.reports, usedHas, peer.dir.fs.faulty)
    ensures !args.dryRun ==>
      && ledger.reports == result.reports && local.loads == old(local.loads) + ledger.loads
      && LedgerInv(truth, codec, args.images, OneSource(peer.dir.fs.files, |args.images|), usedHas,
                   old(local.dir.fs.files), local.dir.fs.files, ledger)
      && (!ctx.done ==> NoneCancelled(ledger.loads)) && DirsMade(ledger.loads, local.dir.fs.dirs)
    ensures Resolved(err) ==>
      LocalHasIs(args, codec, local.isLayout, live, usedHas, old(local.dir.fs.files), old(local.dir.fs.dirs), unread)
    ensures Resolved(err) && Enumerated(args) ==>
      (HasSound(truth, old(local.dir.fs.files), usedHas)
       <==> ClaimTrue(truth, codec, local.isLayout, live, old(local.dir.fs.files), old(local.dir.fs.dirs), unread))
  {
    hide GoodPool, KeepsBlobs, LedgerInv, ParseSpec, HasSound, HonestImage, CountFailed, ReportsFor, StoreFrame, DirsMade,
      NoneCancelled, BlobInventory, ClaimTrue, LocalHasIs, PullsDry, PullsOk, RelDumpDir, AllPullable, Succeeded;
    ghost var start := local.dir.fs.files;
    result, ledger, usedHas, unread := RunResult([], 0), EmptyLedger(start), {}, {};
    LedgerEmpty(truth, codec, args.images, OneSource(peer.dir.fs.files, |args.images|), {}, start);
    NoPullReports(truth, codec, args, script, local.isLayout, {}, peer.dir.fs.files, peer.dir.fs.faulty);
    FrameNoImages(start, local.dir.fs.dirs);
    NoLoads(local.dir.fs.dirs);
    assert args.images[..0] == [];
    if args.images == [] || !local.configured || !skopeoOk {
      return result, Some(Invalid), ledger, {}, {};
    }
    var ok, has;
    ok, has, unread := ResolveLocalHas(args, local, live, ctx, codec, truth);
    if !ok { return result, Some(EnumerateFailed), ledger, {}, unread; }
    usedHas := has;
    result, err, ledger := PullAll(args, local, peer, script, has, ctx, codec, truth);
    if !args.dryRun && !local.dir.fs.faulty && !peer.dir.fs.faulty && !ctx.done {
      AllPulled(truth, codec, args, peer.dir.fs.files, script, local.isLayout, result, err);
    }
  }
}
