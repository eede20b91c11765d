/** The multi-image OCI store over a file system: blob reads, blob transfer, tag files. */
module OciDirs {
  import opened Base
  import opened SlashPath
  import opened Digests
  import opened Transfer
  import opened Workers
  import opened ImageRefs
  import opened Layout
  import opened Vfs

  class Context {
    var done: bool

    constructor ()
      ensures !done
    {
      done := false;
    }

    /** Whether the caller has cancelled by now; a cancellation is never taken back. */
    method Poll() returns (cancelled: bool)
      modifies this
      ensures old(done) ==> done
      ensures cancelled == done
    {
      var now: bool := *;
      done := done || now;
      return done;
    }
  }

  datatype BlobError = MalformedDigest | BlobMissing | OffsetOutOfRange

  /** A blob from `offset` to its end, with its total size. */
  function ReadBlob(files: Files, d: Digest, offset: int): Result<(Bytes, nat), BlobError>
  {
    if !ValidDigest(d) then Err(MalformedDigest)
    else match Lookup(files, FinalKey(d))
      case None => Err(BlobMissing)
      case Some(content) =>
        if offset < 0 || offset > |content| then Err(OffsetOutOfRange)
        else Ok((content[offset..], |content|))
  }

  /** Where the file `name` of the dump directory of `ref` is, if the directory is one at all. */
  function TagFile(ref: ImageRef, name: string): Option<Key>
  {
    match RelDumpDir(ref)
    case Err(_) => None
    case Ok(rel) => KeyOf(JoinPath([rel, name]))
  }

  /** The place of the dump directory of `ref`. */
  function TagDir(ref: ImageRef): Option<Key>
  {
    match RelDumpDir(ref)
    case Err(_) => None
    case Ok(rel) => KeyOf(rel)
  }

  /** The only directories made are in the blob pool. */
  ghost predicate OnlyPoolDirs(before: set<Key>, dirs: set<Key>)
  {
    before <= dirs && forall d :: d in dirs && d !in before ==> [SHARE] <= d
  }

  datatype PutError =
    | BadDigest
    | StatDst
    | Mkdir
    | StatPartFile
    | RemoveOversize
    | OpenSrc
    | OpenPartFile
    | SeekPart
    | CopyFailed
    | ClosePart
    | RenameFailed

  /** The run with one more operation. */
  ghost function Then(up: Upload, s: State, run: seq<Event>, e: Event): (more: seq<Event>)
    ensures Run(up, s, more) == Step(up, Run(up, s, run), e)
    ensures Faultless(more) <==> Faultless(run) && e.Works?
  {
    assert (run + [e])[..|run|] == run;
    run + [e]
  }

  lemma NoFaultYet()
    ensures Faultless([])
  {
  }

  lemma EmptyRun(up: Upload, s: State)
    ensures Run(up, s, []) == s
  {
  }

  /** Only the two files of digest `d` may differ. */
  ghost predicate OnlyPool(before: Files, files: Files, d: Digest)
  {
    forall k :: k != FinalKey(d) && k != PartKey(d) ==> Lookup(files, k) == Lookup(before, k)
  }

  lemma StoredPart(files: Files, d: Digest, content: Option<Bytes>)
    requires ValidDigest(d)
    ensures var after := Store(files, PartKey(d), content);
      ViewOf(after, d) == ViewOf(files, d).(part := content) && OnlyPool(files, after, d)
  {
    KeysNeverCollide(d, d);
  }

  lemma RenamedPart(files: Files, d: Digest)
    requires ValidDigest(d) && PartKey(d) in files
    ensures var after := (files - {PartKey(d)})[FinalKey(d) := files[PartKey(d)]];
      ViewOf(after, d) == View(Some(files[PartKey(d)]), None) && OnlyPool(files, after, d)
  {
    KeysNeverCollide(d, d);
  }

  class FsOciDirs {
    const fs: Fs
    const limit: nat

    constructor (fs: Fs, limit: int)
      ensures this.fs == fs && this.limit == if limit <= 0 then 1 else limit
    {
      this.fs := fs;
      this.limit := if limit <= 0 then 1 else limit;
    }

    /**
      One blob, operation by operation.  `run` is the machine's run the operations amount
      to: it starts at the view the pool held and ends at the view it holds afterwards.
     */
    method PutOne(bu: Upload) returns (sent: bool, err: Option<PutError>, ghost run: seq<Event>)
      modifies fs
      ensures !ValidDigest(bu.digest) ==> err == Some(BadDigest) && fs.files == old(fs.files)
      ensures ValidDigest(bu.digest) ==>
                Run(bu, State(ViewOf(old(fs.files), bu.digest), StatFinal), run)
                == State(ViewOf(fs.files, bu.digest), if err.None? then Finished(sent) else Failed)
      ensures ValidDigest(bu.digest) ==> OnlyPool(old(fs.files), fs.files, bu.digest)
      ensures fs.dirs == old(fs.dirs) || fs.dirs == old(fs.dirs) + {FinalKey(bu.digest)[..2]}
      ensures err.None? && sent ==> FinalKey(bu.digest)[..2] in fs.dirs
      ensures (old(fs.faulty) ==> fs.faulty) && (err.None? ==> fs.faulty == old(fs.faulty))
      ensures !fs.faulty ==> Faultless(run)
      ensures ValidDigest(bu.digest) && !fs.faulty ==> (err.None? <==> CanFinish(bu, ViewOf(old(fs.files), bu.digest)))
    {
      run := [];
      if !ValidDigest(bu.digest) { return false, Some(BadDigest), []; }
      hide Run, Faultless;
      NoFaultYet();
      ghost var start := State(ViewOf(fs.files, bu.digest), StatFinal);
      EmptyRun(bu, start);
      var dstPath := FinalKey(bu.digest);

      var fi := fs.Stat(dstPath);
      if fi.IoError? { return false, Some(StatDst), Then(bu, start, run, Fails(false, 0)); }
      run := Then(bu, start, run, Works(0));
      if fi.Size? && fi.size == bu.size {
        if !fs.faulty { FaultlessOutcome(bu, start.view, run); }
        return false, None, run;
      }

      var ok := fs.MkdirAll(dstPath[..2]);
      if !ok { return false, Some(Mkdir), Then(bu, start, run, Fails(false, 0)); }
      run := Then(bu, start, run, Works(0));

      var startAt;
      startAt, err, run := FindStart(bu, start, run);
      if err.Some? { return false, err, run; }
      run := Then(bu, start, run, Works(0));
      if startAt == bu.size {
        sent, err, run := RenamePartFile(bu, start, run);
      } else {
        sent, err, run := CopyFrom(bu, startAt, start, run);
      }
      if !fs.faulty { FaultlessOutcome(bu, ViewOf(old(fs.files), bu.digest), run); }
    }

    /** Where to resume: at the end of the part file, or at 0 after removing one too long. */
    method FindStart(bu: Upload, ghost start: State, ghost before: seq<Event>)
      returns (startAt: nat, err: Option<PutError>, ghost run: seq<Event>)
      requires ValidDigest(bu.digest)
      requires Run(bu, start, before) == State(ViewOf(fs.files, bu.digest), StatPart)
      modifies fs
      ensures Run(bu, start, run)
           == State(ViewOf(fs.files, bu.digest), if err.None? then Decide(startAt) else Failed)
      ensures OnlyPool(old(fs.files), fs.files, bu.digest) && fs.dirs == old(fs.dirs)
      ensures (old(fs.faulty) ==> fs.faulty) && (err.None? ==> fs.faulty == old(fs.faulty))
      ensures !fs.faulty && Faultless(before) ==> Faultless(run)
      ensures err.Some? ==> fs.faulty
    {
      hide Run, Faultless;
      run := before;
      var part := PartKey(bu.digest);
      var fi := fs.Stat(part);
      if fi.IoError? { return 0, Some(StatPartFile), Then(bu, start, run, Fails(false, 0)); }
      run := Then(bu, start, run, Works(0));
      if fi.Size? {
        if fi.size > bu.size {
          var ok; ghost var landed;
          StoredPart(fs.files, bu.digest, None);
          ok, landed := fs.Remove(part);
          if !ok { return 0, Some(RemoveOversize), Then(bu, start, run, Fails(landed, 0)); }
          run := Then(bu, start, run, Works(0));
          return 0, None, run;
        }
        return fi.size, None, run;
      }
      return 0, None, run;
    }

    /** The last step: the part file becomes the final file. */
    method RenamePartFile(bu: Upload, ghost start: State, ghost before: seq<Event>)
      returns (sent: bool, err: Option<PutError>, ghost run: seq<Event>)
      requires ValidDigest(bu.digest)
      requires Run(bu, start, before) == State(ViewOf(fs.files, bu.digest), RenamePart)
      modifies fs
      ensures Run(bu, start, run)
           == State(ViewOf(fs.files, bu.digest), if err.None? then Finished(sent) else Failed)
      ensures OnlyPool(old(fs.files), fs.files, bu.digest) && fs.dirs == old(fs.dirs)
      ensures (old(fs.faulty) ==> fs.faulty) && (err.None? ==> fs.faulty == old(fs.faulty))
      ensures !fs.faulty && Faultless(before) ==> Faultless(run)
    {
      hide Run, Faultless;
      KeysNeverCollide(bu.digest, bu.digest);
      if PartKey(bu.digest) in fs.files { RenamedPart(fs.files, bu.digest); }
      var ok; ghost var landed;
      ok, landed := fs.Rename(PartKey(bu.digest), FinalKey(bu.digest));
      if !ok {
        return true, Some(RenameFailed), Then(bu, start, before, if fs.faulty then Fails(landed, 0) else Works(0));
      }
      return true, None, Then(bu, start, before, Works(0));
    }

    /** Opens the source and the part file at the start offset, copies, and renames. */
    method CopyFrom(bu: Upload, startAt: nat, ghost start: State, ghost before: seq<Event>)
      returns (sent: bool, err: Option<PutError>, ghost run: seq<Event>)
      requires ValidDigest(bu.digest)
      requires Run(bu, start, before) == State(ViewOf(fs.files, bu.digest), OpenSource(startAt))
      modifies fs
      ensures Run(bu, start, run)
           == State(ViewOf(fs.files, bu.digest), if err.None? then Finished(sent) else Failed)
      ensures OnlyPool(old(fs.files), fs.files, bu.digest) && fs.dirs == old(fs.dirs)
      ensures (old(fs.faulty) ==> fs.faulty) && (err.None? ==> fs.faulty == old(fs.faulty))
      ensures !fs.faulty && Faultless(before) ==> Faultless(run)
    {
      hide Run, WriteAt, PartKey, FinalKey, ValidDigest, Faultless;
      run := before;
      var part := PartKey(bu.digest);
      var fails := fs.Falters();
      if fails || bu.source.None? || startAt > |bu.source.value| {
        return false, Some(OpenSrc), Then(bu, start, run, if fails then Fails(false, 0) else Works(0));
      }
      run := Then(bu, start, run, Works(0));

      var ok; ghost var landed;
      StoredPart(fs.files, bu.digest, Some(OrEmpty(Lookup(fs.files, part))));
      ok, landed := fs.OpenCreate(part);
      if !ok { return false, Some(OpenPartFile), Then(bu, start, run, Fails(landed, 0)); }
      run := Then(bu, start, run, Works(0));
      if startAt > 0 {
        fails := fs.Falters();
        if fails { return false, Some(SeekPart), Then(bu, start, run, Fails(false, 0)); }
      }
      err, run := CopyChunks(bu, bu.source.value, startAt, start, run);
      if err.Some? { return false, err, run; }
      sent, err, run := RenamePartFile(bu, start, run);
    }

    /** Reads the source chunk by chunk from the offset on, writes what was read, and closes. */
    method CopyChunks(bu: Upload, src: Bytes, startAt: nat, ghost start: State, ghost before: seq<Event>)
      returns (err: Option<PutError>, ghost run: seq<Event>)
      requires ValidDigest(bu.digest) && bu.source == Some(src) && startAt <= |src|
      requires Run(bu, start, before) == State(ViewOf(fs.files, bu.digest), Copy(startAt, startAt))
      modifies fs
      ensures Run(bu, start, run)
           == State(ViewOf(fs.files, bu.digest), if err.None? then RenamePart else Failed)
      ensures OnlyPool(old(fs.files), fs.files, bu.digest) && fs.dirs == old(fs.dirs)
      ensures (old(fs.faulty) ==> fs.faulty) && (err.None? ==> fs.faulty == old(fs.faulty))
      ensures err.Some? ==> fs.faulty
      ensures err.None? && Faultless(before) ==> Faultless(run)
    {
      hide Run, WriteAt, PartKey, FinalKey, ValidDigest, Faultless;
      run := before;
      var d, part := bu.digest, PartKey(bu.digest);
      var fails: bool;
      var filePos, readPos := startAt, startAt;
      while readPos < |src|
        invariant readPos <= |src|
        invariant Run(bu, start, run) == State(ViewOf(fs.files, d), Copy(filePos, readPos))
        invariant OnlyPool(old(fs.files), fs.files, d) && fs.dirs == old(fs.dirs)
        invariant fs.faulty == old(fs.faulty) && (Faultless(before) ==> Faultless(run))
        decreases |src| - readPos
      {
        fails := fs.Falters();
        if fails { return Some(CopyFailed), Then(bu, start, run, Fails(false, 0)); }
        var k: nat := *;
        var n := ChunkLen(k, |src| - readPos);
        var chunk := src[readPos..readPos + n];
        ghost var files := fs.files;
        var ok; ghost var written;
        ok, written := fs.Write(part, filePos, chunk);
        WrittenChunk(bu, files, src, filePos, readPos, n, written);
        if !ok {
          return Some(CopyFailed), Then(bu, start, run, Fails(written > 0, written));
        }
        run := Then(bu, start, run, Works(n));
        filePos, readPos := filePos + n, readPos + n;
      }
      fails := fs.Falters();
      if fails { return Some(ClosePart), Then(bu, start, run, Fails(false, 0)); }
      run := Then(bu, start, run, Works(0));
      err := None;
    }

    /** Writes one small file of the dump directory of `ref`, atomically. */
    method PutTagFile(ref: ImageRef, name: string, data: Bytes) returns (ok: bool)
      modifies fs
      ensures ok ==> TagFile(ref, name).Some?
      ensures fs.files == old(fs.files)
           || (TagFile(ref, name).Some? && fs.files == old(fs.files)[TagFile(ref, name).value := data])
      ensures ok ==> fs.files == old(fs.files)[TagFile(ref, name).value := data]
      ensures fs.dirs == old(fs.dirs) || (TagDir(ref).Some? && fs.dirs == old(fs.dirs) + {TagDir(ref).value})
      ensures fs.files != old(fs.files) || ok ==> TagDir(ref).Some? && TagDir(ref).value in fs.dirs
      ensures (old(fs.faulty) ==> fs.faulty) && (ok ==> fs.faulty == old(fs.faulty))
      ensures !ok ==> fs.faulty || TagFile(ref, name).None? || TagDir(ref).None?
    {
      var rel := RelDumpDir(ref);
      if rel.Err? { return false; }
      var dir := KeyOf(rel.value);
      if dir.None? { return false; }
      ok := fs.MkdirAll(dir.value);
      if !ok { return false; }
      var key := KeyOf(JoinPath([rel.value, name]));
      if key.None? { return false; }
      ok := fs.SafeWrite(key.value, data);
    }

    /**
      A job on this store: each round one move of the dispatcher or of some worker, picked
      at will.  `schedule` is the sequence of moves made.
     */
    method PutBlobs(ctx: Context, ups: seq<Upload>, iterFails: bool)
      returns (result: Tally, err: bool, ghost schedule: seq<Choice>)
      requires limit >= 1 && Distinct(ups)
      modifies fs, ctx
      ensures OnlyPoolDirs(old(fs.dirs), fs.dirs)
      ensures old(ctx.done) ==> ctx.done
      ensures var job, s := Job(ups, iterFails, limit), Exec(Job(ups, iterFails, limit), Start(old(fs.files)), schedule);
        && Terminal(s)
        && fs.files == s.files && ctx.done == s.ctxDone
        && result == s.result && err == ReportsError(job, s)
      ensures (old(fs.faulty) ==> fs.faulty) && (!err ==> fs.faulty == old(fs.faulty))
      ensures !fs.faulty && !ctx.done ==> QuietSchedule(schedule)
      ensures !fs.faulty && !ctx.done ==> (err <==>
        iterFails || exists i :: 0 <= i < |ups| && !Transferable(old(fs.files), ups[i]))
    {
      hide Exec, Advance, Measure, Transferable, AnyBroken, QuietSchedule;
      var job := Job(ups, iterFails, limit);
      var s := Start(fs.files);
      schedule := [];
      NoMoves(job, s);
      assert QuietSchedule([]) by { NothingLoud(); }
      if ctx.done {
        schedule := Moved(job, s, schedule, Cancel);
        s := Advance(job, s, Cancel);
        CancelOnly(job, Start(fs.files));
      }
      while !Terminal(s)
        invariant fs.files == s.files && OnlyPoolDirs(old(fs.dirs), fs.dirs)
        invariant ctx.done == s.ctxDone && (old(ctx.done) ==> ctx.done)
        invariant s == Exec(job, Start(old(fs.files)), schedule)
        invariant !fs.faulty && !ctx.done ==> QuietSchedule(schedule)
        invariant (old(fs.faulty) ==> fs.faulty) && (fs.faulty && !old(fs.faulty) ==> AnyBroken(s.workers))
        decreases Measure(job, s)
      {
        ExecKeepsInv(job, old(fs.files), schedule);
        var c: Choice := *;
        EveryMoveProgresses(job, s, c);
        NeverStuck(job, old(fs.files), s);
        if Advance(job, s, c) == s { c := SomeMove(job, s); }
        CancelStays(job, s, c);
        FaultBreaks(job, s, c);
        fs.faulty := fs.faulty || IsFault(c);
        schedule := Moved(job, Start(old(fs.files)), schedule, c);
        MadeInPool(ups, s, c);
        fs.dirs := fs.dirs + MadeDirs(ups, s, c);
        s := Advance(job, s, c);
        fs.files := s.files;
        ctx.done := s.ctxDone;
      }
      if !fs.faulty && !ctx.done {
        QuietOutcome(job, old(fs.files), schedule);
        ExecKeepsInv(job, old(fs.files), schedule);
        QuietEnds(job, old(fs.files), s);
      }
      return s.result, ReportsError(job, s), schedule;
    }
  }

  /** The directory a move makes: the pool directory of the blob whose worker is to make it. */
  function MadeDirs(ups: seq<Upload>, s: Sys, c: Choice): set<Key>
  {
    match c
    case Operate(i, e) =>
      if i < |s.workers| && i < |ups| && s.workers[i] == Busy(MakeDir) && (e.Works? || e.landed)
      then {FinalKey(ups[i].digest)[..2]} else {}
    case _ => {}
  }

  lemma MadeInPool(ups: seq<Upload>, s: Sys, c: Choice)
    ensures forall d :: d in MadeDirs(ups, s, c) ==> [SHARE] <= d
  {
  }

  ghost function Moved(job: Job, s: Sys, schedule: seq<Choice>, c: Choice): (more: seq<Choice>)
    ensures Exec(job, s, more) == Advance(job, Exec(job, s, schedule), c)
    ensures QuietSchedule(more) <==> QuietSchedule(schedule) && Quiet(c)
  {
    assert (schedule + [c])[..|schedule|] == schedule;
    schedule + [c]
  }

  /** The move is an operation that fails. */
  predicate IsFault(c: Choice)
  {
    c.Operate? && c.event.Fails?
  }

  lemma StepBreaks(up: Upload, s: State, e: Event)
    requires e.Fails? && !s.pc.Stopped()
    ensures Step(up, s, e).pc.Failed?
  {
  }

  /** A worker whose operation fails is broken, and stays so. */
  lemma FaultBreaks(job: Job, s: Sys, c: Choice)
    ensures AnyBroken(s.workers) ==> AnyBroken(Advance(job, s, c).workers)
    ensures IsFault(c) && Advance(job, s, c) != s ==> AnyBroken(Advance(job, s, c).workers)
    ensures !IsFault(c) && !Quiet(c) ==> Advance(job, s, c).ctxDone
  {
    hide ViewOf, WithView, Step, Active;
    match c
    case Operate(i, e) =>
      if i < |s.workers| && i < |job.ups| && s.workers[i].Busy? && !s.workers[i].pc.Stopped() {
        var up := job.ups[i];
        var t := OperateStep(up, s, i, e);
        assert t.workers == s.workers[i := t.workers[i]];
        BrokenStays(s.workers, i, t.workers[i]);
        if e.Fails? {
          StepBreaks(up, State(ViewOf(s.files, up.digest), s.workers[i].pc), e);
          assert t.workers[i].Broken?;
        }
      }
    case Settle(i) =>
      if i < |s.workers| && s.workers[i].Busy? && s.workers[i].pc.Finished? {
        BrokenStays(s.workers, i, Counted(s.workers[i].pc.sent));
      }
    case Dispatch => SpawnKeepsBroken(s.workers);
    case Cancel =>
  }

  /** Uncancelled and with none broken, the loop was not cut. */
  lemma QuietEnds(job: Job, files: Files, s: Sys)
    requires Inv(job, files, s) && Terminal(s) && !s.ctxDone
    ensures !AnyBroken(s.workers) ==> s.loop == Ended(false)
  {
    hide EachWorker, RestUntouched, TallyOf;
  }

  lemma NothingLoud()
    ensures QuietSchedule([])
  {
  }

  lemma NoMoves(job: Job, s: Sys)
    ensures Exec(job, s, []) == s
  {
  }

  lemma CancelOnly(job: Job, s: Sys)
    ensures Advance(job, s, Cancel) == s.(ctxDone := true)
  {
  }

  lemma CancelStays(job: Job, s: Sys, c: Choice)
    ensures s.ctxDone ==> Advance(job, s, c).ctxDone
  {
    hide Step, WithView, ViewOf, Active, AnyBroken;
  }

  /** What a write of a chunk, or of a part of it, does to the view is what the machine does. */
  lemma WrittenChunk(bu: Upload, files: Files, src: Bytes, filePos: nat, readPos: nat, n: nat, written: nat)
    requires ValidDigest(bu.digest) && bu.source == Some(src)
    requires 1 <= n <= COPY_BUFFER_SIZE && readPos + n <= |src| && written <= n
    ensures var d, part := bu.digest, PartKey(bu.digest);
      var after := if written == 0 then files
        else files[part := WriteAt(OrEmpty(Lookup(files, part)), filePos, src[readPos..readPos + n][..written])];
      && OnlyPool(files, after, d)
      && (written > 0 ==>
           Next(bu, State(ViewOf(files, d), Copy(filePos, readPos)), written)
           == State(ViewOf(after, d), Copy(filePos + written, readPos + written)))
  {
    var d, part := bu.digest, PartKey(bu.digest);
    if written > 0 {
      assert src[readPos..readPos + n][..written] == src[readPos..readPos + written];
      StoredPart(files, d, Some(WriteAt(OrEmpty(Lookup(files, part)), filePos, src[readPos..readPos + written])));
    }
  }
}
