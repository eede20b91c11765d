/** The bytes a job really appends to part files, against the bytes it counts as sent. */
module Accounting {
  import opened Base
  import opened SlashPath
  import opened Digests
  import opened Transfer
  import opened Workers
  import opened Plan

  /** The bytes one move of a job appends to a part file. */
  function MoveAdds(job: Job, s: Sys, c: Choice): int
  {
    match c
    case Operate(i, e) =>
      if i < |s.workers| && i < |job.ups| && s.workers[i].Busy? && !s.workers[i].pc.Stopped() && ValidDigest(job.ups[i].digest)
      then AddedBy(job.ups[i], State(ViewOf(s.files, job.ups[i].digest), s.workers[i].pc), e)
      else 0
    case _ => 0
  }

  function JobAdds(job: Job, s: Sys, schedule: seq<Choice>): int
  {
    if schedule == [] then 0
    else
      var front := schedule[..|schedule| - 1];
      JobAdds(job, s, front) + MoveAdds(job, Exec(job, s, front), schedule[|schedule| - 1])
  }

  /** The bytes of one upload already at the destination; one with a malformed digest has none. */
  function Share(up: Upload, files: Files): nat
  {
    if ValidDigest(up.digest) then Landed(up, ViewOf(files, up.digest)) else 0
  }

  predicate SameViews(ups: seq<Upload>, a: Files, b: Files)
  {
    forall i :: 0 <= i < |ups| && ValidDigest(ups[i].digest) ==> ViewOf(a, ups[i].digest) == ViewOf(b, ups[i].digest)
  }

  /** The bytes of the uploads already at the destination. */
  function LandedAll(ups: seq<Upload>, files: Files): nat
  {
    if ups == [] then 0
    else
      var up := ups[|ups| - 1];
      LandedAll(ups[..|ups| - 1], files) + Share(up, files)
  }

  predicate SizesMatch(ups: seq<Upload>)
  {
    forall i :: 0 <= i < |ups| ==> SizeMatchesSource(ups[i])
  }

  lemma {:induction false} LandedSame(ups: seq<Upload>, a: Files, b: Files)
    requires SameViews(ups, a, b)
    ensures LandedAll(ups, a) == LandedAll(ups, b)
    decreases |ups|
  {
    hide ViewOf, Landed;
    if ups != [] { LandedSame(ups[..|ups| - 1], a, b); }
  }

  /** A change of one upload's files changes the sum by that upload's share. */
  lemma {:induction false} LandedOne(ups: seq<Upload>, a: Files, b: Files, i: nat)
    requires i < |ups|
    requires forall j :: 0 <= j < |ups| && j != i && ValidDigest(ups[j].digest) ==>
      ViewOf(a, ups[j].digest) == ViewOf(b, ups[j].digest)
    ensures LandedAll(ups, b) - LandedAll(ups, a) == Share(ups[i], b) - Share(ups[i], a)
    decreases |ups|
  {
    hide ViewOf, Landed;
    var n := |ups| - 1;
    if i < n { LandedOne(ups[..n], a, b, i); } else { LandedSame(ups[..n], a, b); }
  }

  lemma OperateAdds(job: Job, files: Files, s: Sys, i: nat, e: Event)
    requires Inv(job, files, s) && Distinct(job.ups) && SizesMatch(job.ups)
    requires i < |s.workers| && s.workers[i].Busy? && !s.workers[i].pc.Stopped()
    ensures 0 <= MoveAdds(job, s, Operate(i, e))
         == LandedAll(job.ups, OperateStep(job.ups[i], s, i, e).files) - LandedAll(job.ups, s.files)
  {
    hide At, Step, ViewOf, WithView, Landed, AddedBy, TallyOf, LoopInv, RestUntouched, EachWorker;
    var up, t := job.ups[i], OperateStep(job.ups[i], s, i, e);
    if !ValidDigest(up.digest) { return; }
    var st := State(ViewOf(s.files, up.digest), s.workers[i].pc);
    WorkerOf(job, files, s, i);
    StepAccounts(up, ViewOf(files, up.digest), st, e);
    ViewAfter(s.files, up.digest, Step(up, st, e).view);
    forall j | 0 <= j < |job.ups| && j != i && ValidDigest(job.ups[j].digest)
      ensures ViewOf(t.files, job.ups[j].digest) == ViewOf(s.files, job.ups[j].digest)
    {
      OtherView(s.files, up.digest, Step(up, st, e).view, job.ups[j].digest);
    }
    LandedOne(job.ups, s.files, t.files, i);
  }

  lemma MoveAccounts(job: Job, files: Files, s: Sys, c: Choice)
    requires Inv(job, files, s) && Distinct(job.ups) && SizesMatch(job.ups)
    ensures 0 <= MoveAdds(job, s, c) == LandedAll(job.ups, Advance(job, s, c).files) - LandedAll(job.ups, s.files)
  {
    hide LandedAll, OperateStep, AddedBy, EachWorker, RestUntouched, TallyOf, LoopInv, ViewOf, Active, AnyBroken;
    match c
    case Operate(i, e) =>
      if i < |s.workers| && s.workers[i].Busy? && !s.workers[i].pc.Stopped() { OperateAdds(job, files, s, i, e); }
    case _ =>
  }

  /**
    At every point of every schedule, faults and cancellations included, the bytes appended
    are those by which the uploads together got closer to complete.
   */
  lemma {:induction false} JobAccounts(job: Job, files: Files, schedule: seq<Choice>)
    requires Distinct(job.ups) && SizesMatch(job.ups)
    ensures 0 <= JobAdds(job, Start(files), schedule)
         == LandedAll(job.ups, Exec(job, Start(files), schedule).files) - LandedAll(job.ups, files)
    decreases |schedule|
  {
    hide Advance, LandedAll, MoveAdds, Inv;
    if schedule != [] {
      var front := schedule[..|schedule| - 1];
      JobAccounts(job, files, front);
      ExecKeepsInv(job, files, front);
      MoveAccounts(job, files, Exec(job, Start(files), front), schedule[|schedule| - 1]);
    }
  }

  /** The bytes of part files that the uploads not complete yet resume from. */
  function ResumedFrom(ups: seq<Upload>, files: Files): nat
  {
    if ups == [] then 0
    else
      var up := ups[|ups| - 1];
      ResumedFrom(ups[..|ups| - 1], files) +
        if Complete(up, ViewOf(files, up.digest)) then 0 else StartAt(up, ViewOf(files, up.digest))
  }

  lemma SettledLands(up: Upload, v: View)
    requires SizeMatchesSource(up) && CanFinish(up, v)
    ensures Landed(up, Settled(up, v)) == up.size
    ensures Landed(up, v) == if Complete(up, v) then up.size else StartAt(up, v)
  {
    if Readable(up, v) { ResumedGrows(up, v, |up.source.value|, 0); }
  }

  /** Uploads done one after the other: what they counted as sent they appended or resumed from. */
  lemma {:induction false} SequentialBytes(files: Files, ups: seq<Upload>, after: Files)
    requires Distinct(ups) && AllValid(ups) && SizesMatch(ups)
    requires forall i :: 0 <= i < |ups| ==> Transferable(files, ups[i])
    requires forall i :: 0 <= i < |ups| ==> ViewOf(after, ups[i].digest) == Settled(ups[i], ViewOf(files, ups[i].digest))
    ensures LandedAll(ups, after) - LandedAll(ups, files) + ResumedFrom(ups, files) == Sequential(files, ups).1.bytesSent
    decreases |ups|
  {
    hide Sequential, ViewOf, Complete, Settled, Landed, StartAt, CanFinish;
    if ups == [] {
      NothingSequential(files);
    } else {
      var n := |ups| - 1;
      var up := ups[n];
      DistinctOthers(ups, n);
      SequentialBytes(files, ups[..n], after);
      TallyUnfold(files, ups);
      assert Transferable(files, up);
      SettledLands(up, ViewOf(files, up.digest));
    }
  }

  lemma NothingSequential(files: Files)
    ensures Sequential(files, []).1 == Tally(0, 0, 0)
  {
  }

  lemma {:induction false} LandedSplit(ups: seq<Upload>, n: nat, a: Files, b: Files)
    requires n <= |ups| && SameViews(ups[n..], a, b)
    ensures LandedAll(ups, b) - LandedAll(ups, a) == LandedAll(ups[..n], b) - LandedAll(ups[..n], a)
    decreases |ups|
  {
    hide ViewOf, Landed;
    if n < |ups| {
      var front := ups[..|ups| - 1];
      assert ups[n..][..|ups| - 1 - n] == front[n..];
      assert ups[n..][|ups| - 1 - n] == ups[|ups| - 1];
      LandedSplit(front, n, a, b);
      assert front[..n] == ups[..n];
    } else {
      assert ups[..n] == ups;
    }
  }

  /**
    When a job ends with no worker broken, the bytes it counts as sent are the bytes it
    appended together with those it resumed from: a blob whose part file was already there
    counts with its full size.
   */
  lemma SentIsAppendedAndResumed(job: Job, files: Files, schedule: seq<Choice>)
    requires Distinct(job.ups) && SizesMatch(job.ups)
    requires var s := Exec(job, Start(files), schedule); Terminal(s) && !AnyBroken(s.workers)
    ensures var s := Exec(job, Start(files), schedule);
      && |s.workers| <= |job.ups|
      && s.result.bytesSent == JobAdds(job, Start(files), schedule) + ResumedFrom(job.ups[..|s.workers|], files)
  {
    hide Exec, ViewOf, Sequential, Terminal, JobAdds, LandedAll, ResumedFrom, Transferable, Settled, AnyBroken;
    ScheduleIndependence(job, files, schedule);
    JobAccounts(job, files, schedule);
    var s := Exec(job, Start(files), schedule);
    var n := |s.workers|;
    var done := job.ups[..n];
    forall i | 0 <= i < n ensures Transferable(files, done[i]) { assert done[i] == job.ups[i]; }
    TransferableValid(files, done);
    SequentialSettles(files, done);
    forall i | 0 <= i < |job.ups[n..]| && ValidDigest(job.ups[n..][i].digest)
      ensures ViewOf(files, job.ups[n..][i].digest) == ViewOf(s.files, job.ups[n..][i].digest)
    {
      assert job.ups[n..][i] == job.ups[n + i];
      ForeignView(files, done, s.files, job.ups[n + i].digest);
    }
    SequentialBytes(files, done, s.files);
    LandedSplit(job.ups, n, files, s.files);
  }

  lemma TransferableValid(files: Files, ups: seq<Upload>)
    requires forall i :: 0 <= i < |ups| ==> Transferable(files, ups[i])
    ensures AllValid(ups)
  {
  }

  // ------------------------------------------------------------------------- many attempts

  /** The bytes appended over several invocations, each from what the one before left. */
  function SessionsAdd(files: Files, sessions: seq<Session>): int
  {
    if sessions == [] then 0
    else
      var front, last := sessions[..|sessions| - 1], sessions[|sessions| - 1];
      SessionsAdd(files, front) + JobAdds(last.job, Start(RunSessions(files, front)), last.schedule)
  }

  /** Attempt after attempt at the same uploads, nothing is appended twice. */
  lemma {:induction false} SessionsAccount(ups: seq<Upload>, files: Files, sessions: seq<Session>)
    requires Distinct(ups) && SizesMatch(ups)
    requires forall i :: 0 <= i < |sessions| ==> sessions[i].job.ups == ups
    ensures 0 <= SessionsAdd(files, sessions) == LandedAll(ups, RunSessions(files, sessions)) - LandedAll(ups, files)
    decreases |sessions|
  {
    hide Exec, LandedAll, JobAdds;
    if sessions != [] {
      var front, last := sessions[..|sessions| - 1], sessions[|sessions| - 1];
      SessionsAccount(ups, files, front);
      JobAccounts(last.job, RunSessions(files, front), last.schedule);
    }
  }

  lemma {:induction false} AllLanded(ups: seq<Upload>, files: Files)
    requires AllValid(ups)
    requires forall i :: 0 <= i < |ups| ==> Landed(ups[i], ViewOf(files, ups[i].digest)) == ups[i].size
    ensures LandedAll(ups, files) == TotalSize(ups)
    decreases |ups|
  {
    hide ViewOf, Landed;
    if ups != [] { AllLanded(ups[..|ups| - 1], files); }
  }

  function TotalSize(ups: seq<Upload>): nat
  {
    if ups == [] then 0 else TotalSize(ups[..|ups| - 1]) + ups[|ups| - 1].size
  }

  /**
    Over any number of cut-off invocations and one that accepts all its uploads, all bytes
    appended are exactly those that were missing at the very start.
   */
  lemma SessionsFinish(ups: seq<Upload>, files: Files, sessions: seq<Session>, last: Session)
    requires Distinct(ups) && SizesMatch(ups) && last.job.ups == ups
    requires forall i :: 0 <= i < |sessions| ==> sessions[i].job.ups == ups
    requires var s := Exec(last.job, Start(RunSessions(files, sessions)), last.schedule);
      Terminal(s) && !AnyBroken(s.workers) && s.loop == Ended(false)
    ensures SessionsAdd(files, sessions + [last]) == TotalSize(ups) - LandedAll(ups, files)
  {
    hide Exec, LandedAll, TotalSize, ViewOf, Terminal, Sequential, Settled, Landed, CanFinish, SessionsAdd, AnyBroken;
    var all, mid := sessions + [last], RunSessions(files, sessions);
    assert all[..|sessions|] == sessions;
    SessionsAccount(ups, files, all);
    ScheduleIndependence(last.job, mid, last.schedule);
    assert ups[..|ups|] == ups;
    TransferableValid(mid, ups);
    SequentialSettles(mid, ups);
    var now := Exec(last.job, Start(mid), last.schedule).files;
    forall i | 0 <= i < |ups| ensures Landed(ups[i], ViewOf(now, ups[i].digest)) == ups[i].size {
      assert Transferable(mid, ups[i]);
      SettledLands(ups[i], ViewOf(mid, ups[i].digest));
    }
    AllLanded(ups, now);
  }
}
