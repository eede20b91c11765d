/**
  When one upload of a job can be in place while another, missing one is not: over every
  schedule, with and without copies that go on after their group was cancelled.
 */
module Overtaking {
  import opened Base
  import opened SlashPath
  import opened Digests
  import opened Transfer
  import opened Workers

  /** A read of the source that begins after the group was cancelled delivers nothing. */
  predicate StopsCopying(s: Sys, c: Choice)
  {
    match c
    case Operate(i, e) => i < |s.workers| && s.workers[i].Busy? && s.workers[i].pc.Copy? && Cancelled(s) ==> !e.Works?
    case _ => true
  }

  /** In this schedule no copy goes on after the group was cancelled. */
  predicate Heeds(job: Job, files: Files, schedule: seq<Choice>)
  {
    schedule == [] ||
    var front := schedule[..|schedule| - 1];
    Heeds(job, files, front) && StopsCopying(Exec(job, Start(files), front), schedule[|schedule| - 1])
  }

  lemma CancelledStays(job: Job, s: Sys, c: Choice)
    requires Cancelled(s)
    ensures Cancelled(Advance(job, s, c))
  {
    hide Step, ViewOf, WithView, Active;
    match c
    case Operate(i, e) =>
      if i < |s.workers| && i < |job.ups| && s.workers[i].Busy? && !s.workers[i].pc.Stopped() {
        var t := OperateStep(job.ups[i], s, i, e);
        assert t.workers == s.workers[i := t.workers[i]];
        BrokenStays(s.workers, i, t.workers[i]);
      }
    case Settle(i) =>
      if i < |s.workers| && s.workers[i].Busy? && s.workers[i].pc.Finished? {
        BrokenStays(s.workers, i, Counted(s.workers[i].pc.sent));
      }
    case Dispatch => SpawnKeepsBroken(s.workers);
    case Cancel =>
  }

  /** A schedule that ends uncancelled had nothing to heed. */
  lemma {:induction false} UncancelledHeeds(job: Job, files: Files, schedule: seq<Choice>)
    requires !Cancelled(Exec(job, Start(files), schedule))
    ensures Heeds(job, files, schedule)
    decreases |schedule|
  {
    hide Advance, Cancelled;
    if schedule != [] {
      var front, c := schedule[..|schedule| - 1], schedule[|schedule| - 1];
      var s := Exec(job, Start(files), front);
      if Cancelled(s) { CancelledStays(job, s, c); }
      UncancelledHeeds(job, files, front);
    }
  }

  lemma HeedsMore(job: Job, files: Files, schedule: seq<Choice>, c: Choice)
    requires Heeds(job, files, schedule) && StopsCopying(Exec(job, Start(files), schedule), c)
    ensures Heeds(job, files, schedule + [c])
  {
    assert (schedule + [c])[..|schedule|] == schedule;
  }

  lemma PausedHeeds(job: Job, files: Files, schedule: seq<Choice>, n: nat, active: nat)
    requires PausedAt(Exec(job, Start(files), schedule), n, active)
    ensures Heeds(job, files, schedule)
  {
    UncancelledHeeds(job, files, schedule);
  }

  // ------------------------------------------------------------------ one slot: what cannot be

  /** With one slot every worker but the last has returned, and every one but two has counted. */
  predicate OneAtATime(s: Sys)
  {
    var n := |s.workers|;
    && (forall j :: 0 <= j < n - 1 ==> !s.workers[j].Busy?)
    && (forall j :: 0 <= j < n - 2 ==> s.workers[j].Counted?)
    && (s.loop == Blocked ==> forall j :: 0 <= j < n - 1 ==> s.workers[j].Counted?)
  }

  lemma OneSlotMove(job: Job, s: Sys, c: Choice)
    requires job.limit == 1 && OneAtATime(s)
    ensures OneAtATime(Advance(job, s, c))
  {
    hide Step, ViewOf, WithView;
    match c
    case Operate(i, e) =>
      if i < |s.workers| && i < |job.ups| && s.workers[i].Busy? && !s.workers[i].pc.Stopped() {
        var t := OperateStep(job.ups[i], s, i, e);
        assert t.workers == s.workers[i := t.workers[i]];
      }
    case Settle(i) =>
    case Dispatch =>
    case Cancel =>
  }

  lemma {:induction false} OneSlotExec(job: Job, files: Files, schedule: seq<Choice>)
    requires job.limit == 1
    ensures OneAtATime(Exec(job, Start(files), schedule))
    decreases |schedule|
  {
    hide Advance;
    if schedule != [] {
      var front := schedule[..|schedule| - 1];
      OneSlotExec(job, files, front);
      OneSlotMove(job, Exec(job, Start(files), front), schedule[|schedule| - 1]);
    }
  }

  /** A worker that counted left its upload in place. */
  lemma CountedIsPlaced(job: Job, files: Files, s: Sys, i: nat)
    requires Inv(job, files, s) && i < |s.workers| && s.workers[i].Counted?
    ensures ViewOf(s.files, job.ups[i].digest).final.Some?
  {
    hide At, Settled, EachWorker, RestUntouched, TallyOf, LoopInv, ViewOf;
    WorkerOf(job, files, s, i);
    var up := job.ups[i];
    CountedIs(up, ViewOf(files, up.digest), ViewOf(s.files, up.digest), s.workers[i].sent);
    SettledIsPlaced(up, ViewOf(files, up.digest));
  }

  lemma SettledIsPlaced(up: Upload, v: View)
    ensures Settled(up, v).final.Some?
  {
  }

  /** An upload that was not dispatched is as it was. */
  lemma NotDispatched(job: Job, files: Files, s: Sys, i: nat)
    requires Inv(job, files, s) && Distinct(job.ups) && |s.workers| <= i < |job.ups| && ValidDigest(job.ups[i].digest)
    ensures ViewOf(s.files, job.ups[i].digest) == ViewOf(files, job.ups[i].digest)
  {
    hide EachWorker, TallyOf, LoopInv;
    OutsideKeys(job.ups[..|s.workers|], job.ups[i].digest);
  }

  /** The machine is on none of the steps that put the final file in place, or past them. */
  predicate Unplaced(pc: Pc)
  {
    !pc.RenamePart? && !pc.Finished?
  }

  /** Without a read, a transfer whose part file is not complete comes to no rename. */
  lemma NoReadNoRename(up: Upload, v: View, s: State, e: Event)
    requires At(up, v, s) && Unplaced(s.pc) && !s.pc.Stopped()
    requires v.final.None? && StartAt(up, v) != up.size && s.view.final.None?
    requires s.pc.Copy? ==> !e.Works?
    ensures Unplaced(Step(up, s, e).pc) && Step(up, s, e).view.final.None?
  {
    hide Between, WriteAt, Resumed;
  }

  /** A worker that has not put its upload in place and is not about to. */
  predicate NotYet(files: Files, d: Digest, w: Worker)
  {
    ViewOf(files, d).final.None? && (w.Busy? ==> Unplaced(w.pc)) && !w.Counted?
  }

  /**
    The worker after `l`, if `l` has not counted: `l` is broken, so the group is cancelled,
    and this one has not come to its rename.
   */
  predicate LateWorker(job: Job, l: nat, s: Sys)
    requires l + 1 < |job.ups|
  {
    |s.workers| == l + 2 && !s.workers[l].Counted? ==>
      s.workers[l].Broken? && NotYet(s.files, job.ups[l + 1].digest, s.workers[l + 1])
  }

  /** The late worker itself makes a move. */
  lemma LateOwnMove(job: Job, files: Files, l: nat, s: Sys, e: Event)
    requires l + 1 < |job.ups| && |s.workers| == l + 2 && Inv(job, files, s) && ValidDigest(job.ups[l + 1].digest)
    requires NotYet(s.files, job.ups[l + 1].digest, s.workers[l + 1]) && Cancelled(s)
    requires var up, v := job.ups[l + 1], ViewOf(files, job.ups[l + 1].digest);
      v.final.None? && StartAt(up, v) != up.size
    requires s.workers[l + 1].Busy? && !s.workers[l + 1].pc.Stopped() && StopsCopying(s, Operate(l + 1, e))
    ensures var t := OperateStep(job.ups[l + 1], s, l + 1, e); NotYet(t.files, job.ups[l + 1].digest, t.workers[l + 1])
  {
    hide At, Step, ViewOf, WithView, TallyOf, LoopInv, RestUntouched, StartAt, EachWorker;
    var up := job.ups[l + 1];
    var st := State(ViewOf(s.files, up.digest), s.workers[l + 1].pc);
    WorkerOf(job, files, s, l + 1);
    NoReadNoRename(up, ViewOf(files, up.digest), st, e);
    ViewAfter(s.files, up.digest, Step(up, st, e).view);
  }

  lemma OthersMove(job: Job, s: Sys, i: nat, e: Event, j: nat)
    requires i < |s.workers| && i < |job.ups| && j < |job.ups| && i != j && s.workers[i].Busy?
    requires Distinct(job.ups) && AllValid(job.ups)
    ensures ViewOf(OperateStep(job.ups[i], s, i, e).files, job.ups[j].digest) == ViewOf(s.files, job.ups[j].digest)
  {
    hide Step, ViewOf, WithView;
    var up := job.ups[i];
    OtherView(s.files, up.digest, Step(up, State(ViewOf(s.files, up.digest), s.workers[i].pc), e).view, job.ups[j].digest);
  }

  lemma SameNotYet(a: Files, b: Files, d: Digest, w: Worker)
    ensures ViewOf(a, d) == ViewOf(b, d) ==> (NotYet(a, d, w) <==> NotYet(b, d, w))
  {
  }

  lemma LateOperate(job: Job, files: Files, l: nat, s: Sys, i: nat, e: Event)
    requires l + 1 < |job.ups| && Distinct(job.ups) && AllValid(job.ups)
    requires Inv(job, files, s) && LateWorker(job, l, s)
    requires var up, v := job.ups[l + 1], ViewOf(files, job.ups[l + 1].digest);
      v.final.None? && StartAt(up, v) != up.size
    requires i < |s.workers| && i < |job.ups| && s.workers[i].Busy? && !s.workers[i].pc.Stopped()
    requires StopsCopying(s, Operate(i, e))
    ensures LateWorker(job, l, OperateStep(job.ups[i], s, i, e))
  {
    hide Inv, OperateStep, ViewOf, StartAt, StopsCopying, NotYet, Distinct, AllValid, Cancelled, AnyBroken, Unplaced;
    SameOperation(job.ups[i], s, i, s, i, e);
    if |s.workers| == l + 2 && !s.workers[l].Counted? {
      BrokenCancels(s, l);
      LateStep(job, files, l, s, i, e);
    }
  }

  lemma BrokenCancels(s: Sys, l: nat)
    requires l < |s.workers| && s.workers[l].Broken?
    ensures Cancelled(s)
  {
  }

  lemma LateStep(job: Job, files: Files, l: nat, s: Sys, i: nat, e: Event)
    requires l + 1 < |job.ups| && Distinct(job.ups) && AllValid(job.ups) && Inv(job, files, s) && Cancelled(s)
    requires |s.workers| == l + 2 && NotYet(s.files, job.ups[l + 1].digest, s.workers[l + 1])
    requires var up, v := job.ups[l + 1], ViewOf(files, job.ups[l + 1].digest);
      v.final.None? && StartAt(up, v) != up.size
    requires i < |s.workers| && i != l && s.workers[i].Busy? && !s.workers[i].pc.Stopped()
    requires StopsCopying(s, Operate(i, e))
    ensures i < |job.ups|
    ensures var t := OperateStep(job.ups[i], s, i, e);
      |t.workers| == l + 2 && NotYet(t.files, job.ups[l + 1].digest, t.workers[l + 1])
  {
    hide Inv, OperateStep, ViewOf, StartAt, StopsCopying, NotYet, Distinct, Cancelled, ValidDigest;
    WorkersFit(job, files, s);
    var t := OperateStep(job.ups[i], s, i, e);
    SameOperation(job.ups[i], s, i, s, i, e);
    assert ValidDigest(job.ups[l + 1].digest);
    if i == l + 1 {
      LateOwnMove(job, files, l, s, e);
    } else {
      OthersMove(job, s, i, e, l + 1);
      SameNotYet(s.files, t.files, job.ups[l + 1].digest, s.workers[l + 1]);
    }
  }

  lemma FreshNotYet(files: Files, d: Digest)
    ensures ViewOf(files, d).final.None? ==> NotYet(files, d, Busy(StatFinal))
  {
  }

  lemma LateDispatch(job: Job, files: Files, l: nat, s: Sys)
    requires l + 1 < |job.ups| && Distinct(job.ups) && AllValid(job.ups) && job.limit == 1
    requires Inv(job, files, s) && OneAtATime(s) && LateWorker(job, l, s)
    requires ViewOf(files, job.ups[l + 1].digest).final.None?
    ensures LateWorker(job, l, DispatchStep(job, s))
  {
    hide Inv, ViewOf, AnyBroken, ValidDigest, NotYet, Distinct;
    FreshNotYet(s.files, job.ups[l + 1].digest);
    if |s.workers| == l + 1 { NotDispatched(job, files, s, l + 1); }
  }

  lemma LateSettle(job: Job, l: nat, s: Sys, i: nat)
    requires l + 1 < |job.ups| && LateWorker(job, l, s)
    ensures LateWorker(job, l, Advance(job, s, Settle(i)))
  {
    hide ViewOf;
  }

  lemma LateMove(job: Job, files: Files, l: nat, s: Sys, c: Choice)
    requires l + 1 < |job.ups| && Distinct(job.ups) && AllValid(job.ups) && job.limit == 1
    requires Inv(job, files, s) && OneAtATime(s) && LateWorker(job, l, s) && StopsCopying(s, c)
    requires var up, v := job.ups[l + 1], ViewOf(files, job.ups[l + 1].digest);
      v.final.None? && StartAt(up, v) != up.size
    ensures LateWorker(job, l, Advance(job, s, c))
  {
    hide Inv, ViewOf, OperateStep, DispatchStep, StartAt, LateWorker, OneAtATime, StopsCopying;
    match c
    case Operate(i, e) =>
      if i < |s.workers| && i < |job.ups| && s.workers[i].Busy? && !s.workers[i].pc.Stopped() {
        LateOperate(job, files, l, s, i, e);
      }
    case Settle(i) => LateSettle(job, l, s, i);
    case Dispatch => LateDispatch(job, files, l, s);
    case Cancel => LateCancel(job, l, s);
  }

  lemma LateCancel(job: Job, l: nat, s: Sys)
    requires l + 1 < |job.ups| && LateWorker(job, l, s)
    ensures LateWorker(job, l, s.(ctxDone := true))
  {
  }

  lemma {:induction false} LateExec(job: Job, files: Files, l: nat, schedule: seq<Choice>)
    requires l + 1 < |job.ups| && Distinct(job.ups) && AllValid(job.ups) && job.limit == 1
    requires Heeds(job, files, schedule)
    requires var up, v := job.ups[l + 1], ViewOf(files, job.ups[l + 1].digest);
      v.final.None? && StartAt(up, v) != up.size
    ensures LateWorker(job, l, Exec(job, Start(files), schedule))
    decreases |schedule|
  {
    hide Advance, ViewOf, StartAt, Inv, StopsCopying, OneAtATime;
    if schedule != [] {
      var front := schedule[..|schedule| - 1];
      LateExec(job, files, l, front);
      ExecKeepsInv(job, files, front);
      OneSlotExec(job, files, front);
      LateMove(job, files, l, Exec(job, Start(files), front), schedule[|schedule| - 1]);
    }
  }

  // --------------------------------------------------------------------- what can be

  /** Upload `m` is in place and upload `l` is not. */
  predicate Overtaken(job: Job, files: Files, m: nat, l: nat)
    requires m < |job.ups| && l < |job.ups|
  {
    ViewOf(files, job.ups[m].digest).final.Some? && ViewOf(files, job.ups[l].digest).final.None?
  }

  /** One worker alone goes through any run of its machine that does not fail. */
  lemma {:induction false} SoloRun(job: Job, files: Files, before: seq<Choice>, i: nat, events: seq<Event>)
    returns (whole: seq<Choice>)
    requires i < |job.ups| && ValidDigest(job.ups[i].digest)
    requires var base := Exec(job, Start(files), before); i < |base.workers| && base.workers[i] == Busy(StatFinal)
    requires var up, v := job.ups[i], ViewOf(Exec(job, Start(files), before).files, job.ups[i].digest);
      !Run(up, State(v, StatFinal), events).pc.Failed?
    ensures var base, s := Exec(job, Start(files), before), Exec(job, Start(files), whole);
      var t := Run(job.ups[i], State(ViewOf(base.files, job.ups[i].digest), StatFinal), events);
      && s.workers == base.workers[i := Busy(t.pc)]
      && ViewOf(s.files, job.ups[i].digest) == t.view
      && forall e :: ValidDigest(e) && e != job.ups[i].digest ==> ViewOf(s.files, e) == ViewOf(base.files, e)
    ensures var up, v := job.ups[i], ViewOf(Exec(job, Start(files), before).files, job.ups[i].digest);
      StartAt(up, v) == up.size && Heeds(job, files, before) ==> Heeds(job, files, whole)
    decreases |events|
  {
    hide Exec, ViewOf, WithView, Next, StartAt;
    var base := Exec(job, Start(files), before);
    var up, d := job.ups[i], job.ups[i].digest;
    var v := ViewOf(base.files, d);
    if events == [] { return before; }
    var front, e := events[..|events| - 1], events[|events| - 1];
    whole := SoloRun(job, files, before, i, front);
    var s, t := Exec(job, Start(files), whole), Run(up, State(v, StatFinal), front);
    if !t.pc.Stopped() {
      OneMoreMove(job, Start(files), whole, Operate(i, e));
      ViewAfter(s.files, d, Step(up, t, e).view);
      forall o | ValidDigest(o) && o != d ensures ViewOf(WithView(s.files, d, Step(up, t, e).view), o) == ViewOf(s.files, o) {
        OtherView(s.files, d, Step(up, t, e).view, o);
      }
      if StartAt(up, v) == up.size && Heeds(job, files, before) {
        RunKeepsAt(up, v, front);
        NoCopyWhenComplete(up, v, t);
        HeedsMore(job, files, whole, Operate(i, e));
      }
      whole := whole + [Operate(i, e)];
    }
  }

  lemma NoCopyWhenComplete(up: Upload, v: View, s: State)
    requires At(up, v, s) && StartAt(up, v) == up.size
    ensures !s.pc.Copy?
  {
  }

  /** A stretch of the uploads, transferred, leaves what is not in it. */
  lemma StretchLeaves(files: Files, ups: seq<Upload>, a: nat, b: nat, k: nat)
    requires Distinct(ups) && AllValid(ups) && a <= b <= |ups| && k < |ups| && !(a <= k < b)
    ensures ViewOf(Sequential(files, ups[a..b]).0, ups[k].digest) == ViewOf(files, ups[k].digest)
  {
    hide Sequential, ViewOf, ValidDigest;
    var part := ups[a..b];
    forall i | 0 <= i < |part| ensures part[i].digest != ups[k].digest { assert part[i] == ups[a + i]; }
    DistinctPart(ups, a, b);
    SequentialSettles(files, part);
    ForeignView(files, part, Sequential(files, part).0, ups[k].digest);
  }

  /** And it puts what is in it in place. */
  lemma StretchBrings(files: Files, ups: seq<Upload>, a: nat, b: nat, i: nat)
    requires Distinct(ups) && AllValid(ups) && a <= i < b <= |ups|
    ensures ViewOf(Sequential(files, ups[a..b]).0, ups[i].digest).final.Some?
  {
    hide Sequential, ViewOf, ValidDigest, Assembled;
    var part := ups[a..b];
    DistinctPart(ups, a, b);
    SequentialSettles(files, part);
    assert part[i - a] == ups[i];
  }

  /** The dispatcher waits, the last worker breaks, and the dispatcher goes on all the same. */
  function AfterBreak(job: Job, s: Sys, l: nat): Sys
  {
    Advance(job, Advance(job, Advance(job, s, Dispatch), Operate(l, Fails(false, 0))), Dispatch)
  }

  lemma BreakStep(job: Job, b: Sys, first: seq<Worker>, l: nat)
    requires |first| == l < |job.ups| && ValidDigest(job.ups[l].digest) && b.workers == first + [Busy(StatFinal)]
    ensures var c, d := Advance(job, b, Operate(l, Fails(false, 0))), job.ups[l].digest;
      c == b.(files := WithView(b.files, d, ViewOf(b.files, d)), workers := first + [Broken])
  {
    hide ViewOf, WithView, ValidDigest;
    assert b.workers[l := Broken] == first + [Broken];
  }

  lemma BreakAndGoOn(job: Job, s: Sys, first: seq<Worker>, l: nat)
    requires AllValid(job.ups) && Distinct(job.ups) && job.limit >= 1 && |first| == l && l + 1 < |job.ups|
    requires PausedAt(s, l + 1, 1) && s.workers == first + [Busy(StatFinal)] && Active(first) == 0
    ensures var t := AfterBreak(job, s, l);
      && t.workers == first + [Broken] + [Busy(StatFinal)]
      && t.files == WithView(s.files, job.ups[l].digest, ViewOf(s.files, job.ups[l].digest))
    ensures StopsCopying(Advance(job, s, Dispatch), Operate(l, Fails(false, 0)))
  {
    hide ViewOf, WithView, Active;
    var b := Advance(job, s, Dispatch);
    assert b == s.(loop := Blocked) && b.workers[l] == Busy(StatFinal);
    BreakStep(job, b, first, l);
    ActiveConcat(first, [Broken]);
    OneBroken();
  }

  lemma ThreeMoves(job: Job, files: Files, schedule: seq<Choice>, l: nat) returns (more: seq<Choice>)
    requires Heeds(job, files, schedule)
    requires StopsCopying(Advance(job, Exec(job, Start(files), schedule), Dispatch), Operate(l, Fails(false, 0)))
    ensures Heeds(job, files, more)
    ensures Exec(job, Start(files), more) == AfterBreak(job, Exec(job, Start(files), schedule), l)
  {
    hide Exec, Heeds, Advance;
    var e := Operate(l, Fails(false, 0));
    OneMoreMove(job, Start(files), schedule, Dispatch);
    HeedsMore(job, files, schedule, Dispatch);
    OneMoreMove(job, Start(files), schedule + [Dispatch], e);
    HeedsMore(job, files, schedule + [Dispatch], e);
    OneMoreMove(job, Start(files), schedule + [Dispatch] + [e], Dispatch);
    HeedsMore(job, files, schedule + [Dispatch] + [e], Dispatch);
    more := schedule + [Dispatch] + [e] + [Dispatch];
  }

  /** Where `l` is dispatched and breaks while the dispatcher waits, the next upload still gets its worker. */
  lemma BrokenLets(job: Job, files: Files, l: nat) returns (schedule: seq<Choice>)
    requires Distinct(job.ups) && AllValid(job.ups) && job.limit >= 1 && l + 1 < |job.ups|
    requires forall n :: 0 <= n < l ==> Transferable(files, job.ups[n])
    ensures var s := Exec(job, Start(files), schedule);
      && |s.workers| == l + 2 && s.workers[l + 1] == Busy(StatFinal)
      && ViewOf(s.files, job.ups[l].digest) == ViewOf(files, job.ups[l].digest)
      && ViewOf(s.files, job.ups[l + 1].digest) == ViewOf(files, job.ups[l + 1].digest)
    ensures Heeds(job, files, schedule)
  {
    hide Exec, ViewOf, WithView, Transferable, Sequential, Heeds, Active, AfterBreak, Advance, StopsCopying, AnyBroken;
    var first := PrefixReached(job, files, l);
    var idle := IdleReached(job, files, first, l);
    PausedHeeds(job, files, idle, l + 1, 1);
    assert job.ups[0..l] == job.ups[..l];
    StretchLeaves(files, job.ups, 0, l, l);
    StretchLeaves(files, job.ups, 0, l, l + 1);
    var a, d := Exec(job, Start(files), idle), job.ups[l].digest;
    BreakAndGoOn(job, a, Exec(job, Start(files), first).workers, l);
    ViewAfter(a.files, d, ViewOf(a.files, d));
    OtherView(a.files, d, ViewOf(a.files, d), job.ups[l + 1].digest);
    schedule := ThreeMoves(job, files, idle, l);
  }

  lemma OneBroken()
    ensures Active([Broken]) == 0
  {
  }

  /** With any number of slots, the upload right after `l` can be in place without `l`. */
  lemma NextOvertakes(job: Job, files: Files, l: nat) returns (schedule: seq<Choice>)
    requires Distinct(job.ups) && AllValid(job.ups) && job.limit >= 1 && l + 1 < |job.ups|
    requires forall n :: 0 <= n < |job.ups| && n != l ==> Transferable(files, job.ups[n])
    requires ViewOf(files, job.ups[l].digest).final.None?
    ensures Overtaken(job, Exec(job, Start(files), schedule).files, l + 1, l)
    ensures var up := job.ups[l + 1];
      StartAt(up, ViewOf(files, up.digest)) == up.size ==> Heeds(job, files, schedule)
  {
    hide Exec, ViewOf, Sequential, StartAt, CanFinish, Heeds, Assembled;
    var up := job.ups[l + 1];
    var v := ViewOf(files, up.digest);
    var before := BrokenLets(job, files, l);
    assert Transferable(files, up);
    ReachesSettled(up, v);
    var events :| Run(up, State(v, StatFinal), events) == State(Settled(up, v), Finished(!Complete(up, v)));
    schedule := SoloRun(job, files, before, l + 1, events);
  }

  /**
    Over every schedule of a job: upload `m` can be in place while `l`, missing at the
    start, is not, exactly if `m` was there before, or comes first, or there are two slots,
    or `m` comes right after `l`: the dispatcher then already waits with `m` when `l` breaks.
    If copies stop once the group is cancelled, `m` must have its part file complete then.
   */
  lemma OvertakesIff(job: Job, files: Files, m: nat, l: nat, heeding: bool)
    requires Distinct(job.ups) && AllValid(job.ups) && job.limit >= 1
    requires m < |job.ups| && l < |job.ups| && m != l
    requires forall n :: 0 <= n < |job.ups| && n != l ==> Transferable(files, job.ups[n])
    requires ViewOf(files, job.ups[l].digest).final.None?
    ensures (exists schedule ::
              (heeding ==> Heeds(job, files, schedule)) && Overtaken(job, Exec(job, Start(files), schedule).files, m, l)) <==>
      || ViewOf(files, job.ups[m].digest).final.Some?
      || m < l
      || job.limit >= 2
      || (m == l + 1 && (heeding ==> StartAt(job.ups[m], ViewOf(files, job.ups[m].digest)) == job.ups[m].size))
  {
    hide Exec, ViewOf, Heeds, Transferable, StartAt;
    var up := job.ups[m];
    var v := ViewOf(files, up.digest);
    if schedule :| (heeding ==> Heeds(job, files, schedule)) && Overtaken(job, Exec(job, Start(files), schedule).files, m, l) {
      if v.final.None? && l < m && job.limit == 1 { OneSlotOvertakes(job, files, schedule, m, l, heeding); }
    }
    if v.final.Some? || m < l || job.limit >= 2 || (m == l + 1 && (heeding ==> StartAt(up, v) == up.size)) {
      var schedule := SomeOvertakes(job, files, m, l, heeding);
    }
  }

  lemma OneSlotOvertakes(job: Job, files: Files, schedule: seq<Choice>, m: nat, l: nat, heeding: bool)
    requires Distinct(job.ups) && AllValid(job.ups) && job.limit == 1 && l < m < |job.ups|
    requires ViewOf(files, job.ups[m].digest).final.None?
    requires heeding ==> Heeds(job, files, schedule)
    requires Overtaken(job, Exec(job, Start(files), schedule).files, m, l)
    ensures m == l + 1 && (heeding ==> StartAt(job.ups[m], ViewOf(files, job.ups[m].digest)) == job.ups[m].size)
  {
    hide Exec, ViewOf, Heeds, StartAt, Inv;
    var s := Exec(job, Start(files), schedule);
    ExecKeepsInv(job, files, schedule);
    OneSlotExec(job, files, schedule);
    if |s.workers| <= m { NotDispatched(job, files, s, m); }
    if s.workers[l].Counted? { CountedIsPlaced(job, files, s, l); }
    WorkersFit(job, files, s);
    if heeding && StartAt(job.ups[m], ViewOf(files, job.ups[m].digest)) != job.ups[m].size {
      LateExec(job, files, l, schedule);
    }
  }

  lemma WorkersFit(job: Job, files: Files, s: Sys)
    requires Inv(job, files, s)
    ensures |s.workers| <= |job.ups|
  {
  }

  lemma SomeOvertakes(job: Job, files: Files, m: nat, l: nat, heeding: bool) returns (schedule: seq<Choice>)
    requires Distinct(job.ups) && AllValid(job.ups) && job.limit >= 1
    requires m < |job.ups| && l < |job.ups| && m != l
    requires forall n :: 0 <= n < |job.ups| && n != l ==> Transferable(files, job.ups[n])
    requires ViewOf(files, job.ups[l].digest).final.None?
    requires ViewOf(files, job.ups[m].digest).final.Some? || m < l || job.limit >= 2
      || (m == l + 1 && (heeding ==> StartAt(job.ups[m], ViewOf(files, job.ups[m].digest)) == job.ups[m].size))
    ensures heeding ==> Heeds(job, files, schedule)
    ensures Overtaken(job, Exec(job, Start(files), schedule).files, m, l)
  {
    hide Exec, ViewOf, Heeds, Transferable, StartAt, Sequential, PausedAt, AllValid, Distinct;
    var ups := job.ups;
    if ViewOf(files, ups[m].digest).final.Some? {
      schedule := [];
      PausedAtStart(job, files);
      PausedHeeds(job, files, [], 0, 0);
    } else if m < l {
      schedule := PrefixReached(job, files, m + 1);
      PausedHeeds(job, files, schedule, m + 1, 0);
      assert ups[0..m + 1] == ups[..m + 1];
      StretchBrings(files, ups, 0, m + 1, m);
      StretchLeaves(files, ups, 0, m + 1, l);
    } else if job.limit >= 2 {
      schedule := AllButReached(job, files, l, m + 1);
      PausedHeeds(job, files, schedule, m + 1, 1);
      var half := Sequential(files, ups[..l]).0;
      assert ups[0..l] == ups[..l];
      StretchLeaves(files, ups, 0, l, l);
      StretchBrings(half, ups, l + 1, m + 1, m);
      StretchLeaves(half, ups, l + 1, m + 1, l);
    } else {
      schedule := NextOvertakes(job, files, l);
    }
  }
}
