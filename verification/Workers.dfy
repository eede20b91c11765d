/**
  A bounded group of workers over one shared file map.  A job is a list of uploads; the
  dispatcher hands them to workers, the workers interleave operation by operation, and a
  schedule says who moves next.  Cutting a schedule short anywhere is a crash.
 */
module Workers {
  import opened Base
  import opened SlashPath
  import opened Digests
  import opened Transfer

  /** The uploads before the iterator ends, whether it ends in an error, and the worker limit. */
  datatype Job = Job(ups: seq<Upload>, iterFails: bool, limit: nat)

  datatype Worker = Busy(pc: Pc) | Counted(sent: bool) | Broken

  /** The dispatching loop: at the head, waiting for a slot, or over (`cut` when cancelled). */
  datatype Loop = Fetch | Blocked | Ended(cut: bool)

  datatype Tally = Tally(sent: nat, reused: nat, bytesSent: nat) {
    function Plus(that: Tally): Tally
    {
      Tally(sent + that.sent, reused + that.reused, bytesSent + that.bytesSent)
    }
  }

  datatype Sys = Sys(files: Files, workers: seq<Worker>, loop: Loop, ctxDone: bool, result: Tally)

  datatype Choice =
    | Dispatch
    | Operate(i: nat, event: Event)
    | Settle(i: nat)
    | Cancel

  function Start(files: Files): Sys
  {
    Sys(files, [], Fetch, false, Tally(0, 0, 0))
  }

  function Active(ws: seq<Worker>): (n: nat)
    ensures n <= |ws|
    ensures n > 0 <==> exists i :: 0 <= i < |ws| && ws[i].Busy?
  {
    if ws == [] then 0
    else
      var n := |ws| - 1;
      assert ws == ws[..n] + [ws[n]];
      assert forall i :: 0 <= i < n ==> ws[..n][i] == ws[i];
      Active(ws[..n]) + if ws[n].Busy? then 1 else 0
  }

  predicate AnyBroken(ws: seq<Worker>)
  {
    exists i :: 0 <= i < |ws| && ws[i].Broken?
  }

  /** The group's context is done: the caller cancelled, or a worker returned an error. */
  predicate Cancelled(s: Sys)
  {
    s.ctxDone || AnyBroken(s.workers)
  }

  function One(up: Upload, sent: bool): Tally
  {
    if sent then Tally(1, 0, up.size) else Tally(0, 1, 0)
  }

  function DispatchStep(job: Job, s: Sys): Sys
  {
    match s.loop
    case Fetch =>
      if |s.workers| >= |job.ups| then s.(loop := Ended(false))
      else if Cancelled(s) then s.(loop := Ended(true))
      else s.(loop := Blocked)
    case Blocked =>
      if Active(s.workers) < job.limit then s.(workers := s.workers + [Busy(StatFinal)], loop := Fetch)
      else s
    case Ended(_) => s
  }

  /** Worker `i` does one file operation for its upload. */
  function OperateStep(up: Upload, s: Sys, i: nat, e: Event): Sys
    requires i < |s.workers| && s.workers[i].Busy?
  {
    if !ValidDigest(up.digest) then s.(workers := s.workers[i := Broken])
    else
      var t := Step(up, State(ViewOf(s.files, up.digest), s.workers[i].pc), e);
      s.(files := WithView(s.files, up.digest, t.view),
         workers := s.workers[i := if t.pc.Failed? then Broken else Busy(t.pc)])
  }

  function Advance(job: Job, s: Sys, c: Choice): Sys
  {
    match c
    case Dispatch => DispatchStep(job, s)
    case Operate(i, e) =>
      if i < |s.workers| && i < |job.ups| && s.workers[i].Busy? && !s.workers[i].pc.Stopped()
      then OperateStep(job.ups[i], s, i, e)
      else s
    case Settle(i) =>
      if i < |s.workers| && i < |job.ups| && s.workers[i].Busy? && s.workers[i].pc.Finished?
      then
        var sent := s.workers[i].pc.sent;
        s.(workers := s.workers[i := Counted(sent)], result := s.result.Plus(One(job.ups[i], sent)))
      else s
    case Cancel => s.(ctxDone := true)
  }

  function Exec(job: Job, s: Sys, schedule: seq<Choice>): Sys
  {
    if schedule == [] then s
    else Advance(job, Exec(job, s, schedule[..|schedule| - 1]), schedule[|schedule| - 1])
  }

  /** The dispatcher is through and every worker has returned. */
  predicate Terminal(s: Sys)
  {
    s.loop.Ended? && Active(s.workers) == 0
  }

  /** What waiting for the group reports, joined with the iterator's error. */
  predicate ReportsError(job: Job, s: Sys)
  {
    (s.loop == Ended(false) && job.iterFails) || AnyBroken(s.workers)
  }

  predicate Distinct(ups: seq<Upload>)
  {
    forall i, j :: 0 <= i < j < |ups| ==> ups[i].digest != ups[j].digest
  }

  // ------------------------------------------------------------------------ invariant

  predicate WorkerAt(up: Upload, v: View, w: View, worker: Worker)
  {
    match worker
    case Busy(pc) => At(up, v, State(w, pc)) && !pc.Failed?
    case Counted(sent) => At(up, v, State(w, Finished(sent)))
    case Broken => Between(up, v, w)
  }

  /** No upload of the list has `k` as its final or part file. */
  predicate Outside(ups: seq<Upload>, k: Key)
  {
    forall i :: 0 <= i < |ups| && ValidDigest(ups[i].digest) ==>
      k != FinalKey(ups[i].digest) && k != PartKey(ups[i].digest)
  }

  function TallyOf(ups: seq<Upload>, ws: seq<Worker>): Tally
    requires |ws| <= |ups|
  {
    if ws == [] then Tally(0, 0, 0)
    else
      var n := |ws| - 1;
      var front := TallyOf(ups, ws[..n]);
      if ws[n].Counted? then front.Plus(One(ups[n], ws[n].sent)) else front
  }

  predicate LoopInv(job: Job, s: Sys)
  {
    match s.loop
    case Fetch => true
    case Blocked => |s.workers| < |job.ups|
    case Ended(cut) => if cut then |s.workers| < |job.ups| && Cancelled(s) else |s.workers| == |job.ups|
  }

  /** Where the files of an upload and its worker are, given the files the job found. */
  predicate WorkerFits(up: Upload, before: Files, files: Files, worker: Worker)
  {
    if ValidDigest(up.digest)
    then WorkerAt(up, ViewOf(before, up.digest), ViewOf(files, up.digest), worker)
    else worker == Busy(StatFinal) || worker == Broken
  }

  predicate EachWorker(job: Job, files: Files, s: Sys)
    requires |s.workers| <= |job.ups|
  {
    forall i :: 0 <= i < |s.workers| ==> WorkerFits(job.ups[i], files, s.files, s.workers[i])
  }

  ghost predicate RestUntouched(job: Job, files: Files, s: Sys)
    requires |s.workers| <= |job.ups|
  {
    forall k :: Outside(job.ups[..|s.workers|], k) ==> Lookup(s.files, k) == Lookup(files, k)
  }

  /** What holds at every point of a job that started from `files`. */
  ghost predicate Inv(job: Job, files: Files, s: Sys)
  {
    && |s.workers| <= |job.ups|
    && EachWorker(job, files, s)
    && RestUntouched(job, files, s)
    && s.result == TallyOf(job.ups, s.workers)
    && LoopInv(job, s)
  }

  lemma ViewAfter(files: Files, d: Digest, v: View)
    requires ValidDigest(d)
    ensures ViewOf(WithView(files, d, v), d) == v
    ensures forall k :: k != FinalKey(d) && k != PartKey(d) ==> Lookup(WithView(files, d, v), k) == Lookup(files, k)
  {
    KeysNeverCollide(d, d);
  }

  lemma OtherView(files: Files, d: Digest, v: View, e: Digest)
    requires ValidDigest(d) && ValidDigest(e) && d != e
    ensures ViewOf(WithView(files, d, v), e) == ViewOf(files, e)
  {
    KeysNeverCollide(d, e);
    KeysNeverCollide(e, d);
    ViewAfter(files, d, v);
  }

  lemma {:induction false} TallyCongruent(ups: seq<Upload>, ws: seq<Worker>, xs: seq<Worker>)
    requires |ws| == |xs| <= |ups|
    requires forall i :: 0 <= i < |ws| ==> ws[i] == xs[i] || (!ws[i].Counted? && !xs[i].Counted?)
    ensures TallyOf(ups, ws) == TallyOf(ups, xs)
    decreases |ws|
  {
    if ws != [] {
      var n := |ws| - 1;
      TallyCongruent(ups, ws[..n], xs[..n]);
    }
  }

  lemma {:induction false} TallyCount(ups: seq<Upload>, ws: seq<Worker>, i: nat, sent: bool)
    requires i < |ws| <= |ups| && !ws[i].Counted?
    ensures TallyOf(ups, ws[i := Counted(sent)]) == TallyOf(ups, ws).Plus(One(ups[i], sent))
    decreases |ws|
  {
    var n, xs := |ws| - 1, ws[i := Counted(sent)];
    if i == n {
      assert xs[..n] == ws[..n];
    } else {
      assert xs[..n] == ws[..n][i := Counted(sent)];
      TallyCount(ups, ws[..n], i, sent);
    }
  }

  lemma TallyMore(ups: seq<Upload>, ws: seq<Worker>)
    requires |ws| < |ups|
    ensures TallyOf(ups, ws + [Busy(StatFinal)]) == TallyOf(ups, ws)
  {
    assert (ws + [Busy(StatFinal)])[..|ws|] == ws;
  }

  lemma BrokenStays(ws: seq<Worker>, i: nat, w: Worker)
    requires i < |ws| && !ws[i].Broken?
    ensures AnyBroken(ws) ==> AnyBroken(ws[i := w])
  {
    if AnyBroken(ws) {
      var j :| 0 <= j < |ws| && ws[j].Broken?;
      assert ws[i := w][j].Broken?;
    }
  }

  lemma SpawnKeepsBroken(ws: seq<Worker>)
    ensures AnyBroken(ws) ==> AnyBroken(ws + [Busy(StatFinal)])
  {
    if AnyBroken(ws) {
      var i :| 0 <= i < |ws| && ws[i].Broken?;
      assert (ws + [Busy(StatFinal)])[i].Broken?;
    }
  }

  lemma DispatchKeepsInv(job: Job, files: Files, s: Sys)
    requires Inv(job, files, s) && Distinct(job.ups)
    ensures Inv(job, files, DispatchStep(job, s))
  {
    hide At, Between;
    if s.loop == Blocked && Active(s.workers) < job.limit {
      SpawnKeepsInv(job, files, s);
    }
  }

  lemma SpawnKeepsInv(job: Job, files: Files, s: Sys)
    requires Inv(job, files, s) && Distinct(job.ups) && |s.workers| < |job.ups|
    ensures Inv(job, files, s.(workers := s.workers + [Busy(StatFinal)], loop := Fetch))
  {
    hide EachWorker, RestUntouched, TallyOf;
    TallyMore(job.ups, s.workers);
    SpawnUntouched(job, files, s);
    SpawnEachWorker(job, files, s);
  }

  /** A worker that just began finds its files as the job found them. */
  lemma SpawnedFits(job: Job, files: Files, s: Sys)
    requires |s.workers| < |job.ups| && Distinct(job.ups) && RestUntouched(job, files, s)
    ensures WorkerFits(job.ups[|s.workers|], files, s.files, Busy(StatFinal))
  {
    hide WorkerAt, Outside;
    var n := |s.workers|;
    var d := job.ups[n].digest;
    if ValidDigest(d) {
      OutsideOthers(job.ups, n);
      assert ViewOf(s.files, d) == ViewOf(files, d);
      AtStart(job.ups[n], ViewOf(files, d));
    }
  }

  lemma SpawnEachWorker(job: Job, files: Files, s: Sys)
    requires |s.workers| < |job.ups| && Distinct(job.ups)
    requires EachWorker(job, files, s) && RestUntouched(job, files, s)
    ensures EachWorker(job, files, s.(workers := s.workers + [Busy(StatFinal)], loop := Fetch))
  {
    hide WorkerFits, RestUntouched, Distinct;
    SpawnedFits(job, files, s);
  }

  lemma AtStart(up: Upload, v: View)
    ensures WorkerAt(up, v, v, Busy(StatFinal))
  {
  }

  lemma SpawnUntouched(job: Job, files: Files, s: Sys)
    requires |s.workers| < |job.ups| && RestUntouched(job, files, s)
    ensures RestUntouched(job, files, s.(workers := s.workers + [Busy(StatFinal)], loop := Fetch))
  {
    var n := |s.workers|;
    forall k | Outside(job.ups[..n + 1], k) ensures Outside(job.ups[..n], k) {
      forall i | 0 <= i < n && ValidDigest(job.ups[i].digest)
        ensures k != FinalKey(job.ups[i].digest) && k != PartKey(job.ups[i].digest)
      {
        assert job.ups[..n + 1][i] == job.ups[i];
      }
    }
  }

  /** The files of an upload belong to none of the uploads before it. */
  lemma OutsideOthers(ups: seq<Upload>, n: nat)
    requires Distinct(ups) && n < |ups| && ValidDigest(ups[n].digest)
    ensures Outside(ups[..n], FinalKey(ups[n].digest)) && Outside(ups[..n], PartKey(ups[n].digest))
  {
    forall i | 0 <= i < n && ValidDigest(ups[..n][i].digest)
      ensures FinalKey(ups[n].digest) != FinalKey(ups[i].digest) && FinalKey(ups[n].digest) != PartKey(ups[i].digest)
      ensures PartKey(ups[n].digest) != FinalKey(ups[i].digest) && PartKey(ups[n].digest) != PartKey(ups[i].digest)
    {
      KeysNeverCollide(ups[n].digest, ups[i].digest);
      KeysNeverCollide(ups[i].digest, ups[n].digest);
    }
  }

  /** The working upload's own view stays described; the others' views stay as they were. */
  lemma OperateEachWorker(job: Job, files: Files, s: Sys, i: nat, e: Event)
    requires |s.workers| <= |job.ups| && EachWorker(job, files, s) && Distinct(job.ups)
    requires i < |s.workers| && s.workers[i].Busy? && !s.workers[i].pc.Stopped()
    ensures EachWorker(job, files, OperateStep(job.ups[i], s, i, e))
  {
    hide At, Between, Step, ViewOf, WithView;
    var up, t := job.ups[i], OperateStep(job.ups[i], s, i, e);
    var d := up.digest;
    if ValidDigest(d) {
      var st := Step(up, State(ViewOf(s.files, d), s.workers[i].pc), e);
      StepKeepsAt(up, ViewOf(files, d), State(ViewOf(s.files, d), s.workers[i].pc), e);
      AtIsBetween(up, ViewOf(files, d), st);
      ViewAfter(s.files, d, st.view);
      forall j | 0 <= j < |s.workers| && j != i && ValidDigest(job.ups[j].digest)
        ensures ViewOf(t.files, job.ups[j].digest) == ViewOf(s.files, job.ups[j].digest)
      {
        OtherView(s.files, d, st.view, job.ups[j].digest);
      }
    }
  }

  lemma OperateRestUntouched(job: Job, files: Files, s: Sys, i: nat, e: Event)
    requires |s.workers| <= |job.ups| && RestUntouched(job, files, s)
    requires i < |s.workers| && s.workers[i].Busy?
    ensures RestUntouched(job, files, OperateStep(job.ups[i], s, i, e))
  {
    hide At, Between, Step, ViewOf, WithView;
    var up, t := job.ups[i], OperateStep(job.ups[i], s, i, e);
    if ValidDigest(up.digest) {
      var st := Step(up, State(ViewOf(s.files, up.digest), s.workers[i].pc), e);
      ViewAfter(s.files, up.digest, st.view);
      forall k | Outside(job.ups[..|s.workers|], k) ensures Lookup(t.files, k) == Lookup(files, k) {
        assert job.ups[..|s.workers|][i] == up;
      }
    }
  }

  lemma OperateKeepsInv(job: Job, files: Files, s: Sys, i: nat, e: Event)
    requires Inv(job, files, s) && Distinct(job.ups)
    requires i < |s.workers| && s.workers[i].Busy? && !s.workers[i].pc.Stopped()
    ensures Inv(job, files, OperateStep(job.ups[i], s, i, e))
  {
    hide At, Between, Step, ViewOf, WithView, EachWorker, RestUntouched, TallyOf;
    var t := OperateStep(job.ups[i], s, i, e);
    OperateEachWorker(job, files, s, i, e);
    OperateRestUntouched(job, files, s, i, e);
    TallyCongruent(job.ups, s.workers, t.workers);
    BrokenStays(s.workers, i, t.workers[i]);
  }

  lemma SettleKeepsInv(job: Job, files: Files, s: Sys, i: nat)
    requires Inv(job, files, s)
    requires i < |s.workers| && s.workers[i].Busy? && s.workers[i].pc.Finished?
    ensures Inv(job, files, Advance(job, s, Settle(i)))
  {
    hide At, Between, TallyOf, Outside, Active;
    var sent, t := s.workers[i].pc.sent, Advance(job, s, Settle(i));
    TallyCount(job.ups, s.workers, i, sent);
    BrokenStays(s.workers, i, Counted(sent));
    assert t.files == s.files && t.loop == s.loop && t.ctxDone == s.ctxDone;
    assert t.workers == s.workers[i := Counted(sent)];
    SettledWorker(job, files, s, i);
    assert LoopInv(job, t);
  }

  lemma SettledWorker(job: Job, files: Files, s: Sys, i: nat)
    requires |s.workers| <= |job.ups| && EachWorker(job, files, s)
    requires i < |s.workers| && s.workers[i].Busy? && s.workers[i].pc.Finished?
    ensures EachWorker(job, files, s.(workers := s.workers[i := Counted(s.workers[i].pc.sent)]))
  {
    hide At, Between;
  }

  lemma AdvanceKeepsInv(job: Job, files: Files, s: Sys, c: Choice)
    requires Inv(job, files, s) && Distinct(job.ups)
    ensures Inv(job, files, Advance(job, s, c))
  {
    hide At, Between, Step;
    match c
    case Dispatch => DispatchKeepsInv(job, files, s);
    case Operate(i, e) =>
      if i < |s.workers| && s.workers[i].Busy? && !s.workers[i].pc.Stopped() {
        OperateKeepsInv(job, files, s, i, e);
      }
    case Settle(i) =>
      if i < |s.workers| && s.workers[i].Busy? && s.workers[i].pc.Finished? {
        SettleKeepsInv(job, files, s, i);
      }
    case Cancel =>
  }

  /** The invariant holds after every schedule, so in every reachable state. */
  lemma {:induction false} ExecKeepsInv(job: Job, files: Files, schedule: seq<Choice>)
    requires Distinct(job.ups)
    ensures Inv(job, files, Exec(job, Start(files), schedule))
    decreases |schedule|
  {
    if schedule != [] {
      var front := schedule[..|schedule| - 1];
      ExecKeepsInv(job, files, front);
      AdvanceKeepsInv(job, files, Exec(job, Start(files), front), schedule[|schedule| - 1]);
    }
  }

  // -------------------------------------------------------------------------- the limit

  lemma {:induction false} ActiveUpdate(ws: seq<Worker>, i: nat, w: Worker)
    requires i < |ws| && ws[i].Busy?
    ensures Active(ws[i := w]) <= Active(ws)
    decreases |ws|
  {
    var n := |ws| - 1;
    if i < n {
      assert ws[i := w][..n] == ws[..n][i := w];
      ActiveUpdate(ws[..n], i, w);
    } else {
      assert ws[i := w][..n] == ws[..n];
    }
  }

  lemma ActiveSpawn(ws: seq<Worker>)
    ensures Active(ws + [Busy(StatFinal)]) == Active(ws) + 1
  {
    assert (ws + [Busy(StatFinal)])[..|ws|] == ws;
  }

  lemma LimitKeptByMove(job: Job, s: Sys, c: Choice)
    requires Active(s.workers) <= job.limit
    ensures Active(Advance(job, s, c).workers) <= job.limit
  {
    hide Active, ViewOf, WithView, Step, AnyBroken;
    match c
    case Dispatch => ActiveSpawn(s.workers);
    case Operate(i, e) =>
      if i < |s.workers| && i < |job.ups| && s.workers[i].Busy? && !s.workers[i].pc.Stopped() {
        var t := OperateStep(job.ups[i], s, i, e);
        assert t.workers == s.workers[i := t.workers[i]];
        ActiveUpdate(s.workers, i, t.workers[i]);
      }
    case Settle(i) =>
      if i < |s.workers| && s.workers[i].Busy? && s.workers[i].pc.Finished? {
        ActiveUpdate(s.workers, i, Counted(s.workers[i].pc.sent));
      }
    case Cancel =>
  }

  /** At no point of any schedule more workers are at work than the limit allows. */
  lemma {:induction false} LimitKept(job: Job, files: Files, schedule: seq<Choice>)
    ensures Active(Exec(job, Start(files), schedule).workers) <= job.limit
    decreases |schedule|
  {
    hide Advance;
    if schedule != [] {
      var front := schedule[..|schedule| - 1];
      LimitKept(job, files, front);
      LimitKeptByMove(job, Exec(job, Start(files), front), schedule[|schedule| - 1]);
    }
  }

  // ---------------------------------------------------------------- crash-safe transfer

  /** For every digest the content it names. */
  type Truth = Digest -> Bytes

  ghost predicate HonestUps(truth: Truth, ups: seq<Upload>)
  {
    forall i :: 0 <= i < |ups| && ValidDigest(ups[i].digest) ==> Honest(ups[i], truth(ups[i].digest))
  }

  /** Every part file of the pool is a prefix of its content, or too long. */
  ghost predicate GoodParts(truth: Truth, files: Files)
  {
    forall d :: ValidDigest(d) ==> GoodPart(truth(d), ViewOf(files, d).part)
  }

  /** `k` is the final or the part file of some well-formed digest. */
  ghost predicate IsDigestKey(k: Key)
  {
    exists d :: ValidDigest(d) && (k == FinalKey(d) || k == PartKey(d))
  }

  /** Every final file is as before or holds its content; part files are good; the rest is as before. */
  ghost predicate PoolSafe(truth: Truth, before: Files, files: Files)
  {
    && (forall d :: ValidDigest(d) ==> Safe(truth(d), ViewOf(before, d), ViewOf(files, d)))
    && (forall k: Key :: !IsDigestKey(k) ==> Lookup(files, k) == Lookup(before, k))
  }

  /** In particular nothing outside the blob pool changes. */
  lemma PoolSafeOutside(truth: Truth, before: Files, files: Files, k: Key)
    requires PoolSafe(truth, before, files) && !IsPoolKey(k)
    ensures Lookup(files, k) == Lookup(before, k)
  {
    hide IsPoolKey;
    if IsDigestKey(k) {
      var d :| ValidDigest(d) && (k == FinalKey(d) || k == PartKey(d));
      PoolKeys(d);
    }
  }

  lemma InvIsSafe(truth: Truth, job: Job, files: Files, s: Sys)
    requires Inv(job, files, s) && HonestUps(truth, job.ups) && GoodParts(truth, files)
    ensures PoolSafe(truth, files, s.files)
  {
    hide At, Between;
    forall d | ValidDigest(d) ensures Safe(truth(d), ViewOf(files, d), ViewOf(s.files, d)) {
      if i :| 0 <= i < |s.workers| && job.ups[i].digest == d {
        WorkerBetween(job.ups[i], ViewOf(files, d), ViewOf(s.files, d), s.workers[i]);
        BetweenIsSafe(job.ups[i], truth(d), ViewOf(files, d), ViewOf(s.files, d));
      } else {
        OutsideKeys(job.ups[..|s.workers|], d);
      }
    }
    forall k: Key | !IsDigestKey(k) ensures Lookup(s.files, k) == Lookup(files, k) {
      assert Outside(job.ups[..|s.workers|], k);
    }
  }

  lemma WorkerBetween(up: Upload, v: View, w: View, worker: Worker)
    requires WorkerAt(up, v, w, worker)
    ensures Between(up, v, w)
  {
    match worker
    case Busy(pc) => AtIsBetween(up, v, State(w, pc));
    case Counted(sent) => AtIsBetween(up, v, State(w, Finished(sent)));
    case Broken =>
  }

  lemma OutsideKeys(ups: seq<Upload>, d: Digest)
    requires ValidDigest(d) && forall i :: 0 <= i < |ups| ==> ups[i].digest != d
    ensures Outside(ups, FinalKey(d)) && Outside(ups, PartKey(d))
  {
    forall i | 0 <= i < |ups| && ValidDigest(ups[i].digest)
      ensures FinalKey(d) != FinalKey(ups[i].digest) && FinalKey(d) != PartKey(ups[i].digest)
      ensures PartKey(d) != FinalKey(ups[i].digest) && PartKey(d) != PartKey(ups[i].digest)
    {
      KeysNeverCollide(d, ups[i].digest);
      KeysNeverCollide(ups[i].digest, d);
    }
  }

  /** One invocation: a job and how far which schedule took it. */
  datatype Session = Session(job: Job, schedule: seq<Choice>)

  /** One invocation after another over the same pool, each cut off where its schedule ends. */
  function RunSessions(files: Files, sessions: seq<Session>): Files
  {
    if sessions == [] then files
    else
      var last := sessions[|sessions| - 1];
      Exec(last.job, Start(RunSessions(files, sessions[..|sessions| - 1])), last.schedule).files
  }

  ghost predicate HonestSessions(truth: Truth, sessions: seq<Session>)
  {
    forall i :: 0 <= i < |sessions| ==>
      Distinct(sessions[i].job.ups) && HonestUps(truth, sessions[i].job.ups)
  }

  lemma PoolSafeKeepsParts(truth: Truth, before: Files, files: Files)
    requires PoolSafe(truth, before, files)
    ensures GoodParts(truth, files)
  {
  }

  lemma PoolSafeTransitive(truth: Truth, a: Files, b: Files, c: Files)
    requires PoolSafe(truth, a, b) && PoolSafe(truth, b, c)
    ensures PoolSafe(truth, a, c)
  {
    forall d | ValidDigest(d) ensures Safe(truth(d), ViewOf(a, d), ViewOf(c, d)) {
      assert Safe(truth(d), ViewOf(a, d), ViewOf(b, d));
      assert Safe(truth(d), ViewOf(b, d), ViewOf(c, d));
    }
  }

  /**
    After any number of invocations, each interleaved in any way, with faults and
    cancellations anywhere and cut off anywhere, every final file the code put in place
    holds the content its digest names, and no part file can mislead a later run.
   */
  lemma {:induction false} CrashSafe(truth: Truth, files: Files, sessions: seq<Session>)
    requires HonestSessions(truth, sessions) && GoodParts(truth, files)
    ensures PoolSafe(truth, files, RunSessions(files, sessions))
    decreases |sessions|
  {
    if sessions != [] {
      var front, last := sessions[..|sessions| - 1], sessions[|sessions| - 1];
      CrashSafe(truth, files, front);
      var mid := RunSessions(files, front);
      PoolSafeKeepsParts(truth, files, mid);
      ExecKeepsInv(last.job, mid, last.schedule);
      InvIsSafe(truth, last.job, mid, Exec(last.job, Start(mid), last.schedule));
      PoolSafeTransitive(truth, files, mid, RunSessions(files, sessions));
    }
  }

  // -------------------------------------------------------------- schedule independence

  predicate Transferable(files: Files, up: Upload)
  {
    ValidDigest(up.digest) && CanFinish(up, ViewOf(files, up.digest))
  }

  predicate AllValid(ups: seq<Upload>)
  {
    forall i :: 0 <= i < |ups| ==> ValidDigest(ups[i].digest)
  }

  /** The uploads one after the other, each run to its successful end. */
  function Sequential(files: Files, ups: seq<Upload>): (Files, Tally)
  {
    if ups == [] then (files, Tally(0, 0, 0))
    else
      var n := |ups| - 1;
      var (f, t) := Sequential(files, ups[..n]);
      var up := ups[n];
      var v := ViewOf(f, up.digest);
      (WithView(f, up.digest, Settled(up, v)), t.Plus(One(up, !Complete(up, v))))
  }

  /** What one upload settles to does not depend on the uploads around it. */
  ghost predicate SettledFrom(files: Files, ups: seq<Upload>, after: Files)
  {
    && (forall i :: 0 <= i < |ups| ==>
         ViewOf(after, ups[i].digest) == Settled(ups[i], ViewOf(files, ups[i].digest)))
    && (forall k :: Outside(ups, k) ==> Lookup(after, k) == Lookup(files, k))
  }

  lemma DistinctOthers(ups: seq<Upload>, n: nat)
    requires Distinct(ups) && n < |ups|
    ensures Distinct(ups[..n]) && forall i :: 0 <= i < n ==> ups[..n][i].digest != ups[n].digest
  {
  }

  /** The view of a digest none of the uploads has. */
  lemma ForeignView(files: Files, ups: seq<Upload>, after: Files, d: Digest)
    requires SettledFrom(files, ups, after) && ValidDigest(d)
    requires forall i :: 0 <= i < |ups| ==> ups[i].digest != d
    ensures ViewOf(after, d) == ViewOf(files, d)
  {
    OutsideKeys(ups, d);
  }

  lemma SequentialUnfold(files: Files, ups: seq<Upload>)
    requires ups != []
    ensures var n := |ups| - 1;
      var f, up := Sequential(files, ups[..n]).0, ups[n];
      && ups == ups[..n] + [up]
      && Sequential(files, ups).0 == WithView(f, up.digest, Settled(up, ViewOf(f, up.digest)))
  {
    hide Settled, ViewOf, WithView;
  }

  lemma {:induction false} SequentialSettles(files: Files, ups: seq<Upload>)
    requires Distinct(ups) && AllValid(ups)
    ensures SettledFrom(files, ups, Sequential(files, ups).0)
    decreases |ups|
  {
    hide Settled, ViewOf, WithView, SettledFrom, Sequential;
    if ups == [] {
      SettledNone(files);
    } else {
      var n := |ups| - 1;
      var f, up := Sequential(files, ups[..n]).0, ups[n];
      DistinctOthers(ups, n);
      SequentialSettles(files, ups[..n]);
      ForeignView(files, ups[..n], f, up.digest);
      SettleOneMore(files, ups[..n], f, up);
      SequentialUnfold(files, ups);
    }
  }

  lemma SettledNone(files: Files)
    ensures SettledFrom(files, [], Sequential(files, []).0)
  {
  }

  lemma SettleOneMore(files: Files, front: seq<Upload>, f: Files, up: Upload)
    requires AllValid(front) && ValidDigest(up.digest) && SettledFrom(files, front, f)
    requires forall i :: 0 <= i < |front| ==> front[i].digest != up.digest
    requires ViewOf(f, up.digest) == ViewOf(files, up.digest)
    ensures SettledFrom(files, front + [up], WithView(f, up.digest, Settled(up, ViewOf(f, up.digest))))
  {
    hide Settled, ViewOf, WithView;
    var ups, w := front + [up], Settled(up, ViewOf(f, up.digest));
    var after := WithView(f, up.digest, w);
    ViewAfter(f, up.digest, w);
    forall i | 0 <= i < |ups|
      ensures ViewOf(after, ups[i].digest) == Settled(ups[i], ViewOf(files, ups[i].digest))
    {
      if i < |front| { OtherView(f, up.digest, w, front[i].digest); }
    }
    forall k | Outside(ups, k) ensures Lookup(after, k) == Lookup(files, k) {
      assert ups[|front|] == up;
      forall i | 0 <= i < |front| ensures k != FinalKey(front[i].digest) && k != PartKey(front[i].digest) {
        assert ups[i] == front[i];
      }
    }
  }

  /** Workers that all counted what sequential transfers would have counted. */
  predicate CountedAsSettled(files: Files, ups: seq<Upload>, ws: seq<Worker>)
    requires |ws| == |ups|
  {
    forall i :: 0 <= i < |ws| ==> ws[i] == Counted(!Complete(ups[i], ViewOf(files, ups[i].digest)))
  }

  lemma {:induction false} SequentialTally(files: Files, ups: seq<Upload>, ws: seq<Worker>)
    requires Distinct(ups) && AllValid(ups) && |ws| == |ups| && CountedAsSettled(files, ups, ws)
    ensures Sequential(files, ups).1 == TallyOf(ups, ws)
    decreases |ups|
  {
    if ups != [] {
      var n := |ups| - 1;
      DistinctOthers(ups, n);
      SequentialTally(files, ups[..n], ws[..n]);
      SequentialSettles(files, ups[..n]);
      ForeignView(files, ups[..n], Sequential(files, ups[..n]).0, ups[n].digest);
      TallyPrefix(ups, n, ws[..n]);
    }
  }

  lemma {:induction false} TallyPrefix(ups: seq<Upload>, n: nat, ws: seq<Worker>)
    requires |ws| <= n <= |ups|
    ensures TallyOf(ups[..n], ws) == TallyOf(ups, ws)
    decreases |ws|
  {
    if ws != [] { TallyPrefix(ups, n, ws[..|ws| - 1]); }
  }

  /** Two file maps that agree on every key of the uploads and on all other keys are equal. */
  lemma SettledUnique(files: Files, ups: seq<Upload>, a: Files, b: Files)
    requires AllValid(ups) && SettledFrom(files, ups, a) && SettledFrom(files, ups, b)
    ensures a == b
  {
    forall k ensures Lookup(a, k) == Lookup(b, k) {
      if i :| 0 <= i < |ups| && (k == FinalKey(ups[i].digest) || k == PartKey(ups[i].digest)) {
        assert ViewOf(a, ups[i].digest) == ViewOf(b, ups[i].digest);
      } else {
        assert Outside(ups, k);
      }
    }
    LookupsDetermine(a, b);
  }

  lemma LookupsDetermine(a: Files, b: Files)
    requires forall k :: Lookup(a, k) == Lookup(b, k)
    ensures a == b
  {
    forall k ensures k in a <==> k in b { assert Lookup(a, k) == Lookup(b, k); }
    forall k | k in a ensures a[k] == b[k] { assert Lookup(a, k) == Lookup(b, k); }
  }

  lemma {:induction false} TallyAdds(ups: seq<Upload>, ws: seq<Worker>)
    requires |ws| <= |ups| && forall i :: 0 <= i < |ws| ==> ws[i].Counted?
    ensures TallyOf(ups, ws).sent + TallyOf(ups, ws).reused == |ws|
    decreases |ws|
  {
    if ws != [] { TallyAdds(ups, ws[..|ws| - 1]); }
  }

  /** When a job ends without error and without being cut short, every worker has counted. */
  lemma AllCounted(s: Sys)
    requires Terminal(s) && !AnyBroken(s.workers)
    ensures forall i :: 0 <= i < |s.workers| ==> s.workers[i].Counted?
  {
  }

  lemma CountedSettles(job: Job, files: Files, s: Sys)
    requires Inv(job, files, s)
    requires forall i :: 0 <= i < |s.workers| ==> s.workers[i].Counted?
    ensures var done := job.ups[..|s.workers|];
      && AllValid(done) && SettledFrom(files, done, s.files) && CountedAsSettled(files, done, s.workers)
      && forall i :: 0 <= i < |done| ==> Transferable(files, done[i])
  {
    hide Settled, Complete, At, TallyOf, CanFinish, LoopInv;
    forall i | 0 <= i < |s.workers|
      ensures Transferable(files, job.ups[i])
      ensures ViewOf(s.files, job.ups[i].digest) == Settled(job.ups[i], ViewOf(files, job.ups[i].digest))
      ensures s.workers[i] == Counted(!Complete(job.ups[i], ViewOf(files, job.ups[i].digest)))
    {
      var d := job.ups[i].digest;
      CountedIs(job.ups[i], ViewOf(files, d), ViewOf(s.files, d), s.workers[i].sent);
    }
  }

  lemma CountedIs(up: Upload, v: View, w: View, sent: bool)
    requires At(up, v, State(w, Finished(sent)))
    ensures w == Settled(up, v) && sent == !Complete(up, v) && CanFinish(up, v)
  {
  }

  /**
    Whatever the schedule, a job that ends with no worker broken leaves the files and the
    counts of its first uploads done one after the other; of all of them exactly if the
    loop was not cut short.
   */
  lemma ScheduleIndependence(job: Job, files: Files, schedule: seq<Choice>)
    requires Distinct(job.ups)
    requires var s := Exec(job, Start(files), schedule); Terminal(s) && !AnyBroken(s.workers)
    ensures var s := Exec(job, Start(files), schedule);
      var n := |s.workers|;
      && n <= |job.ups| && (n == |job.ups| <==> s.loop == Ended(false))
      && (s.files, s.result) == Sequential(files, job.ups[..n])
      && s.result.sent + s.result.reused == n
      && forall i :: 0 <= i < n ==> Transferable(files, job.ups[i])
  {
    hide At, Between, Settled, Complete, EachWorker, Transferable, CountedAsSettled, SettledFrom;
    var s := Exec(job, Start(files), schedule);
    ExecKeepsInv(job, files, schedule);
    AllCounted(s);
    CountedSettles(job, files, s);
    var done := job.ups[..|s.workers|];
    SequentialSettles(files, done);
    SettledUnique(files, done, s.files, Sequential(files, done).0);
    SequentialTally(files, done, s.workers);
    TallyPrefix(job.ups, |s.workers|, s.workers);
    TallyAdds(job.ups, s.workers);
    forall i | 0 <= i < |s.workers| ensures Transferable(files, job.ups[i]) {
      assert done[i] == job.ups[i];
    }
  }

  /**
    A job that ends without reporting an error has accepted every upload exactly if the
    cancellation check did not cut the loop short; without a caller's cancellation it never does.
   */
  lemma NilErrorIffAccepted(job: Job, files: Files, schedule: seq<Choice>)
    requires Distinct(job.ups)
    requires var s := Exec(job, Start(files), schedule); Terminal(s) && !ReportsError(job, s)
    ensures var s := Exec(job, Start(files), schedule);
      && (s.result.sent + s.result.reused == |job.ups| <==> s.loop == Ended(false))
      && (!s.ctxDone ==> s.loop == Ended(false))
  {
    hide At, Between;
    var s := Exec(job, Start(files), schedule);
    ExecKeepsInv(job, files, schedule);
    AllCounted(s);
    TallyAdds(job.ups, s.workers);
  }

  /** Cancelled before the first upload is fetched, a job reports no error and does nothing. */
  lemma CancelledReportsNoError(job: Job, files: Files)
    requires |job.ups| > 0
    ensures var s := Exec(job, Start(files), [Cancel, Dispatch]);
      Terminal(s) && !ReportsError(job, s) && s.files == files && s.result == Tally(0, 0, 0)
  {
    var two, one := [Cancel, Dispatch], [Cancel];
    assert two[..1] == one && one[..0] == [];
    assert Exec(job, Start(files), one) == Start(files).(ctxDone := true);
  }

  // ------------------------------------------------------------------------- progress

  function WorkerRank(up: Upload, w: Worker): nat
  {
    if w.Busy? then Rank(up, w.pc) else 0
  }

  /** Work left for the first `n` uploads; an upload not yet dispatched counts a little more. */
  function WorkLeft(ups: seq<Upload>, ws: seq<Worker>, n: nat): nat
    requires n <= |ups|
  {
    if n == 0 then 0
    else
      WorkLeft(ups, ws, n - 1) +
        if n <= |ws| then WorkerRank(ups[n - 1], ws[n - 1]) else Rank(ups[n - 1], StatFinal) + 2
  }

  /** Bounds the number of moves that still change anything. */
  function Measure(job: Job, s: Sys): nat
  {
    WorkLeft(job.ups, s.workers, |job.ups|) + (if s.loop.Fetch? then 1 else 0) + (if s.ctxDone then 0 else 1)
      + (if s.loop.Ended? then 0 else 1)
  }

  lemma {:induction false} WorkLeftUpdate(ups: seq<Upload>, ws: seq<Worker>, i: nat, w: Worker, n: nat)
    requires i < |ws| && n <= |ups|
    ensures WorkLeft(ups, ws[i := w], n) + (if i < n then WorkerRank(ups[i], ws[i]) else 0)
         == WorkLeft(ups, ws, n) + (if i < n then WorkerRank(ups[i], w) else 0)
    decreases n
  {
    if n > 0 { WorkLeftUpdate(ups, ws, i, w, n - 1); }
  }

  lemma {:induction false} WorkLeftSpawn(ups: seq<Upload>, ws: seq<Worker>, n: nat)
    requires n <= |ups|
    ensures WorkLeft(ups, ws + [Busy(StatFinal)], n) + (if |ws| < n then 2 else 0) == WorkLeft(ups, ws, n)
    decreases n
  {
    if n > 0 { WorkLeftSpawn(ups, ws, n - 1); }
  }

  /** Every move changes nothing or uses the measure up: no schedule moves forever. */
  lemma EveryMoveProgresses(job: Job, s: Sys, c: Choice)
    requires |s.workers| <= |job.ups| && LoopInv(job, s)
    ensures Advance(job, s, c) == s || Measure(job, Advance(job, s, c)) < Measure(job, s)
  {
    hide Rank, ViewOf, WithView, Step, Active;
    match c
    case Dispatch => WorkLeftSpawn(job.ups, s.workers, |job.ups|);
    case Operate(i, e) =>
      if i < |s.workers| && s.workers[i].Busy? && !s.workers[i].pc.Stopped() {
        OperateRanks(job.ups[i], s, i, e);
        WorkLeftUpdate(job.ups, s.workers, i, OperateStep(job.ups[i], s, i, e).workers[i], |job.ups|);
      }
    case Settle(i) =>
      if i < |s.workers| && s.workers[i].Busy? && s.workers[i].pc.Finished? {
        FinishedRank(job.ups[i], s.workers[i].pc);
        WorkLeftUpdate(job.ups, s.workers, i, Counted(s.workers[i].pc.sent), |job.ups|);
      }
    case Cancel =>
  }

  lemma FinishedRank(up: Upload, pc: Pc)
    requires pc.Finished?
    ensures Rank(up, pc) > 0
  {
  }

  lemma OperateRanks(up: Upload, s: Sys, i: nat, e: Event)
    requires i < |s.workers| && s.workers[i].Busy? && !s.workers[i].pc.Stopped()
    ensures var t := OperateStep(up, s, i, e);
      && t.workers == s.workers[i := t.workers[i]]
      && WorkerRank(up, t.workers[i]) < WorkerRank(up, s.workers[i])
      && t.loop == s.loop && t.ctxDone == s.ctxDone
  {
    if ValidDigest(up.digest) {
      StepRanks(up, State(ViewOf(s.files, up.digest), s.workers[i].pc), e);
    }
  }

  /** A busy worker, if there is one. */
  function FirstBusy(ws: seq<Worker>): (i: nat)
    ensures i <= |ws|
    ensures i < |ws| ==> ws[i].Busy?
    ensures i == |ws| ==> forall j :: 0 <= j < |ws| ==> !ws[j].Busy?
  {
    if ws == [] then 0
    else if ws[0].Busy? then 0
    else 1 + FirstBusy(ws[1..])
  }

  /** A fault-free move that is always possible until the job is over. */
  function SomeMove(job: Job, s: Sys): Choice
  {
    var i := FirstBusy(s.workers);
    if s.loop.Fetch? || (s.loop.Blocked? && Active(s.workers) < job.limit) then Dispatch
    else if i < |s.workers| && s.workers[i].pc.Finished? then Settle(i)
    else Operate(i, Works(COPY_BUFFER_SIZE))
  }

  lemma SomeMoveMoves(job: Job, files: Files, s: Sys)
    requires |s.workers| <= |job.ups| && EachWorker(job, files, s)
    requires !Terminal(s) && job.limit >= 1
    ensures Advance(job, s, SomeMove(job, s)) != s
  {
    hide At, Between, Step, ViewOf, WithView, Rank, Complete;
    var i := FirstBusy(s.workers);
    if s.loop.Fetch? || (s.loop.Blocked? && Active(s.workers) < job.limit) {
    } else {
      assert i < |s.workers|;
      var e := Works(COPY_BUFFER_SIZE);
      if !s.workers[i].pc.Finished? {
        assert !s.workers[i].pc.Stopped();
        OperateRanks(job.ups[i], s, i, e);
        assert Advance(job, s, SomeMove(job, s)) == OperateStep(job.ups[i], s, i, e);
      }
    }
  }

  /** No deadlock: until the job is over some fault-free move changes something. */
  lemma NeverStuck(job: Job, files: Files, s: Sys)
    requires Inv(job, files, s) && !Terminal(s) && job.limit >= 1
    ensures Measure(job, Advance(job, s, SomeMove(job, s))) < Measure(job, s)
    ensures Quiet(SomeMove(job, s))
  {
    hide EachWorker, RestUntouched, TallyOf, LoopInv, Advance, Measure, Terminal;
    SomeMoveMoves(job, files, s);
    EveryMoveProgresses(job, s, SomeMove(job, s));
  }

  // ------------------------------------------------------------------ fault-free runs

  predicate Quiet(c: Choice)
  {
    match c
    case Dispatch => true
    case Operate(_, e) => e.Works?
    case Settle(_) => true
    case Cancel => false
  }

  predicate QuietSchedule(schedule: seq<Choice>)
  {
    forall i :: 0 <= i < |schedule| ==> Quiet(schedule[i])
  }

  predicate BrokenForCause(job: Job, files: Files, s: Sys)
    requires |s.workers| <= |job.ups|
  {
    !s.ctxDone && forall i :: 0 <= i < |s.workers| && s.workers[i].Broken? ==> !Transferable(files, job.ups[i])
  }

  lemma QuietOperateKeepsCause(job: Job, files: Files, s: Sys, i: nat, e: Event)
    requires |s.workers| <= |job.ups| && EachWorker(job, files, s) && BrokenForCause(job, files, s)
    requires i < |s.workers| && s.workers[i].Busy? && !s.workers[i].pc.Stopped() && e.Works?
    ensures BrokenForCause(job, files, OperateStep(job.ups[i], s, i, e))
  {
    hide At, Between, CanFinish, ViewOf, WithView, Next, EachWorker;
    var up, t := job.ups[i], OperateStep(job.ups[i], s, i, e);
    assert t.workers == s.workers[i := t.workers[i]];
    if t.workers[i].Broken? {
      WorkerOf(job, files, s, i);
      if ValidDigest(up.digest) {
        FailsOnlyIfStuck(up, ViewOf(files, up.digest), State(ViewOf(s.files, up.digest), s.workers[i].pc), e.k);
      }
    }
  }

  lemma WorkerOf(job: Job, files: Files, s: Sys, i: nat)
    requires |s.workers| <= |job.ups| && EachWorker(job, files, s) && i < |s.workers|
    ensures WorkerFits(job.ups[i], files, s.files, s.workers[i])
  {
    hide WorkerFits;
  }

  lemma QuietKeepsCause(job: Job, files: Files, s: Sys, c: Choice)
    requires Inv(job, files, s) && BrokenForCause(job, files, s) && Quiet(c)
    ensures |Advance(job, s, c).workers| <= |job.ups| && BrokenForCause(job, files, Advance(job, s, c))
  {
    hide EachWorker, RestUntouched, Transferable, TallyOf, Active, AnyBroken, ViewOf, WithView, Step;
    if c.Operate? && c.i < |s.workers| && s.workers[c.i].Busy? && !s.workers[c.i].pc.Stopped() {
      QuietOperateKeepsCause(job, files, s, c.i, c.event);
    }
  }

  lemma {:induction false} QuietExec(job: Job, files: Files, schedule: seq<Choice>)
    requires Distinct(job.ups) && QuietSchedule(schedule)
    ensures |Exec(job, Start(files), schedule).workers| <= |job.ups|
    ensures BrokenForCause(job, files, Exec(job, Start(files), schedule))
    decreases |schedule|
  {
    hide Advance;
    if schedule != [] {
      var front := schedule[..|schedule| - 1];
      QuietExec(job, files, front);
      ExecKeepsInv(job, files, front);
      QuietKeepsCause(job, files, Exec(job, Start(files), front), schedule[|schedule| - 1]);
    }
  }

  /**
    A fault-free, uncancelled run to the end transfers everything without error exactly if
    every single upload could be transferred on its own.
   */
  lemma QuietOutcome(job: Job, files: Files, schedule: seq<Choice>)
    requires Distinct(job.ups) && QuietSchedule(schedule)
    requires Terminal(Exec(job, Start(files), schedule))
    ensures var s := Exec(job, Start(files), schedule);
      (!AnyBroken(s.workers) && s.loop == Ended(false)) <==>
      (forall i :: 0 <= i < |job.ups| ==> Transferable(files, job.ups[i]))
  {
    hide At, CanFinish, TallyOf, ViewOf, RestUntouched, Between;
    var s := Exec(job, Start(files), schedule);
    ExecKeepsInv(job, files, schedule);
    QuietExec(job, files, schedule);
    if !AnyBroken(s.workers) && s.loop == Ended(false) {
      AllCounted(s);
      forall i | 0 <= i < |job.ups| ensures Transferable(files, job.ups[i]) {
        var d := job.ups[i].digest;
        assert ValidDigest(d);
        CountedIs(job.ups[i], ViewOf(files, d), ViewOf(s.files, d), s.workers[i].sent);
      }
    }
  }

  // -------------------------------------------------------------- runs there really are

  lemma OneMoreMove(job: Job, s: Sys, schedule: seq<Choice>, c: Choice)
    ensures Exec(job, s, schedule + [c]) == Advance(job, Exec(job, s, schedule), c)
  {
    assert (schedule + [c])[..|schedule|] == schedule;
  }

  /** A fault-free run can always be brought to its end. */
  lemma {:induction false} QuietRunsOut(job: Job, files: Files, schedule: seq<Choice>) returns (longer: seq<Choice>)
    requires Distinct(job.ups) && job.limit >= 1 && QuietSchedule(schedule)
    ensures QuietSchedule(longer) && Terminal(Exec(job, Start(files), longer))
    decreases Measure(job, Exec(job, Start(files), schedule))
  {
    hide Advance, Exec, Inv, Measure, Terminal, SomeMove;
    var s := Exec(job, Start(files), schedule);
    if Terminal(s) { return schedule; }
    ExecKeepsInv(job, files, schedule);
    NeverStuck(job, files, s);
    OneMoreMove(job, Start(files), schedule, SomeMove(job, s));
    longer := QuietRunsOut(job, files, schedule + [SomeMove(job, s)]);
  }

  /** Where every upload can be transferred, some schedule of the job transfers them all. */
  lemma AllReached(job: Job, files: Files) returns (schedule: seq<Choice>)
    requires Distinct(job.ups) && job.limit >= 1
    requires forall i :: 0 <= i < |job.ups| ==> Transferable(files, job.ups[i])
    ensures var s := Exec(job, Start(files), schedule);
      && Terminal(s) && !AnyBroken(s.workers) && s.loop == Ended(false) && !s.ctxDone
      && (s.files, s.result) == Sequential(files, job.ups)
  {
    hide Exec, Terminal, Transferable, Sequential;
    schedule := QuietRunsOut(job, files, []);
    QuietOutcome(job, files, schedule);
    QuietExec(job, files, schedule);
    ScheduleIndependence(job, files, schedule);
    assert job.ups[..|job.ups|] == job.ups;
  }

  /**
    The whole job seen while a shorter job runs: `base` is where the whole job was when the
    shorter one, for the uploads that follow, began; its loop does not end with the part.
   */
  predicate Onto(base: Sys, s: Sys, whole: Sys)
  {
    && whole.files == s.files && whole.ctxDone == s.ctxDone
    && whole.workers == base.workers + s.workers
    && whole.result == base.result.Plus(s.result)
    && whole.loop == if s.loop == Ended(false) then Fetch else s.loop
  }

  /** The uploads from where `base` stands up to `m`, with the slots its busy workers leave. */
  function PartOf(job: Job, base: Sys, m: nat): Job
    requires |base.workers| <= m <= |job.ups| && Active(base.workers) <= job.limit
  {
    Job(job.ups[|base.workers|..m], false, job.limit - Active(base.workers))
  }

  /** The dispatcher's move that ends the loop of the shorter job, or comes after its end. */
  predicate EndsPart(s: Sys, n: nat, c: Choice)
  {
    c == Dispatch && (s.loop.Ended? || (s.loop.Fetch? && |s.workers| >= n))
  }

  function Shifted(c: Choice, n: nat): Choice
  {
    match c
    case Operate(i, e) => Operate(n + i, e)
    case Settle(i) => Settle(n + i)
    case _ => c
  }

  lemma {:induction false} ActiveConcat(ws: seq<Worker>, xs: seq<Worker>)
    ensures Active(ws + xs) == Active(ws) + Active(xs)
    decreases |xs|
  {
    if xs == [] {
      assert ws + xs == ws;
    } else {
      var n := |xs| - 1;
      assert (ws + xs)[..|ws + xs| - 1] == ws + xs[..n];
      ActiveConcat(ws, xs[..n]);
    }
  }

  lemma BrokenConcat(ws: seq<Worker>, xs: seq<Worker>)
    requires !AnyBroken(ws)
    ensures AnyBroken(ws + xs) <==> AnyBroken(xs)
  {
    if AnyBroken(xs) {
      var i :| 0 <= i < |xs| && xs[i].Broken?;
      assert (ws + xs)[|ws| + i].Broken?;
    }
  }

  lemma ShiftedUpdate(ws: seq<Worker>, xs: seq<Worker>, i: nat, w: Worker)
    requires i < |xs|
    ensures (ws + xs)[|ws| + i] == xs[i] && (ws + xs)[|ws| + i := w] == ws + xs[i := w]
  {
  }

  lemma OntoDispatch(job: Job, base: Sys, m: nat, s: Sys, whole: Sys)
    requires |base.workers| <= m <= |job.ups| && Active(base.workers) <= job.limit
    requires !AnyBroken(base.workers) && |s.workers| <= m - |base.workers| && Onto(base, s, whole)
    ensures Onto(base, DispatchStep(PartOf(job, base, m), s),
                 if EndsPart(s, m - |base.workers|, Dispatch) then whole else DispatchStep(job, whole))
  {
    hide Active, AnyBroken;
    ActiveConcat(base.workers, s.workers);
    BrokenConcat(base.workers, s.workers);
    assert base.workers + (s.workers + [Busy(StatFinal)]) == base.workers + s.workers + [Busy(StatFinal)];
  }

  /** What one operation does depends on the files and the worker only. */
  lemma SameOperation(up: Upload, s: Sys, i: nat, whole: Sys, j: nat, e: Event)
    requires i < |s.workers| && s.workers[i].Busy? && j < |whole.workers| && whole.workers[j] == s.workers[i]
    requires whole.files == s.files
    ensures var t, u := OperateStep(up, s, i, e), OperateStep(up, whole, j, e);
      && u.files == t.files && t.workers == s.workers[i := t.workers[i]] && u.workers == whole.workers[j := t.workers[i]]
      && t.loop == s.loop && t.ctxDone == s.ctxDone && t.result == s.result
      && u.loop == whole.loop && u.ctxDone == whole.ctxDone && u.result == whole.result
  {
    hide ViewOf, WithView, Step;
  }

  lemma OntoOperate(job: Job, base: Sys, m: nat, s: Sys, whole: Sys, i: nat, e: Event)
    requires |base.workers| <= m <= |job.ups| && Active(base.workers) <= job.limit
    requires |s.workers| <= m - |base.workers| && Onto(base, s, whole)
    ensures Onto(base, Advance(PartOf(job, base, m), s, Operate(i, e)), Advance(job, whole, Operate(|base.workers| + i, e)))
  {
    hide Active, OperateStep;
    var part, n := PartOf(job, base, m), |base.workers|;
    if i < |s.workers| {
      assert part.ups[i] == job.ups[n + i] && whole.workers[n + i] == s.workers[i];
      if s.workers[i].Busy? && !s.workers[i].pc.Stopped() {
        SameOperation(job.ups[n + i], s, i, whole, n + i, e);
        ShiftedUpdate(base.workers, s.workers, i, OperateStep(job.ups[n + i], s, i, e).workers[i]);
      }
    }
  }

  lemma OntoSettle(job: Job, base: Sys, m: nat, s: Sys, whole: Sys, i: nat)
    requires |base.workers| <= m <= |job.ups| && Active(base.workers) <= job.limit
    requires |s.workers| <= m - |base.workers| && Onto(base, s, whole)
    ensures Onto(base, Advance(PartOf(job, base, m), s, Settle(i)), Advance(job, whole, Settle(|base.workers| + i)))
  {
    hide Active;
    var part, n := PartOf(job, base, m), |base.workers|;
    if i < |s.workers| {
      assert part.ups[i] == job.ups[n + i] && whole.workers[n + i] == s.workers[i];
      if s.workers[i].Busy? && s.workers[i].pc.Finished? {
        ShiftedUpdate(base.workers, s.workers, i, Counted(s.workers[i].pc.sent));
      }
    }
  }

  lemma OntoMove(job: Job, base: Sys, m: nat, s: Sys, whole: Sys, c: Choice)
    requires |base.workers| <= m <= |job.ups| && Active(base.workers) <= job.limit
    requires !AnyBroken(base.workers) && |s.workers| <= m - |base.workers| && Onto(base, s, whole)
    ensures Onto(base, Advance(PartOf(job, base, m), s, c),
                 if EndsPart(s, m - |base.workers|, c) then whole else Advance(job, whole, Shifted(c, |base.workers|)))
  {
    hide AnyBroken, Active, OperateStep, DispatchStep, PartOf;
    match c
    case Dispatch => OntoDispatch(job, base, m, s, whole);
    case Operate(i, e) => OntoOperate(job, base, m, s, whole, i, e);
    case Settle(i) => OntoSettle(job, base, m, s, whole, i);
    case Cancel =>
  }

  /** Every schedule of the shorter job is one of the whole job, going on from `base`. */
  lemma {:induction false} OntoSchedule(job: Job, files: Files, before: seq<Choice>, m: nat, schedule: seq<Choice>)
    returns (whole: seq<Choice>)
    requires Distinct(job.ups)
    requires var base := Exec(job, Start(files), before);
      && |base.workers| <= m <= |job.ups| && Active(base.workers) <= job.limit
      && !AnyBroken(base.workers) && base.loop == Fetch && !base.ctxDone
    ensures var base := Exec(job, Start(files), before);
      Onto(base, Exec(PartOf(job, base, m), Start(base.files), schedule), Exec(job, Start(files), whole))
    decreases |schedule|
  {
    hide Advance, Onto, EndsPart, Active, AnyBroken;
    var base := Exec(job, Start(files), before);
    var part := PartOf(job, base, m);
    if schedule == [] {
      OntoStart(part, base);
      return before;
    }
    var front, c := schedule[..|schedule| - 1], schedule[|schedule| - 1];
    whole := OntoSchedule(job, files, before, m, front);
    DistinctPart(job.ups, |base.workers|, m);
    PartWorkers(part, base.files, front);
    var s := Exec(part, Start(base.files), front);
    OntoMove(job, base, m, s, Exec(job, Start(files), whole), c);
    if !EndsPart(s, m - |base.workers|, c) {
      OneMoreMove(job, Start(files), whole, Shifted(c, |base.workers|));
      whole := whole + [Shifted(c, |base.workers|)];
    }
  }

  lemma OntoStart(part: Job, base: Sys)
    requires base.loop == Fetch && !base.ctxDone
    ensures Onto(base, Exec(part, Start(base.files), []), base)
  {
  }

  lemma DistinctPart(ups: seq<Upload>, n: nat, m: nat)
    requires Distinct(ups) && n <= m <= |ups|
    ensures Distinct(ups[n..m])
  {
  }

  lemma PartWorkers(job: Job, files: Files, schedule: seq<Choice>)
    requires Distinct(job.ups)
    ensures |Exec(job, Start(files), schedule).workers| <= |job.ups|
  {
    hide EachWorker, RestUntouched;
    ExecKeepsInv(job, files, schedule);
  }

  /** A point between two uploads: none broken, none cancelled, the loop about to go on. */
  predicate PausedAt(s: Sys, n: nat, active: nat)
  {
    !AnyBroken(s.workers) && !s.ctxDone && s.loop == Fetch && |s.workers| == n && Active(s.workers) == active
  }

  /** From such a point, where the next uploads can be transferred, some schedule transfers just these. */
  lemma PartReached(job: Job, files: Files, before: seq<Choice>, n: nat, m: nat, active: nat) returns (whole: seq<Choice>)
    requires Distinct(job.ups) && n <= m <= |job.ups| && active < job.limit
    requires PausedAt(Exec(job, Start(files), before), n, active)
    requires var f := Exec(job, Start(files), before).files; forall i :: n <= i < m ==> Transferable(f, job.ups[i])
    ensures Exec(job, Start(files), whole).files == Sequential(Exec(job, Start(files), before).files, job.ups[n..m]).0
    ensures PausedAt(Exec(job, Start(files), whole), m, active)
  {
    hide Exec, Transferable, Sequential, Active, AnyBroken, Onto;
    var base := Exec(job, Start(files), before);
    if n == m {
      assert job.ups[n..m] == [];
      SequentialNone(base.files);
      return before;
    }
    var part := PartOf(job, base, m);
    DistinctPart(job.ups, n, m);
    var schedule := AllReached(part, base.files);
    var s := Exec(part, Start(base.files), schedule);
    PartCounts(part, base.files, schedule);
    whole := OntoSchedule(job, files, before, m, schedule);
    OntoEnd(base, s, Exec(job, Start(files), whole), n, m, active);
  }

  lemma SequentialNone(files: Files)
    ensures Sequential(files, []).0 == files
  {
  }

  lemma PartCounts(part: Job, files: Files, schedule: seq<Choice>)
    requires Distinct(part.ups)
    requires var s := Exec(part, Start(files), schedule); Terminal(s) && !AnyBroken(s.workers) && s.loop == Ended(false)
    ensures |Exec(part, Start(files), schedule).workers| == |part.ups|
  {
    hide Exec, Terminal, Sequential, Transferable;
    ScheduleIndependence(part, files, schedule);
  }

  lemma OntoEnd(base: Sys, s: Sys, whole: Sys, n: nat, m: nat, active: nat)
    requires PausedAt(base, n, active) && n <= m && Onto(base, s, whole)
    requires Terminal(s) && !AnyBroken(s.workers) && s.loop == Ended(false) && !s.ctxDone && |s.workers| == m - n
    ensures whole.files == s.files
    ensures PausedAt(whole, m, active)
  {
    hide Active, AnyBroken;
    ActiveConcat(base.workers, s.workers);
    BrokenConcat(base.workers, s.workers);
  }

  lemma PausedAtStart(job: Job, files: Files)
    ensures PausedAt(Exec(job, Start(files), []), 0, 0) && Exec(job, Start(files), []).files == files
  {
  }

  /** Where the first `n` uploads can be transferred, some schedule transfers just these. */
  lemma PrefixReached(job: Job, files: Files, n: nat) returns (schedule: seq<Choice>)
    requires Distinct(job.ups) && job.limit >= 1 && n <= |job.ups|
    requires forall i :: 0 <= i < n ==> Transferable(files, job.ups[i])
    ensures Exec(job, Start(files), schedule).files == Sequential(files, job.ups[..n]).0
    ensures PausedAt(Exec(job, Start(files), schedule), n, 0)
  {
    hide Exec, Transferable, Sequential, PausedAt;
    PausedAtStart(job, files);
    schedule := PartReached(job, files, [], 0, n, 0);
    assert job.ups[0..n] == job.ups[..n];
  }

  /** An upload may be dispatched and its worker not come to do anything. */
  lemma IdleReached(job: Job, files: Files, before: seq<Choice>, n: nat) returns (after: seq<Choice>)
    requires n < |job.ups| && job.limit >= 1 && PausedAt(Exec(job, Start(files), before), n, 0)
    ensures PausedAt(Exec(job, Start(files), after), n + 1, 1)
    ensures Exec(job, Start(files), after).files == Exec(job, Start(files), before).files
    ensures Exec(job, Start(files), after).workers == Exec(job, Start(files), before).workers + [Busy(StatFinal)]
  {
    hide Exec;
    var base := Exec(job, Start(files), before);
    OneMoreMove(job, Start(files), before, Dispatch);
    OneMoreMove(job, Start(files), before + [Dispatch], Dispatch);
    after := before + [Dispatch] + [Dispatch];
    assert !AnyBroken(base.workers + [Busy(StatFinal)]);
    ActiveSpawn(base.workers);
  }

  /** Transferring some uploads does not change whether the others can be transferred. */
  lemma StillTransferable(files: Files, ups: seq<Upload>, n: nat, i: nat)
    requires Distinct(ups) && n <= i < |ups| && Transferable(files, ups[i])
    requires forall k :: 0 <= k < n ==> Transferable(files, ups[k])
    ensures Transferable(Sequential(files, ups[..n]).0, ups[i])
  {
    hide Sequential, ViewOf, CanFinish;
    DistinctPart(ups, 0, n);
    assert ups[0..n] == ups[..n];
    SequentialSettles(files, ups[..n]);
    ForeignView(files, ups[..n], Sequential(files, ups[..n]).0, ups[i].digest);
  }

  /** With two slots a job can be cut off after its first `m` uploads but one. */
  lemma AllButReached(job: Job, files: Files, j: nat, m: nat) returns (schedule: seq<Choice>)
    requires Distinct(job.ups) && job.limit >= 2 && j < m <= |job.ups|
    requires forall i :: 0 <= i < m && i != j ==> Transferable(files, job.ups[i])
    ensures Exec(job, Start(files), schedule).files
         == Sequential(Sequential(files, job.ups[..j]).0, job.ups[j + 1..m]).0
    ensures PausedAt(Exec(job, Start(files), schedule), m, 1)
  {
    hide Exec, Transferable, Sequential, PausedAt;
    schedule := PrefixReached(job, files, j);
    schedule := IdleReached(job, files, schedule, j);
    forall i | j + 1 <= i < m ensures Transferable(Sequential(files, job.ups[..j]).0, job.ups[i]) {
      StillTransferable(files, job.ups, j, i);
    }
    schedule := PartReached(job, files, schedule, j + 1, m, 1);
  }

  /**
    An error of the iterator cancels nothing: where every upload it gave can be transferred,
    some schedule transfers them all, and only then the error is reported.
   */
  lemma IteratorErrorCancelsNothing(job: Job, files: Files) returns (schedule: seq<Choice>)
    requires Distinct(job.ups) && job.limit >= 1 && job.iterFails
    requires forall i :: 0 <= i < |job.ups| ==> Transferable(files, job.ups[i])
    ensures var s := Exec(job, Start(files), schedule);
      Terminal(s) && ReportsError(job, s) && (s.files, s.result) == Sequential(files, job.ups)
  {
    hide Exec, Terminal, Transferable, Sequential;
    schedule := AllReached(job, files);
  }
}
