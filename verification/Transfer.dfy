/**
  The transfer of one blob as a small-step machine over what the file system holds for
  its digest: the final file and the part file.
 */
module Transfer {
  import opened Base
  import opened SlashPath
  import opened Digests

  type Files = map<Key, Bytes>

  const COPY_BUFFER_SIZE := 256 * 1024

  /** A blob to ship: its announced size, and the bytes its reader serves (if it opens at all). */
  datatype Upload = Upload(digest: Digest, size: nat, source: Option<Bytes>)

  /** What the pool holds for one digest. */
  datatype View = View(final: Option<Bytes>, part: Option<Bytes>)

  function Lookup(files: Files, k: Key): Option<Bytes>
  {
    if k in files then Some(files[k]) else None
  }

  function Store(files: Files, k: Key, content: Option<Bytes>): Files
  {
    match content
    case Some(bytes) => files[k := bytes]
    case None => files - {k}
  }

  function ViewOf(files: Files, d: Digest): View
  {
    View(Lookup(files, FinalKey(d)), Lookup(files, PartKey(d)))
  }

  function WithView(files: Files, d: Digest, v: View): Files
  {
    Store(Store(files, FinalKey(d), v.final), PartKey(d), v.part)
  }

  /** Writing at an offset; a gap before the offset reads as zeros. */
  function WriteAt(b: Bytes, at: nat, chunk: Bytes): Bytes
  {
    if at <= |b| then b[..at] + chunk + (if at + |chunk| <= |b| then b[at + |chunk|..] else [])
    else b + seq(at - |b|, _ => 0) + chunk
  }

  function OrEmpty(b: Option<Bytes>): Bytes
  {
    if b.Some? then b.value else []
  }

  /** Where the transfer of one blob stands: the operation it will do next, or its outcome. */
  datatype Pc =
    | StatFinal
    | MakeDir
    | StatPart
    | RemovePart
    | Decide(startAt: nat)
    | OpenSource(startAt: nat)
    | OpenPart(startAt: nat)
    | Copy(filePos: nat, readPos: nat)
    | RenamePart
    | Finished(sent: bool)
    | Failed
  {
    predicate Stopped() { Finished? || Failed? }
  }

  datatype State = State(view: View, pc: Pc)

  function ChunkLen(k: nat, left: nat): (n: nat)
    requires left > 0
    ensures 1 <= n <= left && n <= COPY_BUFFER_SIZE
  {
    var most := if left <= COPY_BUFFER_SIZE then left else COPY_BUFFER_SIZE;
    if k == 0 then 1 else if k <= most then k else most
  }

  /** The blob's final file is already there, as far as its size tells. */
  predicate Complete(up: Upload, v: View)
  {
    v.final.Some? && |v.final.value| == up.size
  }

  /**
    One operation without fault.  `k` is how many bytes the next read delivers; operations
    that cannot succeed (no source, nothing to rename) end in `Failed`.
   */
  function Next(up: Upload, s: State, k: nat): State
  {
    var v := s.view;
    match s.pc
    case StatFinal => s.(pc := if Complete(up, v) then Finished(false) else MakeDir)
    case MakeDir => s.(pc := StatPart)
    case StatPart =>
      s.(pc := if v.part.None? then Decide(0)
               else if |v.part.value| > up.size then RemovePart
               else Decide(|v.part.value|))
    case RemovePart => State(v.(part := None), Decide(0))
    case Decide(n) => s.(pc := if n == up.size then RenamePart else OpenSource(n))
    case OpenSource(n) =>
      s.(pc := if up.source.Some? && n <= |up.source.value| then OpenPart(n) else Failed)
    case OpenPart(n) => State(v.(part := Some(OrEmpty(v.part))), Copy(n, n))
    case Copy(w, r) =>
      var source := OrEmpty(up.source);
      if r >= |source| then s.(pc := RenamePart)
      else
        var n := ChunkLen(k, |source| - r);
        State(v.(part := Some(WriteAt(OrEmpty(v.part), w, source[r..r + n]))), Copy(w + n, r + n))
    case RenamePart =>
      if v.part.Some? then State(View(v.part, None), Finished(true)) else s.(pc := Failed)
    case Finished(_) => s
    case Failed => s
  }

  /** What happens next: the operation works, or it reports an error, having landed or not. */
  datatype Event = Works(k: nat) | Fails(landed: bool, k: nat)

  function Step(up: Upload, s: State, e: Event): State
  {
    if s.pc.Stopped() then s
    else match e
      case Works(k) => Next(up, s, k)
      case Fails(landed, k) => State(if landed then Next(up, s, k).view else s.view, Failed)
  }

  function Run(up: Upload, s: State, events: seq<Event>): State
  {
    if events == [] then s
    else Step(up, Run(up, s, events[..|events| - 1]), events[|events| - 1])
  }

  // ------------------------------------------------------------- what a run can leave

  predicate Oversize(up: Upload, v: View)
  {
    v.part.Some? && |v.part.value| > up.size
  }

  /** The part file a transfer resumes from: none if it is too long. */
  function UsablePart(up: Upload, v: View): Option<Bytes>
  {
    if Oversize(up, v) then None else v.part
  }

  function StartAt(up: Upload, v: View): nat
  {
    |OrEmpty(UsablePart(up, v))|
  }

  /** The part file after the source was read from the start offset up to `r`. */
  function Resumed(up: Upload, v: View, r: nat): Bytes
    requires up.source.Some? && StartAt(up, v) <= r <= |up.source.value|
  {
    OrEmpty(UsablePart(up, v)) + up.source.value[StartAt(up, v)..r]
  }

  /** The source can be opened where the transfer resumes. */
  predicate Readable(up: Upload, v: View)
  {
    up.source.Some? && StartAt(up, v) <= |up.source.value|
  }

  /** The bytes a transfer from `v` installs. */
  function Assembled(up: Upload, v: View): Bytes
  {
    if StartAt(up, v) == up.size || !Readable(up, v) then OrEmpty(UsablePart(up, v))
    else Resumed(up, v, |up.source.value|)
  }

  /** The view after a successful transfer from `v`. */
  function Settled(up: Upload, v: View): View
  {
    if Complete(up, v) then v else View(Some(Assembled(up, v)), None)
  }

  /** A transfer from `v` has what it needs to end well. */
  predicate CanFinish(up: Upload, v: View)
  {
    Complete(up, v) || if StartAt(up, v) == up.size then UsablePart(up, v).Some? else Readable(up, v)
  }

  /** The part file in the middle of a transfer that started from `v`. */
  predicate MidPart(up: Upload, v: View, part: Option<Bytes>)
  {
    || part == v.part
    || part == UsablePart(up, v)
    || (part.Some? && Readable(up, v) && StartAt(up, v) != up.size
        && |part.value| >= StartAt(up, v)
        && |part.value| <= |up.source.value|
        && part.value == Resumed(up, v, |part.value|))
  }

  /**
    Exactly the views a transfer that began at `v` can leave behind, wherever it is
    interrupted: nothing happened to the final file and the part file is in the middle,
    or the assembled bytes are in place.
   */
  predicate Between(up: Upload, v: View, w: View)
  {
    || w == v
    || (!Complete(up, v) && w.final == v.final && MidPart(up, v, w.part))
    || (!Complete(up, v) && CanFinish(up, v) && w == Settled(up, v))
  }

  /** Where the machine is, given where it began. */
  predicate At(up: Upload, v: View, s: State)
  {
    var w := s.view;
    match s.pc
    case StatFinal => w == v
    case MakeDir => w == v && !Complete(up, v)
    case StatPart => w == v && !Complete(up, v)
    case RemovePart => w == v && !Complete(up, v) && Oversize(up, v)
    case Decide(n) => Ready(up, v, w, n)
    case OpenSource(n) => Ready(up, v, w, n) && n != up.size
    case OpenPart(n) => Ready(up, v, w, n) && n != up.size && Readable(up, v)
    case Copy(p, r) =>
      && !Complete(up, v) && w.final == v.final && Readable(up, v) && StartAt(up, v) != up.size
      && p == r && StartAt(up, v) <= r <= |up.source.value|
      && w.part == Some(Resumed(up, v, r))
    case RenamePart =>
      && !Complete(up, v) && w.final == v.final
      && if StartAt(up, v) == up.size then w.part == UsablePart(up, v)
         else Readable(up, v) && w.part == Some(Assembled(up, v))
    case Finished(sent) => w == Settled(up, v) && sent == !Complete(up, v) && CanFinish(up, v)
    case Failed => Between(up, v, w)
  }

  predicate Ready(up: Upload, v: View, w: View, n: nat)
  {
    !Complete(up, v) && w == View(v.final, UsablePart(up, v)) && n == StartAt(up, v)
  }

  lemma WriteAtEnd(b: Bytes, chunk: Bytes)
    ensures WriteAt(b, |b|, chunk) == b + chunk
  {
  }

  /** Reading on extends the part file by the next bytes of the source. */
  lemma ResumedGrows(up: Upload, v: View, r: nat, n: nat)
    requires up.source.Some? && StartAt(up, v) <= r && r + n <= |up.source.value|
    ensures |Resumed(up, v, r)| == r
    ensures WriteAt(Resumed(up, v, r), r, up.source.value[r..r + n]) == Resumed(up, v, r + n)
  {
    var start, source := StartAt(up, v), up.source.value;
    WriteAtEnd(Resumed(up, v, r), source[r..r + n]);
    assert source[start..r] + source[r..r + n] == source[start..r + n];
  }

  lemma ResumedStart(up: Upload, v: View)
    requires Readable(up, v)
    ensures Resumed(up, v, StartAt(up, v)) == OrEmpty(UsablePart(up, v))
  {
  }

  lemma AtIsBetween(up: Upload, v: View, s: State)
    requires At(up, v, s)
    ensures Between(up, v, s.view)
  {
    if s.pc.Copy? { ResumedGrows(up, v, s.pc.readPos, 0); }
    if s.pc.RenamePart? && Readable(up, v) { ResumedGrows(up, v, |up.source.value|, 0); }
  }

  /** Every operation leads from a described place to a described place. */
  lemma NextKeepsAt(up: Upload, v: View, s: State, k: nat)
    requires At(up, v, s)
    ensures At(up, v, Next(up, s, k))
  {
    match s.pc
    case OpenPart(n) =>
      ResumedStart(up, v);
    case Copy(w, r) =>
      var source := up.source.value;
      if r < |source| { ResumedGrows(up, v, r, ChunkLen(k, |source| - r)); }
    case OpenSource(_) =>
      AtIsBetween(up, v, s);
    case RenamePart =>
      AtIsBetween(up, v, s);
    case _ =>
  }

  /** At every point of every run, with any faults, the machine is where `At` says. */
  lemma {:induction false} RunKeepsAt(up: Upload, v: View, events: seq<Event>)
    ensures At(up, v, Run(up, State(v, StatFinal), events))
    decreases |events|
  {
    if events != [] {
      var front, e := events[..|events| - 1], events[|events| - 1];
      RunKeepsAt(up, v, front);
      StepKeepsAt(up, v, Run(up, State(v, StatFinal), front), e);
    }
  }

  lemma StepKeepsAt(up: Upload, v: View, s: State, e: Event)
    requires At(up, v, s)
    ensures At(up, v, Step(up, s, e))
  {
    AtIsBetween(up, v, s);
    NextKeepsAt(up, v, s, e.k);
    AtIsBetween(up, v, Next(up, s, e.k));
  }

  // -------------------------------------------------------- every such view is reached

  function Copying(up: Upload, v: View, r: nat): State
    requires Readable(up, v) && StartAt(up, v) <= r <= |up.source.value|
  {
    State(View(v.final, Some(Resumed(up, v, r))), Copy(r, r))
  }

  /** Some run from `v` reaches `s`. */
  ghost predicate Reaches(up: Upload, v: View, s: State)
  {
    exists events :: Run(up, State(v, StatFinal), events) == s
  }

  lemma ReachesStart(up: Upload, v: View)
    ensures Reaches(up, v, State(v, StatFinal))
  {
    assert Run(up, State(v, StatFinal), []) == State(v, StatFinal);
  }

  /** From a reached state every step is reached. */
  lemma ReachesStep(up: Upload, v: View, s: State, e: Event)
    requires Reaches(up, v, s)
    ensures Reaches(up, v, Step(up, s, e))
  {
    var events :| Run(up, State(v, StatFinal), events) == s;
    var more := events + [e];
    assert more[..|more| - 1] == events;
    assert Run(up, State(v, StatFinal), more) == Step(up, s, e);
  }

  /** Without faults a transfer that has work to do gets to the decision where to start. */
  lemma ReachesDecide(up: Upload, v: View)
    requires !Complete(up, v)
    ensures Reaches(up, v, State(View(v.final, UsablePart(up, v)), Decide(StartAt(up, v))))
  {
    var e := Works(1);
    ReachesStart(up, v);
    ReachesStep(up, v, State(v, StatFinal), e);
    ReachesStep(up, v, State(v, MakeDir), e);
    ReachesStep(up, v, State(v, StatPart), e);
    if Oversize(up, v) { ReachesStep(up, v, State(v, RemovePart), e); }
  }

  lemma {:induction false} ReachesCopying(up: Upload, v: View, r: nat)
    requires !Complete(up, v) && Readable(up, v) && StartAt(up, v) != up.size
    requires StartAt(up, v) <= r <= |up.source.value|
    ensures Reaches(up, v, Copying(up, v, r))
    decreases r
  {
    hide Run, Reaches;
    var e, n := Works(1), StartAt(up, v);
    if r == n {
      var w := View(v.final, UsablePart(up, v));
      ReachesDecide(up, v);
      ReachesStep(up, v, State(w, Decide(n)), e);
      ReachesStep(up, v, State(w, OpenSource(n)), e);
      ReachesStep(up, v, State(w, OpenPart(n)), e);
      ResumedStart(up, v);
    } else {
      ReachesCopying(up, v, r - 1);
      ReachesStep(up, v, Copying(up, v, r - 1), e);
      ResumedGrows(up, v, r - 1, 1);
    }
  }

  lemma ReachesSettled(up: Upload, v: View)
    requires CanFinish(up, v)
    ensures Reaches(up, v, State(Settled(up, v), Finished(!Complete(up, v))))
  {
    var e := Works(1);
    if Complete(up, v) {
      ReachesStart(up, v);
      ReachesStep(up, v, State(v, StatFinal), e);
    } else if StartAt(up, v) == up.size {
      var w := View(v.final, UsablePart(up, v));
      ReachesDecide(up, v);
      ReachesStep(up, v, State(w, Decide(up.size)), e);
      ReachesStep(up, v, State(w, RenamePart), e);
    } else {
      var n := |up.source.value|;
      ReachesCopying(up, v, n);
      ReachesStep(up, v, Copying(up, v, n), e);
      ReachesStep(up, v, Copying(up, v, n).(pc := RenamePart), e);
    }
  }

  ghost predicate LeavesBehind(up: Upload, v: View, w: View)
  {
    exists events :: Run(up, State(v, StatFinal), events).view == w
  }

  lemma ReachesLeaves(up: Upload, v: View, s: State)
    requires Reaches(up, v, s)
    ensures LeavesBehind(up, v, s.view)
  {
    var events :| Run(up, State(v, StatFinal), events) == s;
    assert Run(up, State(v, StatFinal), events).view == s.view;
  }

  /** The views an interrupted transfer can leave behind are exactly the ones in between. */
  lemma CrashStatesExact(up: Upload, v: View, w: View)
    ensures LeavesBehind(up, v, w) <==> Between(up, v, w)
  {
    if LeavesBehind(up, v, w) {
      var events :| Run(up, State(v, StatFinal), events).view == w;
      RunKeepsAt(up, v, events);
      AtIsBetween(up, v, Run(up, State(v, StatFinal), events));
    }
    if Between(up, v, w) {
      if w == v {
        ReachesStart(up, v);
        ReachesLeaves(up, v, State(v, StatFinal));
      } else if CanFinish(up, v) && w == Settled(up, v) {
        ReachesSettled(up, v);
        ReachesLeaves(up, v, State(w, Finished(!Complete(up, v))));
      } else if w.part == UsablePart(up, v) {
        ReachesDecide(up, v);
        ReachesLeaves(up, v, State(w, Decide(StartAt(up, v))));
      } else {
        var r := |w.part.value|;
        ReachesCopying(up, v, r);
        ReachesLeaves(up, v, Copying(up, v, r));
      }
    }
  }

  // ------------------------------------------------------------------ outcome of a run

  predicate Faultless(events: seq<Event>)
  {
    forall i :: 0 <= i < |events| ==> events[i].Works?
  }

  /** An operation fails on its own only if the transfer never could have succeeded. */
  lemma FailsOnlyIfStuck(up: Upload, v: View, s: State, k: nat)
    requires At(up, v, s) && !s.pc.Stopped() && Next(up, s, k).pc.Failed?
    ensures !CanFinish(up, v)
  {
  }

  lemma {:induction false} FaultlessFailure(up: Upload, v: View, events: seq<Event>)
    requires Faultless(events)
    ensures Run(up, State(v, StatFinal), events).pc.Failed? ==> !CanFinish(up, v)
    decreases |events|
  {
    if events != [] {
      var front, e := events[..|events| - 1], events[|events| - 1];
      RunKeepsAt(up, v, front);
      FaultlessFailure(up, v, front);
      var s := Run(up, State(v, StatFinal), front);
      if !s.pc.Stopped() && Next(up, s, e.k).pc.Failed? { FailsOnlyIfStuck(up, v, s, e.k); }
    }
  }

  /** A blob of positive size whose source has it all can always be transferred. */
  lemma PositiveCanFinish(up: Upload, v: View)
    requires up.size > 0 && up.source.Some? && |up.source.value| == up.size
    ensures CanFinish(up, v)
  {
  }

  /**
    A transfer without faults that ran to its end succeeded exactly if it could: the final
    file was complete, or the part file was, or the source can be read from where the part
    ends.  A blob of size 0 needs an empty file to be there already.
   */
  lemma FaultlessOutcome(up: Upload, v: View, events: seq<Event>)
    requires Faultless(events) && Run(up, State(v, StatFinal), events).pc.Stopped()
    ensures var s := Run(up, State(v, StatFinal), events);
      && (s.pc.Finished? <==> CanFinish(up, v))
      && (s.pc.Finished? ==> s == State(Settled(up, v), Finished(!Complete(up, v))))
    ensures up.size == 0 ==>
      (CanFinish(up, v) <==> (v.final == Some([]) || v.part == Some([])))
  {
    RunKeepsAt(up, v, events);
    FaultlessFailure(up, v, events);
  }

  /** How many more operations the machine may do. */
  function Rank(up: Upload, pc: Pc): nat
  {
    var all := |OrEmpty(up.source)|;
    match pc
    case StatFinal => all + 11
    case MakeDir => all + 10
    case StatPart => all + 9
    case RemovePart => all + 8
    case Decide(_) => all + 7
    case OpenSource(_) => all + 6
    case OpenPart(_) => all + 5
    case Copy(_, r) => (if r <= all then all - r else 0) + 4
    case RenamePart => 3
    case Finished(_) => 2
    case Failed => 0
  }

  /** Every step of a running transfer uses some of its rank up, so every run stops. */
  lemma StepRanks(up: Upload, s: State, e: Event)
    requires !s.pc.Stopped()
    ensures Rank(up, Step(up, s, e).pc) < Rank(up, s.pc)
  {
  }

  // ------------------------------------------------------------------------ safety

  /** A part file worth keeping, or too long and about to be removed. */
  predicate GoodPart(truth: Bytes, part: Option<Bytes>)
  {
    part.Some? ==> part.value <= truth || |part.value| > |truth|
  }

  /** The announced size is the content's, and the source serves nothing but the content. */
  predicate Honest(up: Upload, truth: Bytes)
  {
    up.size == |truth| && (up.source.Some? ==> up.source.value == truth)
  }

  /** The final file is untouched or holds the content; the part file is good. */
  predicate Safe(truth: Bytes, v: View, w: View)
  {
    && (w.final == v.final || w.final == Some(truth))
    && GoodPart(truth, w.part)
  }

  lemma ResumedIsPrefix(up: Upload, v: View, truth: Bytes, r: nat)
    requires Honest(up, truth) && GoodPart(truth, v.part) && Readable(up, v)
    requires StartAt(up, v) <= r <= |truth|
    ensures Resumed(up, v, r) == truth[..r]
  {
  }

  lemma BetweenIsSafe(up: Upload, truth: Bytes, v: View, w: View)
    requires Honest(up, truth) && GoodPart(truth, v.part) && Between(up, v, w)
    ensures Safe(truth, v, w)
  {
    if w == v {
    } else if CanFinish(up, v) && w == Settled(up, v) {
      assert truth[..|truth|] == truth;
      if StartAt(up, v) != up.size {
        ResumedIsPrefix(up, v, truth, |truth|);
      } else if !Complete(up, v) {
        var p := UsablePart(up, v).value;
        assert p == truth[..|p|];
      }
    } else if w.part == UsablePart(up, v) {
    } else {
      ResumedIsPrefix(up, v, truth, |w.part.value|);
    }
  }

  ghost predicate AlwaysSafe(up: Upload, truth: Bytes)
  {
    forall v: View, events: seq<Event> :: GoodPart(truth, v.part) ==>
      Safe(truth, v, Run(up, State(v, StatFinal), events).view)
  }

  /**
    With a source that serves the content, a transfer is safe at every point of every run
    exactly if the announced size is the length of the content.  In particular a descriptor
    whose unknown size reads as 0 can install an empty file.
   */
  lemma SafeIffSizeHonest(up: Upload, truth: Bytes)
    requires up.source == Some(truth)
    ensures AlwaysSafe(up, truth) <==> up.size == |truth|
  {
    if up.size == |truth| {
      forall v: View, events: seq<Event> | GoodPart(truth, v.part)
        ensures Safe(truth, v, Run(up, State(v, StatFinal), events).view)
      {
        RunKeepsAt(up, v, events);
        AtIsBetween(up, v, Run(up, State(v, StatFinal), events));
        BetweenIsSafe(up, truth, v, Run(up, State(v, StatFinal), events).view);
      }
    } else {
      var part := if up.size < |truth| then truth[..up.size] else seq(up.size, _ => 0);
      var v := View(None, Some(part));
      CrashStatesExact(up, v, Settled(up, v));
      var events :| Run(up, State(v, StatFinal), events).view == Settled(up, v);
      assert !Safe(truth, v, Run(up, State(v, StatFinal), events).view);
    }
  }

  // ------------------------------------------------------------------ resume accounting

  /** The bytes of the blob already at the destination. */
  function Landed(up: Upload, v: View): nat
  {
    if Complete(up, v) then up.size else StartAt(up, v)
  }

  /** The bytes one step adds to the part file. */
  function AddedBy(up: Upload, s: State, e: Event): int
  {
    if s.pc.Copy? then |OrEmpty(Step(up, s, e).view.part)| - |OrEmpty(s.view.part)| else 0
  }

  function Added(up: Upload, s: State, events: seq<Event>): int
  {
    if events == [] then 0
    else
      var front := events[..|events| - 1];
      Added(up, s, front) + AddedBy(up, Run(up, s, front), events[|events| - 1])
  }

  /** Attempt after attempt, each from what the one before left. */
  function Retry(up: Upload, v: View, attempts: seq<seq<Event>>): View
  {
    if attempts == [] then v
    else Run(up, State(Retry(up, v, attempts[..|attempts| - 1]), StatFinal), attempts[|attempts| - 1]).view
  }

  function AddedInAll(up: Upload, v: View, attempts: seq<seq<Event>>): int
  {
    if attempts == [] then 0
    else
      var front := attempts[..|attempts| - 1];
      AddedInAll(up, v, front) + Added(up, State(Retry(up, v, front), StatFinal), attempts[|attempts| - 1])
  }

  predicate SizeMatchesSource(up: Upload)
  {
    up.source.Some? ==> |up.source.value| == up.size
  }

  lemma CopyAccounts(up: Upload, v: View, s: State, k: nat)
    requires SizeMatchesSource(up) && At(up, v, s) && s.pc.Copy?
    ensures var w := Next(up, s, k).view;
      0 <= |OrEmpty(w.part)| - |OrEmpty(s.view.part)| == Landed(up, w) - Landed(up, s.view)
  {
    hide WriteAt;
    var r := s.pc.readPos;
    ResumedGrows(up, v, r, 0);
    if r < up.size { ResumedGrows(up, v, r, ChunkLen(k, up.size - r)); }
  }

  lemma OthersAddNothing(up: Upload, v: View, s: State, k: nat)
    requires SizeMatchesSource(up) && At(up, v, s) && !s.pc.Copy?
    ensures Landed(up, Next(up, s, k).view) == Landed(up, s.view)
  {
    hide Between, WriteAt;
    if s.pc.RenamePart? && Readable(up, v) { ResumedGrows(up, v, |up.source.value|, 0); }
  }

  /** What a step adds to the part file is what it brings closer to the whole blob. */
  lemma StepAccounts(up: Upload, v: View, s: State, e: Event)
    requires SizeMatchesSource(up) && At(up, v, s)
    ensures 0 <= AddedBy(up, s, e) == Landed(up, Step(up, s, e).view) - Landed(up, s.view)
  {
    hide At, Landed, Next;
    if s.pc.Copy? { CopyAccounts(up, v, s, e.k); } else { OthersAddNothing(up, v, s, e.k); }
  }

  lemma {:induction false} RunAccounts(up: Upload, v: View, events: seq<Event>)
    requires SizeMatchesSource(up)
    ensures var s := State(v, StatFinal);
      0 <= Added(up, s, events) == Landed(up, Run(up, s, events).view) - Landed(up, v)
    decreases |events|
  {
    if events != [] {
      var front := events[..|events| - 1];
      RunAccounts(up, v, front);
      RunKeepsAt(up, v, front);
      StepAccounts(up, v, Run(up, State(v, StatFinal), front), events[|events| - 1]);
    }
  }

  /**
    Over any number of interrupted attempts the bytes written to the part file are exactly
    the bytes by which the blob got closer to complete; nothing is sent twice.
   */
  lemma {:induction false} ResumeAccounting(up: Upload, v: View, attempts: seq<seq<Event>>)
    requires SizeMatchesSource(up)
    ensures 0 <= AddedInAll(up, v, attempts) == Landed(up, Retry(up, v, attempts)) - Landed(up, v)
    decreases |attempts|
  {
    if attempts != [] {
      var front, n := attempts[..|attempts| - 1], |attempts| - 1;
      ResumeAccounting(up, v, front);
      RunAccounts(up, Retry(up, v, front), attempts[n]);
    }
  }

  /** Once an attempt succeeds, all attempts together wrote what was missing at the start. */
  lemma FinishedAccounting(up: Upload, v: View, attempts: seq<seq<Event>>, last: seq<Event>)
    requires SizeMatchesSource(up)
    requires Run(up, State(Retry(up, v, attempts), StatFinal), last).pc.Finished?
    ensures AddedInAll(up, v, attempts + [last]) == up.size - Landed(up, v)
    ensures var w := Retry(up, v, attempts + [last]);
      && Complete(up, w)
      && (w.part.Some? ==> Complete(up, Retry(up, v, attempts)))
  {
    var all := attempts + [last];
    assert all[..|all| - 1] == attempts;
    ResumeAccounting(up, v, all);
    var before := Retry(up, v, attempts);
    RunKeepsAt(up, before, last);
    if !Complete(up, before) && Readable(up, before) { ResumedGrows(up, before, |up.source.value|, 0); }
  }

  // ----------------------------------------------------------------- calls of the source

  /** How often a run opens its source: each step at `OpenSource` is one call, failing or not. */
  function Opens(up: Upload, s: State, events: seq<Event>): nat
  {
    if events == [] then 0
    else
      var front := events[..|events| - 1];
      Opens(up, s, front) + if Run(up, s, front).pc.OpenSource? then 1 else 0
  }

  /** How often the source was opened, by where the machine is. */
  predicate OpensFit(up: Upload, v: View, pc: Pc, n: nat)
  {
    match pc
    case OpenPart(_) => n == 1
    case Copy(_, _) => n == 1
    case RenamePart => n == if StartAt(up, v) == up.size then 0 else 1
    case Finished(sent) => n == if sent && StartAt(up, v) != up.size then 1 else 0
    case Failed => n <= 1
    case _ => n == 0
  }

  lemma {:induction false} RunOpensFit(up: Upload, v: View, events: seq<Event>)
    ensures OpensFit(up, v, Run(up, State(v, StatFinal), events).pc, Opens(up, State(v, StatFinal), events))
    decreases |events|
  {
    hide Between, MidPart;
    if events != [] {
      var front := events[..|events| - 1];
      RunOpensFit(up, v, front);
      RunKeepsAt(up, v, front);
    }
  }

  /**
    A blob that counts as sent had its source opened exactly once, or not at all: not at all
    exactly if the part file was already as long as the blob.  A blob that was complete had
    it never opened.
   */
  lemma SentOpensSource(up: Upload, v: View, events: seq<Event>)
    requires Run(up, State(v, StatFinal), events).pc.Finished?
    ensures var sent, n := Run(up, State(v, StatFinal), events).pc.sent, Opens(up, State(v, StatFinal), events);
      && n <= 1 && (!sent ==> n == 0)
      && (sent ==> (n == 0 <==> StartAt(up, v) == up.size))
  {
    RunOpensFit(up, v, events);
  }

  // ------------------------------------------------------------------------ spelled out

  /** How a transfer without faults ends, and what it leaves, case by case. */
  function Ending(size: nat, source: Option<Bytes>, v: View): State
  {
    var kept := if v.part.Some? && |v.part.value| <= size then v.part else None;
    var from := if kept.Some? then |kept.value| else 0;
    if v.final.Some? && |v.final.value| == size then State(v, Finished(false))
    else if kept.Some? && |kept.value| == size then State(View(kept, None), Finished(true))
    else if size > 0 && source.Some? && from <= |source.value| then
      State(View(Some((if kept.Some? then kept.value else []) + source.value[from..]), None), Finished(true))
    else State(View(v.final, kept), Failed)
  }

  /**
    Every fault-free transfer that ran to its end ended so: a final file of the right
    length is left alone; otherwise a part file of that length becomes the final file, or
    a shorter one is completed from the source first, one too long being removed.
   */
  lemma EndsAs(up: Upload, v: View, events: seq<Event>)
    requires Faultless(events) && Run(up, State(v, StatFinal), events).pc.Stopped()
    ensures Run(up, State(v, StatFinal), events) == Ending(up.size, up.source, v)
  {
    hide Between;
    RunKeepsAt(up, v, events);
    FaultlessOutcome(up, v, events);
    if Run(up, State(v, StatFinal), events).pc.Failed? {
      StuckWhere(up, v, events);
    } else if !Complete(up, v) && StartAt(up, v) != up.size {
      var source := up.source.value;
      assert source[StartAt(up, v)..] == source[StartAt(up, v)..|source|];
    }
  }

  /** A fault-free transfer that fails has at most removed a part file too long. */
  lemma {:induction false} StuckWhere(up: Upload, v: View, events: seq<Event>)
    requires Faultless(events) && Run(up, State(v, StatFinal), events).pc.Failed?
    ensures Run(up, State(v, StatFinal), events).view == View(v.final, UsablePart(up, v))
    decreases |events|
  {
    var front, e := events[..|events| - 1], events[|events| - 1];
    var s := Run(up, State(v, StatFinal), front);
    RunKeepsAt(up, v, front);
    if s.pc.Failed? { StuckWhere(up, v, front); }
  }
}
