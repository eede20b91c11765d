/** From a closure of descriptors and a have-set to the list of uploads. */
module Plan {
  import opened Base
  import opened SlashPath
  import opened Digests
  import opened Transfer
  import opened Workers
  import opened Vfs
  import opened OciDirs
  import opened OciImage
  import opened Inventory

  // -------------------------------------------------------------- digests and sizes

  method DescriptorDigestSet(descs: seq<Descriptor>) returns (out: set<Digest>)
    ensures out == DigestSet(descs)
  {
    out := {};
    var i := 0;
    while i < |descs|
      invariant 0 <= i <= |descs|
      invariant out == set j | 0 <= j < i :: descs[j].digest
    {
      out := out + {descs[i].digest};
      i := i + 1;
    }
  }

  /** The size the last descriptor of `d` with a positive size announces, else 0. */
  function SizeOf(descs: seq<Descriptor>, d: Digest): nat
  {
    if descs == [] then 0
    else
      var last := descs[|descs| - 1];
      if last.digest == d && last.size > 0 then last.size else SizeOf(descs[..|descs| - 1], d)
  }

  function SizeIn(sizes: map<Digest, nat>, d: Digest): nat
  {
    if d in sizes then sizes[d] else 0
  }

  method DescriptorSizes(descs: seq<Descriptor>) returns (out: map<Digest, nat>)
    ensures forall d :: SizeIn(out, d) == SizeOf(descs, d)
  {
    out := map[];
    var i := 0;
    while i < |descs|
      invariant 0 <= i <= |descs|
      invariant forall d :: SizeIn(out, d) == SizeOf(descs[..i], d)
    {
      ghost var front := descs[..i + 1];
      assert front[..|front| - 1] == descs[..i];
      if descs[i].size > 0 {
        out := out[descs[i].digest := descs[i].size];
      }
      i := i + 1;
    }
    assert descs[..|descs|] == descs;
  }

  // ------------------------------------------------------------------------- the diff

  /** Pinned digests always, others only when not had. */
  method MapKeyDiff(need: set<Digest>, have: set<Digest>, pinned: set<Digest>) returns (out: set<Digest>)
    ensures out == pinned + (need - have)
  {
    out := {};
    var left := pinned;
    while left != {}
      invariant left <= pinned && out == pinned - left
      decreases left
    {
      var d :| d in left;
      out := out + {d};
      left := left - {d};
    }
    left := need;
    while left != {}
      invariant left <= need && out == pinned + ((need - left) - have)
      decreases left
    {
      var d :| d in left;
      left := left - {d};
      if d !in out && d !in have {
        out := out + {d};
      }
    }
  }

  // ------------------------------------------------------------------------- sorting

  predicate LexLeq(a: string, b: string)
  {
    a == "" || (b != "" && (a[0] < b[0] || (a[0] == b[0] && LexLeq(a[1..], b[1..]))))
  }

  lemma {:induction false} LexTotal(a: string, b: string)
    ensures LexLeq(a, b) || LexLeq(b, a)
  {
    if a != "" && b != "" { LexTotal(a[1..], b[1..]); }
  }

  lemma {:induction false} LexTransitive(a: string, b: string, c: string)
    requires LexLeq(a, b) && LexLeq(b, c)
    ensures LexLeq(a, c)
  {
    if a != "" && a[0] == b[0] == c[0] { LexTransitive(a[1..], b[1..], c[1..]); }
  }

  lemma {:induction false} LexAntisymmetric(a: string, b: string)
    requires LexLeq(a, b) && LexLeq(b, a)
    ensures a == b
  {
    if a != "" {
      LexAntisymmetric(a[1..], b[1..]);
      assert a == [a[0]] + a[1..] && b == [b[0]] + b[1..];
    }
  }

  method LeastOf(ds: set<Digest>) returns (m: Digest)
    requires ds != {}
    ensures m in ds && forall d :: d in ds ==> LexLeq(m, d)
  {
    m :| m in ds;
    LexTotal(m, m);
    var left := ds - {m};
    while left != {}
      invariant left <= ds && m in ds
      invariant forall d :: d in ds - left ==> LexLeq(m, d)
      decreases left
    {
      var d :| d in left;
      LexTotal(m, d);
      LexTotal(d, d);
      if !LexLeq(m, d) {
        forall e | e in ds - left ensures LexLeq(d, e) { LexTransitive(d, m, e); }
        m := d;
      }
      left := left - {d};
    }
  }

  predicate Sorted(ds: seq<Digest>)
  {
    forall i, j :: 0 <= i < j < |ds| ==> LexLeq(ds[i], ds[j])
  }

  /** The digests of a set in lexical order, each once. */
  method SortedDigests(ds: set<Digest>) returns (out: seq<Digest>)
    ensures NoneTwice(out) && Sorted(out)
    ensures forall d :: d in out <==> d in ds
  {
    out := [];
    var left := ds;
    while left != {}
      invariant left <= ds && NoneTwice(out) && Sorted(out)
      invariant forall d :: d in out <==> d in ds - left
      invariant forall i, d :: 0 <= i < |out| && d in left ==> LexLeq(out[i], d)
      decreases left
    {
      var m := LeastOf(left);
      assert m !in out;
      out := out + [m];
      left := left - {m};
    }
  }

  /** The order is determined: transfers of the same plan are always listed alike. */
  lemma {:induction false} SortedUnique(xs: seq<Digest>, ys: seq<Digest>)
    requires NoneTwice(xs) && NoneTwice(ys) && Sorted(xs) && Sorted(ys)
    requires forall d :: d in xs <==> d in ys
    ensures xs == ys
    decreases |xs|
  {
    if xs == [] {
      if ys != [] { SomeMember(ys); }
    } else {
      assert xs[0] in ys && ys != [];
      var i :| 0 <= i < |ys| && ys[i] == xs[0];
      assert ys[0] in xs;
      var j :| 0 <= j < |xs| && xs[j] == ys[0];
      LexTotal(xs[0], xs[0]);
      LexAntisymmetric(xs[0], ys[0]);
      forall d ensures d in xs[1..] <==> d in ys[1..] {
        TailMembers(xs, d);
        TailMembers(ys, d);
      }
      SortedUnique(xs[1..], ys[1..]);
      assert xs == [xs[0]] + xs[1..] && ys == [ys[0]] + ys[1..];
    }
  }

  lemma SomeMember(xs: seq<Digest>)
    requires xs != []
    ensures exists d :: d in xs
  {
    assert xs[0] in xs;
  }

  lemma TailMembers(xs: seq<Digest>, d: Digest)
    requires xs != [] && NoneTwice(xs)
    ensures d in xs[1..] <==> d in xs && d != xs[0]
  {
    assert xs == [xs[0]] + xs[1..];
    if d in xs[1..] {
      var i :| 0 <= i < |xs[1..]| && xs[1..][i] == d;
      assert xs[i + 1] == d;
    }
  }

  lemma {:induction false} LeastExists(ds: set<Digest>) returns (m: Digest)
    requires ds != {}
    ensures m in ds && forall d :: d in ds ==> LexLeq(m, d)
    decreases |ds|
  {
    m :| m in ds;
    LexTotal(m, m);
    var rest := ds - {m};
    if rest != {} {
      var n := LeastExists(rest);
      LexTotal(m, n);
      if LexLeq(m, n) {
        forall d | d in rest ensures LexLeq(m, d) { LexTransitive(m, n, d); }
      } else {
        m := n;
      }
    }
  }

  /** Every set of digests has its sorted list. */
  lemma {:induction false} SortedExists(ds: set<Digest>) returns (out: seq<Digest>)
    ensures NoneTwice(out) && Sorted(out)
    ensures forall d :: d in out <==> d in ds
    decreases |ds|
  {
    if ds == {} { return []; }
    var m := LeastExists(ds);
    var rest := SortedExists(ds - {m});
    out := [m] + rest;
    forall i, j | 0 <= i < j < |out| ensures LexLeq(out[i], out[j]) && out[i] != out[j] {
      assert out[j] == rest[j - 1] && rest[j - 1] in ds - {m};
      if i > 0 { assert out[i] == rest[i - 1]; }
    }
  }

  // ------------------------------------------------------------------------- uploads

  /** Each listed digest with its size and the bytes its blob has at the source. */
  function BlobIter(sorted: seq<Digest>, sizes: map<Digest, nat>, source: Files): (ups: seq<Upload>)
    ensures |ups| == |sorted|
  {
    seq(|sorted|, i requires 0 <= i < |sorted| =>
      Upload(sorted[i], SizeIn(sizes, sorted[i]), Lookup(source, FinalKey(sorted[i]))))
  }

  /** Every descriptor has a well-formed digest and announces the length of its content. */
  ghost predicate HonestDescriptors(truth: Truth, descs: seq<Descriptor>)
  {
    forall i :: 0 <= i < |descs| ==>
      ValidDigest(descs[i].digest) && descs[i].size == |truth(descs[i].digest)|
  }

  lemma DigestSetMore(descs: seq<Descriptor>)
    requires descs != []
    ensures var n := |descs| - 1;
      DigestSet(descs) == DigestSet(descs[..n]) + {descs[n].digest}
  {
    var n := |descs| - 1;
    var front := descs[..n];
    forall d | d in DigestSet(front) ensures d in DigestSet(descs) {
      var i :| 0 <= i < n && front[i].digest == d;
      assert descs[i].digest == d;
    }
    forall d | d in DigestSet(descs) && d != descs[n].digest ensures d in DigestSet(front) {
      var i :| 0 <= i < |descs| && descs[i].digest == d;
      assert front[i].digest == d;
    }
  }

  lemma {:induction false} HonestSize(truth: Truth, descs: seq<Descriptor>, d: Digest)
    requires HonestDescriptors(truth, descs)
    ensures SizeOf(descs, d) == if d in DigestSet(descs) then |truth(d)| else 0
    decreases |descs|
  {
    hide DigestSet;
    if descs == [] {
      NoDigests();
    } else {
      HonestSize(truth, descs[..|descs| - 1], d);
      DigestSetMore(descs);
    }
  }

  lemma NoDigests()
    ensures DigestSet([]) == {}
  {
  }

  /** Uploads of a plan over an honest closure are distinct, well-formed and honest. */
  lemma BlobIterHonest(truth: Truth, descs: seq<Descriptor>, sorted: seq<Digest>, sizes: map<Digest, nat>, source: Files)
    requires HonestDescriptors(truth, descs) && SoundPool(truth, source)
    requires NoneTwice(sorted) && forall d :: d in sorted ==> d in DigestSet(descs)
    requires forall d :: SizeIn(sizes, d) == SizeOf(descs, d)
    ensures var ups := BlobIter(sorted, sizes, source);
      Distinct(ups) && AllValid(ups) && HonestUps(truth, ups)
  {
    var ups := BlobIter(sorted, sizes, source);
    forall i | 0 <= i < |ups| ensures ValidDigest(ups[i].digest) && Honest(ups[i], truth(ups[i].digest)) {
      var d := sorted[i];
      assert d in sorted;
      var j :| 0 <= j < |descs| && descs[j].digest == d;
      HonestSize(truth, descs, d);
    }
  }

  // ------------------------------------------------------------------------ accounting

  /** The bytes of the contents of a set of digests. */
  ghost function SumSizes(truth: Truth, ds: set<Digest>): nat
  {
    if ds == {} then 0
    else
      var d :| d in ds;
      |truth(d)| + SumSizes(truth, ds - {d})
  }

  lemma {:induction false} SumSizesRemove(truth: Truth, ds: set<Digest>, e: Digest)
    requires e in ds
    ensures SumSizes(truth, ds) == |truth(e)| + SumSizes(truth, ds - {e})
    decreases |ds|
  {
    var d :| d in ds && SumSizes(truth, ds) == |truth(d)| + SumSizes(truth, ds - {d});
    if d != e {
      SumSizesRemove(truth, ds - {d}, e);
      SumSizesRemove(truth, ds - {e}, d);
      assert ds - {d} - {e} == ds - {e} - {d};
    }
  }

  lemma {:induction false} SumSizesUnion(truth: Truth, a: set<Digest>, b: set<Digest>)
    requires a !! b
    ensures SumSizes(truth, a + b) == SumSizes(truth, a) + SumSizes(truth, b)
    decreases |a|
  {
    if a == {} {
      assert a + b == b;
    } else {
      var d :| d in a;
      SumSizesRemove(truth, a, d);
      SumSizesRemove(truth, a + b, d);
      assert a + b - {d} == (a - {d}) + b;
      SumSizesUnion(truth, a - {d}, b);
    }
  }

  lemma SumSizesSubset(truth: Truth, a: set<Digest>, b: set<Digest>)
    requires a <= b
    ensures SumSizes(truth, a) <= SumSizes(truth, b)
  {
    SumSizesUnion(truth, a, b - a);
    assert a + (b - a) == b;
  }

  /** The digests of the uploads that are not complete yet. */
  function Missing(files: Files, ups: seq<Upload>): set<Digest>
  {
    set i | 0 <= i < |ups| && !Complete(ups[i], ViewOf(files, ups[i].digest)) :: ups[i].digest
  }

  lemma TallyUnfold(files: Files, ups: seq<Upload>)
    requires Distinct(ups) && AllValid(ups) && ups != []
    ensures var n := |ups| - 1;
      Sequential(files, ups).1 == Sequential(files, ups[..n]).1.Plus(
        One(ups[n], !Complete(ups[n], ViewOf(files, ups[n].digest))))
  {
    hide Settled, Complete, ViewOf, WithView, SettledFrom;
    var n := |ups| - 1;
    DistinctOthers(ups, n);
    SequentialSettles(files, ups[..n]);
    ForeignView(files, ups[..n], Sequential(files, ups[..n]).0, ups[n].digest);
  }

  /** What a job counts: as sent the uploads that were not complete, as reused the others. */
  lemma {:induction false} SequentialCounts(truth: Truth, files: Files, ups: seq<Upload>)
    requires Distinct(ups) && AllValid(ups) && HonestUps(truth, ups)
    ensures var t, sent := Sequential(files, ups).1, Missing(files, ups);
      && t.sent == |sent| && t.sent + t.reused == |ups|
      && t.bytesSent == SumSizes(truth, sent)
    decreases |ups|
  {
    hide Sequential, Complete, ViewOf, SumSizes, Missing;
    if ups == [] {
      NothingToSend(truth, files);
    } else {
      var n := |ups| - 1;
      var sent, d := Missing(files, ups[..n]), ups[n].digest;
      DistinctOthers(ups, n);
      SequentialCounts(truth, files, ups[..n]);
      TallyUnfold(files, ups);
      MissingMore(files, ups);
      MissingIsListed(files, ups[..n], d);
      assert sent + {d} - {d} == sent;
      SumSizesRemove(truth, sent + {d}, d);
    }
  }

  lemma NothingToSend(truth: Truth, files: Files)
    ensures Sequential(files, []).1 == Tally(0, 0, 0) && Missing(files, []) == {} && SumSizes(truth, {}) == 0
  {
  }

  lemma MissingIsListed(files: Files, ups: seq<Upload>, d: Digest)
    requires forall i :: 0 <= i < |ups| ==> ups[i].digest != d
    ensures d !in Missing(files, ups)
  {
  }

  lemma MissingMore(files: Files, ups: seq<Upload>)
    requires ups != []
    ensures var n := |ups| - 1;
      Missing(files, ups) == Missing(files, ups[..n]) +
        if Complete(ups[n], ViewOf(files, ups[n].digest)) then {} else {ups[n].digest}
  {
    var n := |ups| - 1;
    var front := ups[..n];
    assert forall i :: 0 <= i < n ==> front[i] == ups[i];
    forall d | d in Missing(files, front) ensures d in Missing(files, ups) {
      var i :| 0 <= i < n && !Complete(front[i], ViewOf(files, front[i].digest)) && front[i].digest == d;
      assert ups[i] == front[i];
    }
  }

  function Listed(ups: seq<Upload>): set<Digest>
  {
    set i | 0 <= i < |ups| :: ups[i].digest
  }

  lemma MissingAll(files: Files, ups: seq<Upload>)
    requires Distinct(ups)
    ensures Missing(files, ups) <= Listed(ups)
    ensures Missing(files, ups) == Listed(ups) <==>
      forall i :: 0 <= i < |ups| ==> !Complete(ups[i], ViewOf(files, ups[i].digest))
  {
    hide Complete, ViewOf;
    if Missing(files, ups) == Listed(ups) {
      forall i | 0 <= i < |ups| ensures !Complete(ups[i], ViewOf(files, ups[i].digest)) {
        assert ups[i].digest in Listed(ups);
        var j :| 0 <= j < |ups| && !Complete(ups[j], ViewOf(files, ups[j].digest)) && ups[j].digest == ups[i].digest;
        assert i == j;
      }
    }
  }

  /**
    A dry run reports every planned upload as sent.  The real run sends at most that many
    blobs and bytes, and as many blobs exactly if none of them is complete already.
   */
  lemma PlanBoundsRun(truth: Truth, files: Files, ups: seq<Upload>)
    requires Distinct(ups) && AllValid(ups) && HonestUps(truth, ups)
    ensures var t := Sequential(files, ups).1;
      && t.sent <= |ups| && t.bytesSent <= SumSizes(truth, Listed(ups))
      && (t.sent == |ups| <==>
           forall i :: 0 <= i < |ups| ==> !Complete(ups[i], ViewOf(files, ups[i].digest)))
  {
    hide Sequential, Complete, ViewOf, SumSizes, Missing, Listed;
    SequentialCounts(truth, files, ups);
    MissingAll(files, ups);
    SumSizesSubset(truth, Missing(files, ups), Listed(ups));
    DistinctCount(ups);
    if Sequential(files, ups).1.sent == |ups| {
      SameSizeSubset(Missing(files, ups), Listed(ups));
    }
  }

  lemma ListedMore(ups: seq<Upload>)
    requires ups != []
    ensures var n := |ups| - 1; Listed(ups) == Listed(ups[..n]) + {ups[n].digest}
  {
    var n := |ups| - 1;
    var front := ups[..n];
    forall d | d in Listed(front) ensures d in Listed(ups) {
      var i :| 0 <= i < n && front[i].digest == d;
      assert ups[i].digest == d;
    }
    forall d | d in Listed(ups) && d != ups[n].digest ensures d in Listed(front) {
      var i :| 0 <= i < |ups| && ups[i].digest == d;
      assert front[i].digest == d;
    }
  }

  lemma {:induction false} DistinctCount(ups: seq<Upload>)
    requires Distinct(ups)
    ensures |Listed(ups)| == |ups|
    decreases |ups|
  {
    if ups != [] {
      var n := |ups| - 1;
      DistinctCount(ups[..n]);
      DistinctOthers(ups, n);
      ListedMore(ups);
      assert ups[n].digest !in Listed(ups[..n]);
    }
  }

  lemma SameSizeSubset(a: set<Digest>, b: set<Digest>)
    requires a <= b && |a| == |b|
    ensures a == b
  {
    assert |b - a| == |b| - |a|;
  }

  // ------------------------------------------------------------------------ spelled out

  /** The size of a digest is what the last of its descriptors with a positive size announces. */
  lemma {:induction false} SizeOfLast(descs: seq<Descriptor>, d: Digest, i: nat)
    requires i < |descs| && descs[i].digest == d && descs[i].size > 0
    requires forall j :: i < j < |descs| && descs[j].digest == d ==> descs[j].size <= 0
    ensures SizeOf(descs, d) == descs[i].size
    decreases |descs|
  {
    if i < |descs| - 1 { SizeOfLast(descs[..|descs| - 1], d, i); }
  }

  /** Without such a descriptor it is 0. */
  lemma {:induction false} SizeOfNone(descs: seq<Descriptor>, d: Digest)
    requires forall j :: 0 <= j < |descs| && descs[j].digest == d ==> descs[j].size <= 0
    ensures SizeOf(descs, d) == 0
    decreases |descs|
  {
    if descs != [] { SizeOfNone(descs[..|descs| - 1], d); }
  }

  /** Lexical order: equal up to where one ends, or up to a character that is smaller. */
  lemma {:induction false} LexIs(a: string, b: string)
    ensures LexLeq(a, b) <==> a <= b || exists n :: 0 <= n < |a| && n < |b| && a[..n] == b[..n] && a[n] < b[n]
    decreases |a|
  {
    if a != "" && b != "" {
      LexIs(a[1..], b[1..]);
      if a[0] == b[0] && LexLeq(a, b) && !(a <= b) {
        var n :| 0 <= n < |a[1..]| && n < |b[1..]| && a[1..][..n] == b[1..][..n] && a[1..][n] < b[1..][n];
        assert a[..n + 1] == [a[0]] + a[1..][..n] && b[..n + 1] == [b[0]] + b[1..][..n];
        assert a[n + 1] < b[n + 1];
      }
      if a[0] < b[0] { assert a[..0] == b[..0]; }
      if n :| 0 <= n < |a| && n < |b| && a[..n] == b[..n] && a[n] < b[n] {
        LexFromDifference(a, b, n);
      }
      if a <= b { LexPrefix(a, b); }
    }
  }

  lemma {:induction false} LexPrefix(a: string, b: string)
    requires a <= b
    ensures LexLeq(a, b)
    decreases |a|
  {
    if a != "" { LexPrefix(a[1..], b[1..]); }
  }

  lemma {:induction false} LexFromDifference(a: string, b: string, n: nat)
    requires n < |a| && n < |b| && a[..n] == b[..n] && a[n] < b[n]
    ensures LexLeq(a, b)
    decreases n
  {
    if n > 0 {
      assert a[0] == a[..n][0] && b[0] == b[..n][0];
      assert a[1..][..n - 1] == a[..n][1..] && b[1..][..n - 1] == b[..n][1..];
      LexFromDifference(a[1..], b[1..], n - 1);
    }
  }
}
