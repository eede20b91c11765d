/** Content digests and where their blobs live in the shared pool. */
module Digests {
  import opened Base
  import opened Text
  import opened SlashPath
  import ImageRefs

  /** A digest in its text form `<algorithm>:<hex>`. */
  type Digest = string

  const SHARE := "share"
  const SHA256 := "sha256"
  const PART_SUFFIX := ".part"

  /** Hex digits of the algorithms the digest library knows; 0 for all others. */
  function HexLen(algo: string): nat
  {
    if algo == SHA256 then 64 else if algo == "sha384" then 96 else if algo == "sha512" then 128 else 0
  }

  function Algo(d: Digest): string
  {
    var i := IndexByte(d, ':');
    if i < 0 then "" else d[..i]
  }

  function Hex(d: Digest): string
  {
    var i := IndexByte(d, ':');
    if i < 0 then "" else d[i + 1..]
  }

  predicate ValidDigest(d: Digest)
  {
    && ':' in d
    && HexLen(Algo(d)) > 0
    && |Hex(d)| == HexLen(Algo(d))
    && ImageRefs.IsHex(Hex(d))
  }

  /** Algorithm and hex of a well-formed digest. */
  function SplitDigest(d: Digest): Result<(string, string), ()>
  {
    if ValidDigest(d) then Ok((Algo(d), Hex(d))) else Err(())
  }

  /** The path of a blob relative to the base directory. */
  function RelBlobPath(d: Digest): Result<string, ()>
  {
    match SplitDigest(d)
    case Err(_) => Err(())
    case Ok((algo, hex)) => Ok(JoinPath([SHARE, algo, hex]))
  }

  function FinalKey(d: Digest): Key
  {
    [SHARE, Algo(d), Hex(d)]
  }

  /** The places of the pool a transfer may write: a known algorithm, a name at least as long as its hex. */
  predicate IsPoolKey(k: Key)
  {
    |k| == 3 && k[0] == SHARE && HexLen(k[1]) > 0 && |k[2]| >= HexLen(k[1])
  }

  /** Where the bytes of an unfinished transfer collect. */
  function PartKey(d: Digest): Key
  {
    [SHARE, Algo(d), Hex(d) + PART_SUFFIX]
  }

  lemma PoolKeys(d: Digest)
    requires ValidDigest(d)
    ensures IsPoolKey(FinalKey(d)) && IsPoolKey(PartKey(d))
  {
  }

  lemma DigestParts(d: Digest)
    requires ':' in d
    ensures d == Algo(d) + ":" + Hex(d)
  {
    CutAt(d, IndexByte(d, ':'));
  }

  lemma HexPlain(s: string)
    requires ImageRefs.IsHex(s) && s != ""
    ensures Plain(s)
  {
    assert SLASH !in s;
    assert ImageRefs.IsHexDigit(s[0]);
  }

  /** Base directory and blob path meet at the final key of the digest. */
  lemma BlobPathKey(d: Digest)
    requires ValidDigest(d)
    ensures RelBlobPath(d).Ok? && KeyOf(RelBlobPath(d).value) == Some(FinalKey(d))
  {
    HexPlain(Hex(d));
    assert Plain(Algo(d));
    assert AllPlain(FinalKey(d));
    CleanPlain(FinalKey(d));
  }

  /** The same for the part file, whose name has a suffix after the hex. */
  lemma PartPathKey(d: Digest)
    requires ValidDigest(d)
    ensures RelBlobPath(d).Ok? && KeyOf(RelBlobPath(d).value + PART_SUFFIX) == Some(PartKey(d))
  {
    hide Join, Split, IndexByte, Clean, Elements, KeyOf;
    var hex := Hex(d);
    HexPlain(hex);
    CleanPlain(FinalKey(d));
    assert SLASH !in hex + PART_SUFFIX by {
      assert SLASH !in PART_SUFFIX;
    }
    var k := PartKey(d);
    assert Plain(k[2]) by { assert |k[2]| > 2; }
    assert AllPlain(k);
    CleanPlain(k);
    JoinThree(SHARE, Algo(d), hex);
    JoinThree(SHARE, Algo(d), hex + PART_SUFFIX);
    SuffixInside(SHARE, Algo(d), hex, PART_SUFFIX);
    assert FinalKey(d) == [SHARE, Algo(d), hex] && k == [SHARE, Algo(d), hex + PART_SUFFIX];
  }

  lemma SuffixInside(a: string, b: string, c: string, suffix: string)
    ensures a + [SLASH] + (b + [SLASH] + c) + suffix == a + [SLASH] + (b + [SLASH] + (c + suffix))
  {
  }

  lemma JoinThree(a: string, b: string, c: string)
    ensures Join([a, b, c], SLASH) == a + [SLASH] + (b + [SLASH] + c)
  {
    JoinCons(a, [b, c], SLASH);
    assert [a] + [b, c] == [a, b, c];
    JoinCons(b, [c], SLASH);
    assert [b] + [c] == [b, c];
  }

  /** No path of one digest is a path of another, and no final name is a part name. */
  lemma KeysNeverCollide(d: Digest, e: Digest)
    requires ValidDigest(d) && ValidDigest(e)
    ensures FinalKey(d) != PartKey(e)
    ensures d != e ==> FinalKey(d) != FinalKey(e) && PartKey(d) != PartKey(e)
  {
    DigestParts(d);
    DigestParts(e);
    if PartKey(d) == PartKey(e) {
      assert PartKey(d)[2] == PartKey(e)[2] && PartKey(d)[1] == PartKey(e)[1];
      assert Hex(d) == PartKey(d)[2][..|Hex(d)|];
      assert Hex(e) == PartKey(e)[2][..|Hex(e)|];
    }
    if FinalKey(d) == FinalKey(e) {
      assert FinalKey(d)[2] == FinalKey(e)[2] && FinalKey(d)[1] == FinalKey(e)[1];
    }
    assert FinalKey(d)[1] == Algo(d) && PartKey(e)[1] == Algo(e);
    assert |FinalKey(d)[2]| == |Hex(d)| && |PartKey(e)[2]| == |Hex(e)| + 5;
  }

  // ------------------------------------------------------------------------ spelled out

  /** A digest of one of the three known algorithms: its name, a colon, and its hex digits. */
  predicate SpelledDigest(d: Digest, algo: string, hex: string)
  {
    && d == algo + ":" + hex
    && ((algo == "sha256" && |hex| == 64) || (algo == "sha384" && |hex| == 96) || (algo == "sha512" && |hex| == 128))
    && forall i :: 0 <= i < |hex| ==> hex[i] in "0123456789abcdef"
  }

  lemma HexIsSpelled(hex: string)
    ensures ImageRefs.IsHex(hex) <==> forall i :: 0 <= i < |hex| ==> hex[i] in "0123456789abcdef"
  {
  }

  lemma DigestCut(algo: string, hex: string)
    requires ':' !in algo
    ensures var d := algo + ":" + hex; ':' in d && Algo(d) == algo && Hex(d) == hex
  {
    hide IndexByte;
    var d := algo + ":" + hex;
    assert d == algo + [':'] + hex;
    FirstSeparator(algo, hex, ':');
    assert d[..|algo|] == algo && d[|algo| + 1..] == hex;
    assert d[|algo|] == ':';
  }

  /** The well-formed digests are those, and splitting gives the two parts back. */
  lemma DigestSpelled(d: Digest)
    ensures ValidDigest(d) <==> exists algo, hex :: SpelledDigest(d, algo, hex)
    ensures forall algo, hex :: SpelledDigest(d, algo, hex) ==> SplitDigest(d) == Ok((algo, hex))
    ensures !ValidDigest(d) ==> SplitDigest(d).Err?
  {
    hide IndexByte, ImageRefs.IsHex;
    if ValidDigest(d) {
      DigestParts(d);
      HexIsSpelled(Hex(d));
      assert SpelledDigest(d, Algo(d), Hex(d));
    }
    forall algo, hex | SpelledDigest(d, algo, hex) ensures SplitDigest(d) == Ok((algo, hex)) {
      assert ':' !in algo;
      DigestCut(algo, hex);
      HexIsSpelled(hex);
    }
  }

  /** Where a blob and its unfinished part lie below the base directory. */
  lemma PoolPlaces(d: Digest, algo: string, hex: string)
    requires SpelledDigest(d, algo, hex)
    ensures RelBlobPath(d) == Ok("share/" + algo + "/" + hex)
    ensures FinalKey(d) == ["share", algo, hex] && PartKey(d) == ["share", algo, hex + ".part"]
  {
    hide IndexByte, Clean;
    DigestSpelled(d);
    DigestCut(algo, hex);
    HexIsSpelled(hex);
    HexPlain(hex);
    assert ValidDigest(d);
    var es := [SHARE, algo, hex];
    CleanPlain(es);
    JoinThree(SHARE, algo, hex);
    assert "share" + [SLASH] + (algo + [SLASH] + hex) == "share/" + algo + "/" + hex;
  }
}
/**
  The directory layout: where the dump of a reference lives below the base directory,
  and how a reference is recovered from such a path.
 */
module Layout {
  import opened Base
  import opened Text
  import opened SlashPath
  import opened ImageRefs
  import opened Digests

  function RelTagPath(host: string, repoPath: string, tag: string): string
  {
    JoinPath([host, repoPath, TAGS_MARKER, tag])
  }

  function RelDigestPath(host: string, repoPath: string, digestHex: string): string
  {
    JoinPath([host, repoPath, DIGESTS_MARKER, digestHex])
  }

  /** The dump directory of a reference; a reference with neither tag nor digest has none. */
  function RelDumpDir(r: ImageRef): Result<string, ()>
  {
    if r.IsTagged() then Ok(RelTagPath(r.host, r.path, r.tag))
    else if r.IsDigested() then Ok(RelDigestPath(r.host, r.path, r.digest))
    else Err(())
  }

  /** `strings.Cut(s, c)`. */
  function Cut(s: string, c: char): Option<(string, string)>
  {
    var i := IndexByte(s, c);
    if i < 0 then None else Some((s[..i], s[i + 1..]))
  }

  function SplitOn(s: string, sep: string): Option<(string, string)>
  {
    var i := Index(s, sep);
    if i < 0 then None else Some((s[..i], s[i + |sep|..]))
  }

  datatype DumpDirError = MissingHostOrPath | NoMarker

  function WithOriginal(r: ImageRef): ImageRef
  {
    r.(original := r.String())
  }

  /** The reference whose dump lives at `rel`. */
  function ParseDumpDirRel(rel: string): Result<ImageRef, DumpDirError>
  {
    match SplitOn(rel, "/_tags/")
    case Some((before, leaf)) =>
      (match Cut(before, SLASH)
       case None => Err(MissingHostOrPath)
       case Some((host, repo)) =>
         if host == "" || repo == "" then Err(MissingHostOrPath)
         else Ok(WithOriginal(ImageRef(host, repo, leaf, "", ""))))
    case None =>
      (match SplitOn(rel, "/_digests/")
       case Some((before, leaf)) =>
         (match Cut(before, SLASH)
          case None => Err(MissingHostOrPath)
          case Some((host, repo)) =>
            if host == "" || repo == "" then Err(MissingHostOrPath)
            else Ok(WithOriginal(ImageRef(host, repo, "", leaf, ""))))
       case None => Err(NoMarker))
  }

  /** No "." or ".." among the segments that become directory names. */
  predicate DotFree(r: ImageRef)
  {
    && Plain(r.host)
    && AllPlain(Split(r.path, SLASH))
    && (r.IsTagged() ==> Plain(r.tag))
  }

  /** The names on the way from the base directory to the dump of `r`. */
  function DumpNames(r: ImageRef): Key
  {
    [r.host] + Split(r.path, SLASH) +
      (if r.IsTagged() then [TAGS_MARKER, r.tag] else [DIGESTS_MARKER, r.digest])
  }

  // ------------------------------------------------- finding the marker in a joined path

  /** Position of the first interior element equal to `m` (neither first nor last), or 0. */
  function FirstMarker(es: seq<string>, m: string): (i: nat)
    ensures i > 0 ==> i + 1 < |es| && es[i] == m
    ensures forall j :: 0 < j < |es| - 1 && es[j] == m ==> 0 < i <= j
  {
    if |es| <= 2 then 0
    else if es[1] == m then 1
    else
      var k := FirstMarker(es[1..], m);
      if k == 0 then 0 else k + 1
  }

  /** An element preceded and followed by slashes, as a substring. */
  function Slashed(m: string): string
  {
    [SLASH] + m + [SLASH]
  }

  /** A joined path, cut after its first element. */
  lemma JoinStep(es: seq<string>)
    requires |es| > 1
    ensures Join(es, SLASH) == es[0] + [SLASH] + Join(es[1..], SLASH)
  {
  }

  /** A joined path starts with `m/` exactly when its first of several elements is `m`. */
  lemma StartsWithElement(es: seq<string>, m: string)
    requires es != [] && Free(es, SLASH) && SLASH !in m
    ensures (m + [SLASH] <= Join(es, SLASH)) <==> (|es| > 1 && es[0] == m)
  {
    var j := Join(es, SLASH);
    if m + [SLASH] <= j {
      var t := j[|m| + 1..];
      assert j == m + [SLASH] + t;
      SplitCons(m, t, SLASH);
      SplitJoin(es, SLASH);
    } else if |es| > 1 && es[0] == m {
      JoinStep(es);
    }
  }

  /** Where `/m/` can occur in `a/t`, with `a` free of slashes. */
  lemma OccursAfter(a: string, t: string, m: string, k: int)
    requires SLASH !in a
    ensures var s := a + [SLASH] + t;
      OccursAt(s, Slashed(m), k) <==>
        (k == |a| && m + [SLASH] <= t) || (k > |a| && OccursAt(t, Slashed(m), k - |a| - 1))
  {
    var s := a + [SLASH] + t;
    var sub := Slashed(m);
    if k < |a| {
      if 0 <= k <= |s| - |sub| {
        assert s[k] == a[k];
        assert s[k..k + |sub|][0] == s[k];
      }
    } else if k == |a| {
      if k <= |s| - |sub| {
        assert s[k..k + |sub|] == [SLASH] + t[..|sub| - 1];
        assert sub == [SLASH] + (m + [SLASH]);
        assert sub[1..] == m + [SLASH];
        assert s[k..k + |sub|][1..] == t[..|sub| - 1];
      }
    } else if k <= |s| - |sub| {
      assert s[k..k + |sub|] == t[k - |a| - 1..k - |a| - 1 + |sub|];
    }
  }

  lemma IndexAfter(a: string, t: string, m: string)
    requires SLASH !in a
    ensures Index(a + [SLASH] + t, Slashed(m)) ==
      if m + [SLASH] <= t then |a|
      else if Index(t, Slashed(m)) < 0 then -1
      else |a| + 1 + Index(t, Slashed(m))
  {
    var k, k1 := Index(a + [SLASH] + t, Slashed(m)), Index(t, Slashed(m));
    OccursAfter(a, t, m, |a|);
    OccursAfter(a, t, m, k);
    OccursAfter(a, t, m, k1 + |a| + 1);
  }

  /** The first `/m/` of a joined path is at the first interior element `m`. */
  lemma {:induction false} IndexOfMarker(es: seq<string>, m: string)
    requires es != [] && Free(es, SLASH) && SLASH !in m
    ensures var i, k := FirstMarker(es, m), Index(Join(es, SLASH), Slashed(m));
      if i == 0 then k < 0 else k == |Join(es[..i], SLASH)|
    decreases |es|
  {
    hide IndexByte, Split, Index;
    if |es| == 1 {
      var k := Index(es[0], Slashed(m));
      if k >= 0 { assert es[0][k..k + |Slashed(m)|][0] == es[0][k]; }
    } else {
      var a, rest := es[0], es[1..];
      JoinStep(es);
      IndexOfMarker(rest, m);
      StartsWithElement(rest, m);
      IndexAfter(a, Join(rest, SLASH), m);
      var i1 := FirstMarker(rest, m);
      if |rest| > 1 && rest[0] == m {
        assert es[..1] == [a];
      } else if i1 > 0 {
        assert es[..i1 + 1] == [a] + rest[..i1];
        JoinCons(a, rest[..i1], SLASH);
      }
    }
  }

  /** Cutting a joined path at its first `/m/`. */
  lemma SplitOnMarker(es: seq<string>, m: string)
    requires es != [] && Free(es, SLASH) && SLASH !in m
    ensures var i := FirstMarker(es, m);
      SplitOn(Join(es, SLASH), Slashed(m)) ==
        if i == 0 then None else Some((Join(es[..i], SLASH), Join(es[i + 1..], SLASH)))
  {
    var i := FirstMarker(es, m);
    IndexOfMarker(es, m);
    if i > 0 {
      JoinAroundMarker(es, i);
      CutAround(Join(es[..i], SLASH), Slashed(m), Join(es[i + 1..], SLASH));
    }
  }

  lemma JoinAroundMarker(es: seq<string>, i: nat)
    requires 0 < i < |es| - 1
    ensures Join(es, SLASH) == Join(es[..i], SLASH) + Slashed(es[i]) + Join(es[i + 1..], SLASH)
  {
    var x, m, y := es[..i], es[i], es[i + 1..];
    CutElements(es, i);
    JoinAround(x, m, y);
  }

  lemma CutElements(es: seq<string>, i: nat)
    requires i < |es|
    ensures es == es[..i] + ([es[i]] + es[i + 1..])
  {
  }

  lemma JoinAround(x: seq<string>, m: string, y: seq<string>)
    requires x != [] && y != []
    ensures Join(x + ([m] + y), SLASH) == Join(x, SLASH) + Slashed(m) + Join(y, SLASH)
  {
    hide IndexByte, LastIndexByte, Split, Join;
    calc {
      Join(x + ([m] + y), SLASH);
      { JoinConcat(x, [m] + y, SLASH); }
      Join(x, SLASH) + [SLASH] + Join([m] + y, SLASH);
      { JoinCons(m, y, SLASH); }
      Join(x, SLASH) + [SLASH] + (m + [SLASH] + Join(y, SLASH));
      { AroundMarker(Join(x, SLASH), m, Join(y, SLASH)); }
      Join(x, SLASH) + Slashed(m) + Join(y, SLASH);
    }
  }

  lemma AroundMarker(a: string, m: string, b: string)
    ensures a + [SLASH] + (m + [SLASH] + b) == a + Slashed(m) + b
  {
  }

  lemma CutAround(a: string, m: string, b: string)
    ensures var s := a + m + b; s[..|a|] == a && s[|a| + |m|..] == b
  {
  }

  // ------------------------------------------------------------- encoder and decoder

  /** A host is neither reserved nor the blob pool. */
  lemma HostNotReserved(host: string)
    requires LooksLikeHost(host)
    ensures !Reserved(host) && host != SHARE
  {
  }

  lemma DumpNamesPlain(r: ImageRef)
    requires Canonical(r) && DotFree(r)
    ensures AllPlain(DumpNames(r)) && |DumpNames(r)| >= 4
  {
    if r.IsDigested() { HexPlain(r.digest); }
  }

  /** Joining with an already joined middle is joining the pieces. */
  lemma JoinNested(host: string, path: string, tail: seq<string>)
    requires tail != []
    ensures Join([host, path] + tail, SLASH) == Join([host] + Split(path, SLASH) + tail, SLASH)
  {
    hide IndexByte, LastIndexByte, Split, Join;
    var segs := Split(path, SLASH);
    JoinSplit(path, SLASH);
    JoinConcat(segs, tail, SLASH);
    JoinCons(host, segs + tail, SLASH);
    JoinCons(path, tail, SLASH);
    JoinCons(host, [path] + tail, SLASH);
    assert [host] + segs + tail == [host] + (segs + tail);
    assert [host] + ([path] + tail) == [host, path] + tail;
  }

  /** The dump path of a dot-free reference is its names, joined. */
  lemma RelDumpDirIsNames(r: ImageRef)
    requires Canonical(r) && DotFree(r)
    ensures RelDumpDir(r) == Ok(Join(DumpNames(r), SLASH))
    ensures KeyOf(RelDumpDir(r).value) == Some(DumpNames(r))
  {
    DumpNamesPlain(r);
    CleanPlain(DumpNames(r));
    var tail := if r.IsTagged() then [TAGS_MARKER, r.tag] else [DIGESTS_MARKER, r.digest];
    JoinNested(r.host, r.path, tail);
    assert DumpNames(r) == [r.host] + Split(r.path, SLASH) + tail;
    JoinPathOf(r.host, r.path, tail[0], tail[1]);
  }

  lemma JoinPathOf(host: string, path: string, marker: string, leaf: string)
    requires host != ""
    ensures JoinPath([host, path, marker, leaf]) == Clean(Join([host, path] + [marker, leaf], SLASH))
  {
    assert [host, path] + [marker, leaf] == [host, path, marker, leaf];
  }

  /** In the names of a dump the marker is the only reserved interior name. */
  lemma DumpNamesMarker(r: ImageRef)
    requires Canonical(r)
    ensures var es, n := DumpNames(r), |Split(r.path, SLASH)|;
      && |es| == n + 3
      && es[0] == r.host && es[1..n + 1] == Split(r.path, SLASH)
      && es[n + 1] == (if r.IsTagged() then TAGS_MARKER else DIGESTS_MARKER)
      && es[n + 2] == (if r.IsTagged() then r.tag else r.digest)
      && forall i :: 0 <= i < n + 1 ==> !Reserved(es[i])
  {
    HostNotReserved(r.host);
    var es, segs := DumpNames(r), Split(r.path, SLASH);
    forall i | 0 <= i < |segs| + 1 ensures !Reserved(es[i]) {
      if i > 0 { assert es[i] == segs[i - 1]; }
    }
  }

  lemma FirstMarkerIs(es: seq<string>, m: string, i: nat)
    requires 0 < i < |es| - 1 && es[i] == m
    requires forall j :: 0 <= j < i ==> es[j] != m
    ensures FirstMarker(es, m) == i
  {
  }

  /** What the marker search sees in the dump path of `r`. */
  lemma DumpNamesSplit(r: ImageRef)
    requires Canonical(r) && DotFree(r)
    ensures var s, name := Join(DumpNames(r), SLASH), r.host + [SLASH] + r.path;
      if r.IsTagged() then SplitOn(s, "/_tags/") == Some((name, r.tag))
      else SplitOn(s, "/_tags/") == None && SplitOn(s, "/_digests/") == Some((name, r.digest))
  {
    hide IndexByte, LastIndexByte, Split, Join;
    DumpNamesPlain(r);
    DumpNamesMarker(r);
    assert Slashed(TAGS_MARKER) == "/_tags/" && Slashed(DIGESTS_MARKER) == "/_digests/";
    if r.IsTagged() {
      SplitAtMarker(r.host, r.path, TAGS_MARKER, r.tag);
    } else {
      SplitAtMarker(r.host, r.path, DIGESTS_MARKER, r.digest);
      NoMarkerBefore(DumpNames(r), TAGS_MARKER, |Split(r.path, SLASH)| + 1);
      SplitOnMarker(DumpNames(r), TAGS_MARKER);
    }
  }

  lemma SplitAtMarker(host: string, path: string, m: string, leaf: string)
    requires SLASH !in m && m != host && m !in Split(path, SLASH)
    requires Free([host] + Split(path, SLASH) + [m, leaf], SLASH)
    ensures SplitOn(Join([host] + Split(path, SLASH) + [m, leaf], SLASH), Slashed(m))
         == Some((host + [SLASH] + path, leaf))
  {
    hide IndexByte, LastIndexByte, Split, Join;
    var segs := Split(path, SLASH);
    var front := [host] + segs;
    var es := front + [m, leaf];
    assert |es| == |front| + 2;
    assert forall j :: 0 <= j < |front| ==> es[j] == front[j];
    FirstMarkerIs(es, m, |front|);
    SplitOnMarker(es, m);
    assert es[..|front|] == front;
    assert es[|front| + 1..] == [leaf];
    JoinOne(leaf, SLASH);
    JoinCons(host, segs, SLASH);
    JoinSplit(path, SLASH);
  }

  lemma CutName(host: string, path: string)
    requires SLASH !in host
    ensures Cut(host + [SLASH] + path, SLASH) == Some((host, path))
  {
    FirstSeparator(host, path, SLASH);
    CutAround(host, [SLASH], path);
  }

  /** Decoding the dump path of a reference gives the reference back. */
  lemma DumpDirRoundTrip(r: ImageRef)
    requires Canonical(r) && DotFree(r)
    ensures RelDumpDir(r).Ok?
    ensures ParseDumpDirRel(RelDumpDir(r).value) == Ok(WithOriginal(r))
  {
    hide IndexByte, LastIndexByte, Split, Join, Index;
    RelDumpDirIsNames(r);
    DumpNamesSplit(r);
    CutName(r.host, r.path);
    GoodPathNonempty(r.path);
    assert r.host != "";
  }

  /** A decoded path is the text of its parts, however it came about. */
  lemma DecodedText(rel: string, q: ImageRef)
    requires ParseDumpDirRel(rel) == Ok(q)
    ensures rel == q.host + "/" + q.path + (if q.digest == "" then "/_tags/" + q.tag else "/_digests/" + q.digest)
         || (q.digest == "" && q.tag == "")
  {
    hide IndexByte, Index;
    match SplitOn(rel, "/_tags/")
    case Some((before, leaf)) =>
      SplitOnText(rel, "/_tags/");
      CutText(before, SLASH);
    case None =>
      var (before, leaf) := SplitOn(rel, "/_digests/").value;
      SplitOnText(rel, "/_digests/");
      CutText(before, SLASH);
  }

  lemma SplitOnText(s: string, sep: string)
    requires SplitOn(s, sep).Some?
    ensures s == SplitOn(s, sep).value.0 + sep + SplitOn(s, sep).value.1
  {
    var i := Index(s, sep);
    assert OccursAt(s, sep, i);
    assert s == s[..i] + s[i..i + |sep|] + s[i + |sep|..];
  }

  lemma CutText(s: string, c: char)
    requires Cut(s, c).Some?
    ensures s == Cut(s, c).value.0 + [c] + Cut(s, c).value.1
  {
    CutAt(s, IndexByte(s, c));
  }

  /** A local path that is its own cleaned form has no dots among its pieces. */
  lemma CleanLocalPlain(p: string)
    requires Clean(p) == p && p != "." && KeyOf(p).Some?
    ensures AllPlain(Split(p, SLASH))
  {
    KeyPlain(p);
  }

  /** The text of a dump's parts, split again, is its names. */
  lemma NamesOfText(r: ImageRef)
    requires Canonical(r)
    ensures Split(r.host + "/" + r.path + (if r.digest == "" then "/_tags/" + r.tag else "/_digests/" + r.digest), SLASH)
         == DumpNames(r)
    ensures DotFree(r) <==> AllPlain(DumpNames(r))
  {
    hide IndexByte, LastIndexByte, Split, Join;
    var m, leaf := if r.digest == "" then TAGS_MARKER else DIGESTS_MARKER, if r.digest == "" then r.tag else r.digest;
    if r.IsDigested() { HexPlain(r.digest); }
    SplitCons(m, leaf, SLASH);
    SplitNone(leaf, SLASH);
    SplitConcat(r.path, m + [SLASH] + leaf, SLASH);
    SplitCons(r.host, r.path + [SLASH] + (m + [SLASH] + leaf), SLASH);
    assert r.host + "/" + r.path + (if r.digest == "" then "/_tags/" + r.tag else "/_digests/" + r.digest)
        == r.host + [SLASH] + (r.path + [SLASH] + (m + [SLASH] + leaf));
    DotFreeNames(r);
  }

  lemma NotDot(r: ImageRef, s: string)
    requires s == r.host + "/" + r.path + (if r.digest == "" then "/_tags/" + r.tag else "/_digests/" + r.digest)
    ensures s != "."
  {
    assert |s| >= 7;
  }

  lemma DotFreeNames(r: ImageRef)
    requires Canonical(r)
    ensures DotFree(r) <==> AllPlain(DumpNames(r))
  {
    if r.IsDigested() { HexPlain(r.digest); }
    if AllPlain(DumpNames(r)) {
      var es, segs := DumpNames(r), Split(r.path, SLASH);
      assert Plain(es[0]);
      forall i | 0 <= i < |segs| ensures Plain(segs[i]) { assert es[i + 1] == segs[i]; }
      assert Plain(es[|segs| + 2]);
    }
  }

  /**
    Of the references a parser can produce, a dump directory inside the base decodes to
    its reference exactly if no segment is "." or "..".
   */
  lemma DumpDirRoundTripIff(r: ImageRef)
    requires Canonical(r)
    ensures RelDumpDir(r).Ok?
    ensures KeyOf(RelDumpDir(r).value).Some? && ParseDumpDirRel(RelDumpDir(r).value) == Ok(WithOriginal(r))
       <==> DotFree(r)
  {
    hide IndexByte, LastIndexByte, Split, Join, Index, Reduce, KeyOf, ParseDumpDirRel, SplitOn, Clean;
    if DotFree(r) {
      RelDumpDirIsNames(r);
      DumpDirRoundTrip(r);
    }
    var s := RelDumpDir(r).value;
    if KeyOf(s).Some? && ParseDumpDirRel(s) == Ok(WithOriginal(r)) {
      DecodedText(s, WithOriginal(r));
      NamesOfText(r);
      NotDot(r, s);
      CleanIdempotent(Join([r.host, r.path] + (if r.IsTagged() then [TAGS_MARKER, r.tag] else [DIGESTS_MARKER, r.digest]), SLASH));
      JoinPathOf(r.host, r.path, if r.IsTagged() then TAGS_MARKER else DIGESTS_MARKER, if r.IsTagged() then r.tag else r.digest);
      CleanLocalPlain(s);
    }
  }

  /** Such segments are accepted: a path "..", with a host and a tag, is a repository path. */
  lemma DotsAccepted() returns (s: string)
    ensures ParseSpec(s).Ok? && !DotFree(ParseSpec(s).value)
  {
    hide ParseSpec, Split, LastSegment, IndexByte, Reserved;
    var r := ImageRef("localhost", "..", "t", "", "");
    DotsPath();
    ParseOfString(r);
    s := r.String();
  }

  lemma DotsPath()
    ensures Split("..", SLASH) == [".."] && GoodPath("..") && LastPiece("..") == ".." && !AllPlain(Split("..", SLASH))
  {
    hide Split;
    SplitNone("..", SLASH);
    assert !Plain([".."][0]);
  }

  lemma NoMarkerBefore(es: seq<string>, m: string, i: nat)
    requires i == |es| - 2 && es[i] != m
    requires forall j :: 0 <= j < i ==> es[j] != m
    ensures FirstMarker(es, m) == 0
  {
  }

  /** A dump is never inside another dump: no dump path is a prefix of a different one. */
  lemma DumpNamesPrefixFree(r: ImageRef, q: ImageRef)
    requires Canonical(r) && Canonical(q)
    requires DumpNames(r) <= DumpNames(q)
    ensures r.Same(q)
  {
    hide IndexByte, LastIndexByte, Split, Join;
    DumpNamesMarker(r);
    DumpNamesMarker(q);
    var es, fs := DumpNames(r), DumpNames(q);
    var n, k := |Split(r.path, SLASH)|, |Split(q.path, SLASH)|;
    assert forall i :: 0 <= i < |es| ==> es[i] == fs[i];
    assert Reserved(es[n + 1]);
    assert n + 1 >= k + 1;
    assert fs[n + 1] == es[n + 1];
    assert n == k;
    assert Split(r.path, SLASH) == Split(q.path, SLASH);
    JoinSplit(r.path, SLASH);
    JoinSplit(q.path, SLASH);
  }

  /**
    Dump directories of different references are different, none contains another, and
    none lies in the blob pool.
   */
  lemma DumpDirsDisjoint(r: ImageRef, q: ImageRef)
    requires Canonical(r) && Canonical(q) && DotFree(r) && DotFree(q)
    ensures RelDumpDir(r).Ok? && RelDumpDir(q).Ok?
    ensures var k, l := KeyOf(RelDumpDir(r).value), KeyOf(RelDumpDir(q).value);
      && k.Some? && l.Some?
      && (k.value <= l.value <==> r.Same(q))
      && (RelDumpDir(r) == RelDumpDir(q) <==> r.Same(q))
      && !([SHARE] <= k.value)
  {
    hide IndexByte, LastIndexByte, Split, Join;
    RelDumpDirIsNames(r);
    RelDumpDirIsNames(q);
    if DumpNames(r) <= DumpNames(q) { DumpNamesPrefixFree(r, q); }
    HostNotReserved(r.host);
    assert DumpNames(r)[0] == r.host;
  }

  // ------------------------------------------------------------------------ spelled out

  /** The dump directory of a dot-free reference, as a text. */
  lemma DumpDirSpelled(r: ImageRef)
    requires Canonical(r) && DotFree(r)
    ensures RelDumpDir(r) == Ok(r.host + "/" + r.path +
      (if r.digest == "" then "/_tags/" + r.tag else "/_digests/" + r.digest))
  {
    hide IndexByte, LastIndexByte, Split, Join;
    RelDumpDirIsNames(r);
    NamesOfText(r);
    JoinSplit(r.host + "/" + r.path + (if r.digest == "" then "/_tags/" + r.tag else "/_digests/" + r.digest), SLASH);
  }

  /** A reference with neither tag nor digest has no dump directory. */
  lemma NoDumpDir(r: ImageRef)
    ensures RelDumpDir(r).Err? <==> r.tag == "" && r.digest == ""
  {
  }

  /** `rel` is host, path and leaf around the first `marker` in it. */
  ghost predicate CutAtFirst(rel: string, marker: string, host: string, path: string, leaf: string)
  {
    && rel == host + "/" + path + marker + leaf
    && host != "" && path != "" && '/' !in host
    && forall k :: 0 <= k < |host| + 1 + |path| ==> !OccursAt(rel, marker, k)
  }

  /** The reference a path decodes to: at the first tags marker, else at the first digests marker. */
  ghost predicate DecodesTo(rel: string, q: ImageRef)
  {
    && q.original == q.String()
    && ((q.digest == "" && CutAtFirst(rel, "/_tags/", q.host, q.path, q.tag))
        || (q.tag == "" && (forall k :: !OccursAt(rel, "/_tags/", k)) && CutAtFirst(rel, "/_digests/", q.host, q.path, q.digest)))
  }

  lemma SplitOnIff(s: string, sep: string, a: string, b: string)
    ensures SplitOn(s, sep) == Some((a, b)) <==>
      s == a + sep + b && forall k :: 0 <= k < |a| ==> !OccursAt(s, sep, k)
    ensures SplitOn(s, sep) == None <==> forall k :: !OccursAt(s, sep, k)
  {
    hide Index;
    var i := Index(s, sep);
    if i >= 0 {
      assert OccursAt(s, sep, i);
      SplitOnText(s, sep);
    }
    if s == a + sep + b && forall k :: 0 <= k < |a| ==> !OccursAt(s, sep, k) {
      CutAround(a, sep, b);
      assert s[|a|..|a| + |sep|] == sep;
      assert OccursAt(s, sep, |a|);
      assert i == |a|;
    }
  }

  lemma CutIff(s: string, a: string, b: string)
    ensures Cut(s, SLASH) == Some((a, b)) <==> s == a + "/" + b && '/' !in a
  {
    hide IndexByte;
    if Cut(s, SLASH).Some? { CutText(s, SLASH); }
    if s == a + "/" + b && '/' !in a {
      assert s == a + [SLASH] + b;
      CutName(a, b);
    }
  }

  lemma {:induction false} DecodesAt(rel: string, marker: string, before: string, leaf: string, host: string, path: string)
    requires SplitOn(rel, marker) == Some((before, leaf))
    ensures (Cut(before, SLASH) == Some((host, path)) && host != "" && path != "") <==>
      CutAtFirst(rel, marker, host, path, leaf)
  {
    hide IndexByte, Index, OccursAt;
    SplitOnIff(rel, marker, before, leaf);
    CutIff(before, host, path);
    SplitOnIff(rel, marker, host + "/" + path, leaf);
  }

  lemma DecodesAtOther(rel: string, marker: string, host: string, path: string, leaf: string)
    requires CutAtFirst(rel, marker, host, path, leaf)
    ensures SplitOn(rel, marker) == Some((host + "/" + path, leaf))
  {
    hide Index, OccursAt;
    SplitOnIff(rel, marker, host + "/" + path, leaf);
  }

  /** For every path, dump directory or not: what it decodes to. */
  lemma DecodesIff(rel: string, q: ImageRef)
    ensures ParseDumpDirRel(rel) == Ok(q) <==> DecodesTo(rel, q)
  {
    hide IndexByte, Index, Cut, SplitOn, OccursAt, CutAtFirst;
    SplitOnIff(rel, "/_tags/", "", "");
    match SplitOn(rel, "/_tags/")
    case Some((before, leaf)) =>
      DecodesAt(rel, "/_tags/", before, leaf, q.host, q.path);
      if CutAtFirst(rel, "/_tags/", q.host, q.path, q.tag) { DecodesAtOther(rel, "/_tags/", q.host, q.path, q.tag); }
    case None =>
      if CutAtFirst(rel, "/_tags/", q.host, q.path, q.tag) { DecodesAtOther(rel, "/_tags/", q.host, q.path, q.tag); }
      if CutAtFirst(rel, "/_digests/", q.host, q.path, q.digest) {
        DecodesAtOther(rel, "/_digests/", q.host, q.path, q.digest);
      }
      if SplitOn(rel, "/_digests/").Some? {
        var (before, leaf) := SplitOn(rel, "/_digests/").value;
        DecodesAt(rel, "/_digests/", before, leaf, q.host, q.path);
      }
  }
}
