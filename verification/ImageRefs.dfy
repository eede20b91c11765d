/** Image references `[host[:port]/]<repo-path>[:tag|@digest]`: parser and printer. */
module ImageRefs {
  import opened Base
  import opened Text
  import opened SlashPath

  const DEFAULT_REGISTRY := "docker.io"
  const DOCKER_LIBRARY_NAMESPACE := "library"
  const DIGEST_PREFIX := "sha256:"
  const DIGEST_HEX_LEN := 64
  const TAGS_MARKER := "_tags"
  const DIGESTS_MARKER := "_digests"

  predicate Reserved(segment: string)
  {
    segment == TAGS_MARKER || segment == DIGESTS_MARKER
  }

  /** A parsed reference; `digest` is the bare hex, and at most one of `tag` and `digest` is set. */
  datatype ImageRef = ImageRef(host: string, path: string, tag: string, digest: string, original: string) {
    predicate IsTagged() { tag != "" }

    predicate IsDigested() { digest != "" }

    function String(): string
    {
      if IsDigested() then host + "/" + path + "@" + DIGEST_PREFIX + digest
      else host + "/" + path + ":" + tag
    }

    /** The same reference, whatever text it was parsed from. */
    predicate Same(that: ImageRef)
    {
      this.(original := "") == that.(original := "")
    }
  }

  datatype ParseError =
    | EmptyReference
    | BadDigestPrefix
    | BadDigestHex
    | EmptyTag
    | MissingPath
    | EmptySegment
    | ReservedSegment

  predicate LooksLikeHost(s: string)
  {
    s == "localhost" || '.' in s || ':' in s
  }

  predicate IsHexDigit(c: char)
  {
    '0' <= c <= '9' || 'a' <= c <= 'f'
  }

  predicate IsHex(s: string)
  {
    forall i :: 0 <= i < |s| ==> IsHexDigit(s[i])
  }

  predicate IsHex64(s: string)
  {
    |s| == DIGEST_HEX_LEN && IsHex(s)
  }

  /** The hex check is an index loop that stops at the first bad character. */
  method ValidateHex(s: string) returns (ok: bool)
    ensures ok <==> IsHex64(s)
  {
    if |s| != DIGEST_HEX_LEN { return false; }
    var i := 0;
    while i < |s|
      invariant 0 <= i <= |s|
      invariant forall j :: 0 <= j < i ==> IsHexDigit(s[j])
    {
      var c := s[i];
      if '0' <= c <= '9' {
      } else if 'a' <= c <= 'f' {
      } else {
        return false;
      }
      i := i + 1;
    }
    return true;
  }

  // ------------------------------------------------------------------------- parsing

  /** The first complaint about the segments of a repository path, if any. */
  function SegmentError(segs: seq<string>): (e: Option<ParseError>)
    ensures e == None <==> forall i :: 0 <= i < |segs| ==> segs[i] != "" && !Reserved(segs[i])
  {
    if segs == [] then None
    else if segs[0] == "" then Some(EmptySegment)
    else if Reserved(segs[0]) then Some(ReservedSegment)
    else SegmentError(segs[1..])
  }

  /** Host and path of a reference without tag and digest. */
  function HostAndPath(name: string): (string, string)
  {
    var parts := Split(name, SLASH);
    if |parts| > 1 && LooksLikeHost(parts[0]) then (parts[0], Join(parts[1..], SLASH))
    else (DEFAULT_REGISTRY, Join(parts, SLASH))
  }

  /** A one-segment path on the default registry lives in the library namespace. */
  function Qualified(host: string, path: string): string
  {
    if host == DEFAULT_REGISTRY && |Split(path, SLASH)| == 1
    then DOCKER_LIBRARY_NAMESPACE + "/" + path
    else path
  }

  function ParseName(name: string, tag: string, digest: string, original: string): Result<ImageRef, ParseError>
  {
    if name == "" then Err(MissingPath)
    else
      var (host, path0) := HostAndPath(name);
      if path0 == "" then Err(MissingPath)
      else
        var path := Qualified(host, path0);
        match SegmentError(Split(path, SLASH))
        case Some(e) => Err(e)
        case None => Ok(ImageRef(host, path, if digest == "" && tag == "" then "latest" else tag, digest, original))
  }

  /** Where the last segment starts. */
  function LastSegment(s: string): (i: nat)
    ensures i <= |s|
  {
    LastIndexByte(s, SLASH) + 1
  }

  /** Where the tag's ':' is: the first one of the last segment, or -1. */
  function TagColon(s: string): (i: int)
    ensures -1 <= i < |s|
  {
    var colon := IndexByte(s[LastSegment(s)..], ':');
    if colon < 0 then -1 else LastSegment(s) + colon
  }

  function ParseSpec(s: string): Result<ImageRef, ParseError>
  {
    if s == "" then Err(EmptyReference)
    else
      var at := LastIndexByte(s, '@');
      if at >= 0 then
        var dpart := s[at + 1..];
        if !(DIGEST_PREFIX <= dpart) then Err(BadDigestPrefix)
        else if !IsHex64(dpart[|DIGEST_PREFIX|..]) then Err(BadDigestHex)
        else ParseName(s[..at], "", dpart[|DIGEST_PREFIX|..], s)
      else
        var colon := TagColon(s);
        if colon < 0 then ParseName(s, "", "", s)
        else if colon == |s| - 1 then Err(EmptyTag)
        else ParseName(s[..colon], s[colon + 1..], "", s)
  }

  /** The parser as the program runs it: digest first, then tag, then the repository name. */
  method Parse(original: string) returns (r: Result<ImageRef, ParseError>)
    ensures r == ParseSpec(original)
  {
    hide IndexByte, LastIndexByte, Split, Join;
    if original == "" { return Err(EmptyReference); }
    var s, tag, digest := original, "", "";
    var at := LastIndexByte(s, '@');
    if at >= 0 {
      var dpart := s[at + 1..];
      if !(DIGEST_PREFIX <= dpart) { return Err(BadDigestPrefix); }
      var hex := dpart[|DIGEST_PREFIX|..];
      var ok := ValidateHex(hex);
      if !ok { return Err(BadDigestHex); }
      digest := hex;
      s := s[..at];
    }
    if digest == "" {
      var colon := TagColon(s);
      if colon >= 0 {
        tag := s[colon + 1..];
        if tag == "" { return Err(EmptyTag); }
        s := s[..colon];
      }
    }
    r := ParseRepository(s, tag, digest, original);
  }

  /** Host detection, the library namespace, the segment loop and the default tag. */
  method ParseRepository(s: string, tag: string, digest: string, original: string)
    returns (r: Result<ImageRef, ParseError>)
    ensures r == ParseName(s, tag, digest, original)
  {
    hide IndexByte, LastIndexByte, Split, Join;
    if s == "" { return Err(MissingPath); }
    var parts := Split(s, SLASH);
    var host, path;
    if |parts| > 1 && LooksLikeHost(parts[0]) {
      host := parts[0];
      path := Join(parts[1..], SLASH);
    } else {
      host := DEFAULT_REGISTRY;
      path := Join(parts, SLASH);
    }
    if path == "" { return Err(MissingPath); }
    if host == DEFAULT_REGISTRY {
      var segs := Split(path, SLASH);
      if |segs| == 1 {
        path := DOCKER_LIBRARY_NAMESPACE + "/" + path;
      }
    }
    var bad := CheckSegments(Split(path, SLASH));
    if bad.Some? { return Err(bad.value); }
    return Ok(ImageRef(host, path, if digest == "" && tag == "" then "latest" else tag, digest, original));
  }

  method CheckSegments(segs: seq<string>) returns (e: Option<ParseError>)
    ensures e == SegmentError(segs)
  {
    var i := 0;
    while i < |segs|
      invariant 0 <= i <= |segs|
      invariant SegmentError(segs) == SegmentError(segs[i..])
    {
      if segs[i] == "" { return Some(EmptySegment); }
      if Reserved(segs[i]) { return Some(ReservedSegment); }
      assert segs[i..][1..] == segs[i + 1..];
      i := i + 1;
    }
    return None;
  }

  // --------------------------------------------------------- what the parser produces

  predicate GoodPath(path: string)
  {
    var segs := Split(path, SLASH);
    forall i :: 0 <= i < |segs| ==> segs[i] != "" && !Reserved(segs[i])
  }

  function LastPiece(s: string): string
  {
    var segs := Split(s, SLASH);
    segs[|segs| - 1]
  }

  /** The references that are the parse of some text. */
  predicate Canonical(r: ImageRef)
  {
    && LooksLikeHost(r.host) && SLASH !in r.host
    && GoodPath(r.path)
    && (r.host == DEFAULT_REGISTRY ==> SLASH in r.path)
    && if r.IsDigested() then r.tag == "" && IsHex64(r.digest)
       else
         && r.IsTagged()
         && SLASH !in r.tag
         && '@' !in r.host && '@' !in r.path && '@' !in r.tag
         && ':' !in LastPiece(r.path)
  }

  lemma LastPieceIs(s: string)
    ensures s[LastSegment(s)..] == LastPiece(s)
  {
    var i := LastIndexByte(s, SLASH);
    if i >= 0 {
      CutAt(s, i);
      var a, b := s[..i], s[i + 1..];
      SplitConcat(a, b, SLASH);
      assert Split(b, SLASH) == [b];
    }
  }

  lemma LastSeparator(a: string, t: string, c: char)
    requires c !in t
    ensures LastIndexByte(a + [c] + t, c) == |a|
  {
    var s := a + [c] + t;
    var i := LastIndexByte(s, c);
    assert s[|a|] == c;
    assert i <= |a|;
    assert i >= |a|;
  }

  lemma SplitSlash(path: string)
    ensures SLASH in path <==> |Split(path, SLASH)| > 1
  {
    if SLASH in path { SplitStep(path, SLASH); }
  }

  /** Adding the library namespace adds one good segment in front. */
  lemma QualifiedSegments(host: string, path: string)
    ensures Split(Qualified(host, path), SLASH) ==
      if host == DEFAULT_REGISTRY && |Split(path, SLASH)| == 1
      then [DOCKER_LIBRARY_NAMESPACE] + Split(path, SLASH) else Split(path, SLASH)
    ensures LastPiece(Qualified(host, path)) == LastPiece(path)
    ensures host == DEFAULT_REGISTRY ==> SLASH in Qualified(host, path)
  {
    if host == DEFAULT_REGISTRY && |Split(path, SLASH)| == 1 {
      SplitCons(DOCKER_LIBRARY_NAMESPACE, path, SLASH);
      assert DOCKER_LIBRARY_NAMESPACE + "/" + path == DOCKER_LIBRARY_NAMESPACE + [SLASH] + path;
    }
    SplitSlash(Qualified(host, path));
  }

  /** Host detection cuts the name at its first slash, or not at all. */
  lemma HostAndPathShape(name: string)
    ensures var (host, path) := HostAndPath(name);
      && LooksLikeHost(host) && SLASH !in host
      && LastPiece(path) == LastPiece(name)
      && ((host, path) == (DEFAULT_REGISTRY, name) || name == host + [SLASH] + path)
  {
    var parts := Split(name, SLASH);
    JoinSplit(name, SLASH);
    SplitFree(name, SLASH);
    assert LooksLikeHost(DEFAULT_REGISTRY) by { assert DEFAULT_REGISTRY[6] == '.'; }
    if |parts| > 1 && LooksLikeHost(parts[0]) {
      SplitJoin(parts[1..], SLASH);
    }
  }

  lemma AbsentFromSlice(s: string, i: nat, j: nat, x: char)
    requires i <= j <= |s| && x !in s
    ensures x !in s[i..j]
  {
  }

  lemma AbsentFromParts(name: string, host: string, path: string, x: char)
    requires x !in name && name == host + [SLASH] + path
    ensures x !in host && x !in path
  {
    forall i | 0 <= i < |host| ensures host[i] != x { assert name[i] == host[i]; }
    forall i | 0 <= i < |path| ensures path[i] != x { assert name[|host| + 1 + i] == path[i]; }
  }

  /** No character beyond the default host and namespace appears in host or path by itself. */
  lemma AbsentFromName(name: string, x: char)
    requires x !in name && x !in DEFAULT_REGISTRY && x !in DOCKER_LIBRARY_NAMESPACE && x != SLASH
    ensures var (host, path) := HostAndPath(name); x !in host && x !in Qualified(host, path)
  {
    HostAndPathShape(name);
    var (host, path) := HostAndPath(name);
    if (host, path) != (DEFAULT_REGISTRY, name) {
      AbsentFromParts(name, host, path, x);
    }
  }

  /** Whatever the parser accepts is a canonical reference. */
  lemma ParseIsCanonical(s: string)
    requires ParseSpec(s).Ok?
    ensures Canonical(ParseSpec(s).value) && ParseSpec(s).value.original == s
  {
    hide IndexByte, LastIndexByte, Split, Join;
    var at, colon := LastIndexByte(s, '@'), TagColon(s);
    if at >= 0 {
      NameIsCanonical(s[..at], "", s[at + 1..][|DIGEST_PREFIX|..], s);
    } else {
      var name := if colon < 0 then s else s[..colon];
      NameOfTagged(s, name);
      assert '@' !in name;
      NameIsCanonical(name, if colon < 0 then "" else s[colon + 1..], "", s);
    }
  }

  lemma NameIsCanonical(name: string, tag: string, digest: string, original: string)
    requires ParseName(name, tag, digest, original).Ok?
    requires digest != "" ==> tag == "" && IsHex64(digest)
    requires digest == "" ==> SLASH !in tag && '@' !in tag && '@' !in name && ':' !in LastPiece(name)
    ensures Canonical(ParseName(name, tag, digest, original).value)
  {
    var r := ParseName(name, tag, digest, original).value;
    var (host, path0) := HostAndPath(name);
    assert r.host == host && r.path == Qualified(host, path0) && r.digest == digest;
    assert GoodPath(r.path);
    NameParts(name);
    if digest == "" {
      AbsentFromName(name, '@');
      DefaultTag(tag, r.tag);
    }
  }

  lemma NameParts(name: string)
    ensures var (host, path0) := HostAndPath(name);
      && LooksLikeHost(host) && SLASH !in host
      && (host == DEFAULT_REGISTRY ==> SLASH in Qualified(host, path0))
      && LastPiece(Qualified(host, path0)) == LastPiece(name)
  {
    HostAndPathShape(name);
    var (host, path0) := HostAndPath(name);
    QualifiedSegments(host, path0);
  }

  lemma DefaultTag(tag: string, t: string)
    requires SLASH !in tag && '@' !in tag && t == if tag == "" then "latest" else tag
    ensures t != "" && SLASH !in t && '@' !in t
  {
  }

  /** The last segment of `prefix + seg` is `seg`, when `prefix` is empty or ends in a slash. */
  lemma LastSegmentOf(prefix: string, seg: string)
    requires prefix == "" || prefix[|prefix| - 1] == SLASH
    requires SLASH !in seg
    ensures LastSegment(prefix + seg) == |prefix|
  {
    if prefix == "" {
      assert prefix + seg == seg;
    } else {
      var front := prefix[..|prefix| - 1];
      assert prefix + seg == front + [SLASH] + seg;
      LastSeparator(front, seg, SLASH);
    }
  }

  lemma LastSegmentCut(s: string)
    ensures var i := LastSegment(s);
      && s == s[..i] + s[i..]
      && SLASH !in s[i..]
      && (i == 0 || s[..i][i - 1] == SLASH)
  {
  }

  /** Where the tag starts in a text given as everything up to the last slash, name, tag. */
  lemma TagColonOf(prefix: string, seg: string, tag: string)
    requires prefix == "" || prefix[|prefix| - 1] == SLASH
    requires SLASH !in seg && ':' !in seg && SLASH !in tag
    ensures TagColon(prefix + (seg + [':'] + tag)) == |prefix| + |seg|
  {
    var tail := seg + [':'] + tag;
    LastSegmentOf(prefix, tail);
    assert (prefix + tail)[|prefix|..] == tail;
    FirstSeparator(seg, tag, ':');
  }

  /** Cutting the tag off leaves no ':' in the last segment and no '/' in the tag. */
  lemma NameOfTagged(s: string, name: string)
    requires name == if TagColon(s) < 0 then s else s[..TagColon(s)]
    ensures ':' !in LastPiece(name)
    ensures TagColon(s) >= 0 ==> SLASH !in s[TagColon(s) + 1..]
  {
    hide IndexByte, LastIndexByte, Split, Join, LastSegment, LastPiece;
    LastSegmentCut(s);
    var i := LastSegment(s);
    var prefix, tail := s[..i], s[i..];
    var k := IndexByte(tail, ':');
    if k < 0 {
      LastPieceIs(s);
    } else {
      NameOfTail(prefix, tail, k);
      CutSlices(s, i, k);
      AbsentFromSlice(tail, k + 1, |tail|, SLASH);
    }
  }

  lemma CutSlices(s: string, i: nat, k: nat)
    requires i + k < |s|
    ensures s[..i + k] == s[..i] + s[i..][..k]
    ensures s[i + k + 1..] == s[i..][k + 1..]
  {
  }

  lemma NameOfTail(prefix: string, tail: string, k: nat)
    requires prefix == "" || prefix[|prefix| - 1] == SLASH
    requires SLASH !in tail && IndexByte(tail, ':') == k
    ensures ':' !in LastPiece(prefix + tail[..k])
  {
    var seg := tail[..k];
    AbsentFromSlice(tail, 0, k, SLASH);
    LastSegmentOf(prefix, seg);
    LastPieceIs(prefix + seg);
    assert (prefix + seg)[|prefix|..] == seg;
  }

  lemma GoodPathNonempty(path: string)
    requires GoodPath(path)
    ensures path != ""
  {
    SplitNone("", SLASH);
    assert Split(path, SLASH)[0] != "";
  }

  /** Reading back host and path of a canonical reference. */
  lemma ParseNameOfCanonical(r: ImageRef, tag: string, digest: string, original: string)
    requires Canonical(r) && (tag != "" || digest != "")
    ensures ParseName(r.host + "/" + r.path, tag, digest, original)
         == Ok(ImageRef(r.host, r.path, tag, digest, original))
  {
    hide IndexByte, LastIndexByte, Split, Join;
    var name := r.host + "/" + r.path;
    assert name == r.host + [SLASH] + r.path;
    SplitCons(r.host, r.path, SLASH);
    JoinSplit(r.path, SLASH);
    SplitSlash(r.path);
    GoodPathNonempty(r.path);
  }

  /** Printing a canonical reference and parsing the text gives the reference back. */
  lemma ParseOfString(r: ImageRef)
    requires Canonical(r)
    ensures ParseSpec(r.String()) == Ok(r.(original := r.String()))
  {
    hide IndexByte, LastIndexByte, Split, Join;
    var s, name := r.String(), r.host + "/" + r.path;
    if r.IsDigested() {
      var dpart := DIGEST_PREFIX + r.digest;
      assert s == name + ['@'] + dpart;
      assert '@' !in dpart;
      LastSeparator(name, dpart, '@');
      assert s[|name| + 1..] == dpart && dpart[|DIGEST_PREFIX|..] == r.digest && s[..|name|] == name;
      ParseNameOfCanonical(r, "", r.digest, s);
    } else {
      assert s == name + [':'] + r.tag;
      assert '@' !in s;
      TagColonOfString(r);
      assert s[..|name|] == name && s[|name| + 1..] == r.tag;
      ParseNameOfCanonical(r, r.tag, "", s);
    }
  }

  lemma TagColonOfString(r: ImageRef)
    requires Canonical(r) && !r.IsDigested()
    ensures TagColon(r.String()) == |r.host + "/" + r.path|
  {
    hide IndexByte, LastIndexByte, Split, Join;
    var name := r.host + "/" + r.path;
    assert name == r.host + [SLASH] + r.path;
    SplitCons(r.host, r.path, SLASH);
    LastPieceIs(name);
    LastSegmentCut(name);
    var i := LastSegment(name);
    var prefix, seg := name[..i], name[i..];
    assert seg == LastPiece(r.path);
    assert r.String() == prefix + (seg + [':'] + r.tag);
    TagColonOf(prefix, seg, r.tag);
  }

  /** Parsing the printed form of a parse changes nothing but the remembered input. */
  lemma ParsePrintRoundTrip(s: string)
    requires ParseSpec(s).Ok?
    ensures var r := ParseSpec(s).value;
      ParseSpec(r.String()) == Ok(r.(original := r.String()))
  {
    ParseIsCanonical(s);
    ParseOfString(ParseSpec(s).value);
  }

  /** The canonical references are exactly the parses, up to the remembered input. */
  lemma CanonicalIffParsed(r: ImageRef)
    ensures Canonical(r) <==> exists s :: ParseSpec(s).Ok? && ParseSpec(s).value.Same(r)
  {
    if Canonical(r) {
      ParseOfString(r);
      assert ParseSpec(r.String()).value.Same(r);
    }
    forall s | ParseSpec(s).Ok? && ParseSpec(s).value.Same(r)
      ensures Canonical(r)
    {
      ParseIsCanonical(s);
    }
  }

  /** Two canonical references print alike only when they are the same. */
  lemma StringInjective(r: ImageRef, q: ImageRef)
    requires Canonical(r) && Canonical(q) && r.String() == q.String()
    ensures r.Same(q)
  {
    ParseOfString(r);
    ParseOfString(q);
  }
}
