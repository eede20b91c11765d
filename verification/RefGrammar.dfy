/** The reference syntax as a grammar: which texts are accepted, and what they denote. */
module RefGrammar {
  import opened Base
  import opened Text
  import opened SlashPath
  import opened ImageRefs

  /** 64 lower-case hex digits. */
  predicate Sha256Hex(h: string)
  {
    |h| == 64 && forall i :: 0 <= i < |h| ==> h[i] in "0123456789abcdef"
  }

  /** `s` is `name` with a digest, with a tag, or with neither, which stands for the tag "latest". */
  predicate SpelledAs(s: string, name: string, tag: string, digest: string)
  {
    || (s == name + "@sha256:" + digest && Sha256Hex(digest) && tag == "")
    || ('@' !in s && ':' !in LastPiece(name) && digest == "" && s == name + ":" + tag && tag != "" && '/' !in tag)
    || ('@' !in s && ':' !in LastPiece(name) && digest == "" && s == name && tag == "latest")
  }

  /** The first segment of several is a host if it is "localhost" or has a dot or a colon. */
  predicate BeginsWithHost(name: string)
  {
    var segs := Split(name, '/');
    |segs| > 1 && (segs[0] == "localhost" || '.' in segs[0] || ':' in segs[0])
  }

  /** Every segment of a path is nonempty and not reserved. */
  predicate GoodSegments(path: string)
  {
    forall i :: 0 <= i < |Split(path, '/')| ==>
      Split(path, '/')[i] != "" && Split(path, '/')[i] != "_tags" && Split(path, '/')[i] != "_digests"
  }

  /** Where `name` leads: its host, or "docker.io", and its path, "library/" added there to one segment. */
  predicate Locates(name: string, host: string, path: string)
  {
    && name != ""
    && if BeginsWithHost(name) then
         && host == Split(name, '/')[0]
         && var rest := Join(Split(name, '/')[1..], '/');
            rest != "" && path == if host == "docker.io" && '/' !in rest then "library/" + rest else rest
       else
         host == "docker.io" && path == if '/' !in name then "library/" + name else name
  }

  /** The repository `name` names. */
  predicate NamedAs(name: string, host: string, path: string)
  {
    GoodSegments(path) && Locates(name, host, path)
  }

  lemma HexIs(h: string)
    ensures IsHex64(h) <==> Sha256Hex(h)
  {
  }

  /** Host and path as the parser takes them from a name. */
  lemma HostIs(name: string)
    ensures HostAndPath(name) == if BeginsWithHost(name) then (Split(name, '/')[0], Join(Split(name, '/')[1..], '/'))
                                 else ("docker.io", name)
  {
    hide IndexByte, Split, Join;
    JoinSplit(name, SLASH);
  }

  lemma QualifiedIs(host: string, rest: string)
    ensures Qualified(host, rest) == if host == "docker.io" && '/' !in rest then "library/" + rest else rest
  {
    hide IndexByte, Split;
    SplitSlash(rest);
    SplitPieces(rest);
  }

  lemma SplitPieces(s: string)
    ensures |Split(s, SLASH)| >= 1
  {
  }

  lemma SegmentsIff(path: string)
    ensures SegmentError(Split(path, SLASH)) == None <==> GoodSegments(path)
  {
    hide IndexByte, Split;
  }

  lemma NameIff(name: string, tag: string, digest: string, original: string, r: ImageRef)
    ensures ParseName(name, tag, digest, original) == Ok(r) <==>
      && r.original == original && r.digest == digest && r.tag == (if digest == "" && tag == "" then "latest" else tag)
      && NamedAs(name, r.host, r.path)
  {
    hide IndexByte, LastIndexByte, Split, Join, HostAndPath, Qualified, SegmentError, GoodSegments, BeginsWithHost;
    HostIs(name);
    var (host, path0) := HostAndPath(name);
    QualifiedIs(host, path0);
    SegmentsIff(Qualified(host, path0));
    NoPath(r.host, r.path);
    SplitNothing();
  }

  lemma SplitNothing()
    ensures !BeginsWithHost("")
  {
  }

  /** A name that is empty denotes nothing. */
  lemma NoPath(host: string, path: string)
    ensures !NamedAs("", host, path)
  {
    hide IndexByte, Split;
    SplitNothing();
    SplitNone("", SLASH);
    SplitCons("library", "", SLASH);
    assert "library/" + "" == "library" + [SLASH] + "";
    assert !GoodSegments("library/" + "") by { assert Split("library/" + "", '/')[1] == ""; }
  }

  lemma DigestedCut(s: string, name: string, digest: string)
    requires s == name + "@sha256:" + digest && Sha256Hex(digest)
    ensures s != "" && LastIndexByte(s, '@') == |name| && s[..|name|] == name && s[|name| + 1..] == "sha256:" + digest
  {
    hide IndexByte, LastIndexByte;
    assert s == name + ['@'] + ("sha256:" + digest);
    assert '@' !in "sha256:" + digest;
    LastSeparator(name, "sha256:" + digest, '@');
  }

  lemma TaggedCut(name: string, tag: string)
    requires ':' !in LastPiece(name) && '/' !in tag
    ensures TagColon(name + ":" + tag) == |name|
  {
    hide IndexByte, LastIndexByte, Split, Join, TagColon, LastSegment, LastPiece;
    LastPieceIs(name);
    LastSegmentCut(name);
    var i := LastSegment(name);
    var prefix, seg := name[..i], name[i..];
    assert name + ":" + tag == prefix + (seg + [':'] + tag);
    TagColonOf(prefix, seg, tag);
  }

  lemma UntaggedCut(name: string)
    requires ':' !in LastPiece(name)
    ensures TagColon(name) < 0
  {
    hide Split, Join;
    LastPieceIs(name);
  }

  /** The text is parsed as this name with the tag as given, "latest" if none is. */
  predicate Given(s: string, name: string, tag: string, digest: string, given: string)
  {
    && ParseSpec(s) == ParseName(name, given, digest, s)
    && tag == if digest == "" && given == "" then "latest" else given
  }

  /** Every spelling is parsed as it is spelled. */
  lemma SpelledIsParsed(s: string, name: string, tag: string, digest: string)
    requires SpelledAs(s, name, tag, digest) && (s != "" || name != "")
    ensures exists given :: Given(s, name, tag, digest, given)
  {
    hide IndexByte, LastIndexByte, Split, Join, ParseName, TagColon, LastPiece;
    if s == name + "@sha256:" + digest && Sha256Hex(digest) && tag == "" {
      DigestedCut(s, name, digest);
      HexIs(digest);
      assert ("sha256:" + digest)[7..] == digest;
      assert Given(s, name, tag, digest, "");
    } else if s == name + ":" + tag && tag != "" && '/' !in tag {
      TaggedCut(name, tag);
      assert s[..|name|] == name && s[|name| + 1..] == tag;
      assert Given(s, name, tag, digest, tag);
    } else {
      UntaggedCut(name);
      assert Given(s, name, tag, digest, "");
    }
  }

  /** The complaint is about the repository name. */
  predicate AboutName(e: ParseError)
  {
    e.MissingPath? || e.EmptySegment? || e.ReservedSegment?
  }

  /** Every text that is not rejected before its name is looked at has a spelling. */
  lemma ParsedIsSpelled(s: string) returns (name: string, given: string, digest: string)
    requires ParseSpec(s).Ok? || AboutName(ParseSpec(s).error)
    ensures ParseSpec(s) == ParseName(name, given, digest, s)
    ensures SpelledAs(s, name, if digest == "" && given == "" then "latest" else given, digest)
  {
    hide IndexByte, LastIndexByte, Split, Join, ParseName, TagColon, LastPiece;
    var at := LastIndexByte(s, '@');
    if at >= 0 {
      name, given, digest := s[..at], "", s[at + 1..][|DIGEST_PREFIX|..];
      HexIs(digest);
      assert s == s[..at] + ['@'] + s[at + 1..];
      assert s[at + 1..] == DIGEST_PREFIX + digest;
      assert s == name + "@sha256:" + digest;
    } else {
      var colon := TagColon(s);
      name := if colon < 0 then s else s[..colon];
      given, digest := if colon < 0 then "" else s[colon + 1..], "";
      NameOfTagged(s, name);
      if colon >= 0 {
        TagColonIs(s);
        assert s == name + ":" + given;
      }
    }
  }

  lemma TagColonIs(s: string)
    requires TagColon(s) >= 0
    ensures s[TagColon(s)] == ':' && s == s[..TagColon(s)] + ":" + s[TagColon(s) + 1..]
  {
    hide LastIndexByte;
    var i, k := LastSegment(s), TagColon(s);
    assert s[i..][k - i] == s[k];
    CutAt(s, k);
  }

  /**
    The language of references: a text is accepted exactly if it is spelled as a name with
    a digest, a tag or neither, and the name names a repository; and then the reference is
    the one it spells.
   */
  lemma AcceptsIff(s: string, r: ImageRef)
    ensures ParseSpec(s) == Ok(r) <==>
      r.original == s && exists name :: SpelledAs(s, name, r.tag, r.digest) && NamedAs(name, r.host, r.path)
  {
    hide SpelledAs, NamedAs, ParseSpec, ParseName;
    if ParseSpec(s) == Ok(r) {
      var name, given, digest := ParsedIsSpelled(s);
      NameIff(name, given, digest, s, r);
    }
    if r.original == s {
      forall name | SpelledAs(s, name, r.tag, r.digest) && NamedAs(name, r.host, r.path) ensures ParseSpec(s) == Ok(r) {
        if name == "" { NoPath(r.host, r.path); }
        SpelledIsParsed(s, name, r.tag, r.digest);
        var given :| Given(s, name, r.tag, r.digest, given);
        NameIff(name, given, r.digest, s, r);
      }
    }
  }

  /** In particular, without a digest and without a tag the tag is "latest". */
  lemma DefaultTagIsLatest(s: string)
    requires ParseSpec(s).Ok? && '@' !in s && ':' !in LastPiece(s)
    ensures ParseSpec(s).value.tag == "latest" && ParseSpec(s).value.digest == ""
  {
    hide IndexByte, LastIndexByte, Split, Join, TagColon, LastPiece;
    UntaggedCut(s);
    NameIff(s, "", "", s, ParseSpec(s).value);
  }

  // ------------------------------------------------------------------------ rejections

  /** The first segment that is empty or reserved is of this kind. */
  predicate FirstBad(segs: seq<string>, e: ParseError)
  {
    exists i :: 0 <= i < |segs| && BadAt(segs, i, e)
  }

  predicate BadAt(segs: seq<string>, i: nat, e: ParseError)
    requires i < |segs|
  {
    && (forall j :: 0 <= j < i ==> segs[j] != "" && segs[j] != "_tags" && segs[j] != "_digests")
    && ((e == EmptySegment && segs[i] == "") || (e == ReservedSegment && (segs[i] == "_tags" || segs[i] == "_digests")))
  }

  lemma {:induction false} SegmentErrorIff(segs: seq<string>, e: ParseError)
    ensures SegmentError(segs) == Some(e) <==> FirstBad(segs, e)
    decreases |segs|
  {
    if segs != [] {
      var rest := segs[1..];
      SegmentErrorIff(rest, e);
      if SegmentError(segs) == Some(e) {
        if segs[0] == "" || Reserved(segs[0]) {
          assert BadAt(segs, 0, e);
        } else {
          var i :| 0 <= i < |rest| && BadAt(rest, i, e);
          assert forall j :: 1 <= j < |segs| ==> segs[j] == rest[j - 1];
          assert BadAt(segs, i + 1, e);
        }
      }
      if i :| 0 <= i < |segs| && BadAt(segs, i, e) {
        if i > 0 {
          assert forall j :: 0 <= j < |rest| ==> rest[j] == segs[j + 1];
          assert BadAt(rest, i - 1, e);
        }
      }
    }
  }

  /** What is wrong with a repository name: nothing to name, or a bad segment on the way. */
  ghost predicate NameWrong(name: string, e: ParseError)
  {
    if e == MissingPath then name == "" || (BeginsWithHost(name) && Join(Split(name, '/')[1..], '/') == "")
    else exists host, path :: Locates(name, host, path) && FirstBad(Split(path, '/'), e)
  }

  lemma NameWrongIff(name: string, tag: string, digest: string, original: string, e: ParseError)
    ensures ParseName(name, tag, digest, original) == Err(e) <==> NameWrong(name, e)
  {
    hide IndexByte, LastIndexByte, Split, Join, HostAndPath, Qualified, SegmentError, FirstBad, BeginsWithHost;
    HostIs(name);
    SplitNothing();
    var (host, path0) := HostAndPath(name);
    var path := Qualified(host, path0);
    QualifiedIs(host, path0);
    SegmentErrorIff(Split(path, SLASH), e);
    if name != "" && path0 != "" { assert Locates(name, host, path); }
    NoMissing(Split(path, SLASH));
  }

  lemma NoMissing(segs: seq<string>)
    ensures !FirstBad(segs, MissingPath)
  {
  }

  /** Why a text is rejected. */
  ghost predicate WrongWith(s: string, e: ParseError)
  {
    match e
    case EmptyReference => s == ""
    case BadDigestPrefix =>
      exists name, rest :: CutAtDigest(s, name, rest) && !("sha256:" <= rest)
    case BadDigestHex =>
      exists name, rest :: CutAtDigest(s, name, rest) && "sha256:" <= rest && !Sha256Hex(rest[7..])
    case EmptyTag =>
      '@' !in s && exists name :: s == name + ":" && ':' !in LastPiece(name)
    case _ =>
      s != "" && exists name, tag, digest :: SpelledAs(s, name, tag, digest) && NameWrong(name, e)
  }

  /** What follows the last '@' of a text. */
  predicate CutAtDigest(s: string, name: string, rest: string)
  {
    s == name + "@" + rest && '@' !in rest
  }

  lemma CutAtDigestIs(s: string, name: string, rest: string)
    ensures CutAtDigest(s, name, rest) <==>
      var at := LastIndexByte(s, '@'); at >= 0 && name == s[..at] && rest == s[at + 1..]
  {
    hide LastIndexByte;
    if CutAtDigest(s, name, rest) {
      assert s == name + ['@'] + rest;
      LastSeparator(name, rest, '@');
      assert s[..|name|] == name && s[|name| + 1..] == rest;
    }
    var at := LastIndexByte(s, '@');
    if at >= 0 && name == s[..at] && rest == s[at + 1..] {
      assert s == name + "@" + rest;
    }
  }

  lemma EmptyTagIs(s: string)
    requires '@' !in s
    ensures (TagColon(s) >= 0 && TagColon(s) == |s| - 1) <==> exists name :: s == name + ":" && ':' !in LastPiece(name)
  {
    hide IndexByte, LastIndexByte, Split, Join, TagColon, LastPiece;
    var k := TagColon(s);
    if k >= 0 && k == |s| - 1 {
      TagColonIs(s);
      NameOfTagged(s, s[..k]);
      assert s == s[..k] + ":";
    }
    if name :| s == name + ":" && ':' !in LastPiece(name) {
      TaggedCut(name, "");
      assert s == name + ":" + "";
    }
  }

  /** The complaint comes from the digest or the tag, not from the name. */
  lemma WrongBeforeName(s: string, e: ParseError)
    requires !AboutName(e)
    ensures ParseSpec(s) == Err(e) <==> WrongWith(s, e)
  {
    hide IndexByte, LastIndexByte, Split, Join, TagColon, LastPiece, ParseName, SpelledAs, Sha256Hex, CutAtDigest, IsHex64;
    NamesNoDigestError(s);
    var at := LastIndexByte(s, '@');
    if at >= 0 {
      var rest := s[at + 1..];
      CutAtDigestIs(s, s[..at], rest);
      forall name, r | CutAtDigest(s, name, r) ensures name == s[..at] && r == rest { CutAtDigestIs(s, name, r); }
      if "sha256:" <= rest { HexIs(rest[7..]); }
    } else {
      forall name, r ensures !CutAtDigest(s, name, r) { CutAtDigestIs(s, name, r); }
      EmptyTagIs(s);
    }
  }

  lemma WrongInName(s: string, e: ParseError)
    requires AboutName(e)
    ensures ParseSpec(s) == Err(e) <==> WrongWith(s, e)
  {
    hide IndexByte, LastIndexByte, TagColon, ParseSpec, ParseName, SpelledAs, NameWrong;
    if ParseSpec(s) == Err(e) {
      var name, given, digest := ParsedIsSpelled(s);
      NameWrongIff(name, given, digest, s, e);
      if s == "" { NothingIsEmpty(s); }
    }
    if s != "" {
      forall name, tag, digest | SpelledAs(s, name, tag, digest) && NameWrong(name, e) ensures ParseSpec(s) == Err(e) {
        SpelledIsParsed(s, name, tag, digest);
        var given :| Given(s, name, tag, digest, given);
        NameWrongIff(name, given, digest, s, e);
      }
    }
  }

  lemma NothingIsEmpty(s: string)
    requires s == ""
    ensures ParseSpec(s) == Err(EmptyReference)
  {
  }

  /** A text is rejected with a complaint exactly if this is what is wrong with it. */
  lemma RejectsIff(s: string, e: ParseError)
    ensures ParseSpec(s) == Err(e) <==> WrongWith(s, e)
  {
    hide ParseSpec, WrongWith;
    if AboutName(e) { WrongInName(s, e); } else { WrongBeforeName(s, e); }
  }

  lemma NamesNoDigestError(s: string)
    ensures forall name, tag, digest :: ParseName(name, tag, digest, s).Err? ==> AboutName(ParseName(name, tag, digest, s).error)
  {
    forall name: string, tag: string, digest: string | ParseName(name, tag, digest, s).Err?
      ensures AboutName(ParseName(name, tag, digest, s).error)
    {
      SegmentErrors(Split(Qualified(HostAndPath(name).0, HostAndPath(name).1), SLASH));
    }
  }

  lemma {:induction false} SegmentErrors(segs: seq<string>)
    ensures SegmentError(segs).Some? ==> SegmentError(segs).value.EmptySegment? || SegmentError(segs).value.ReservedSegment?
    decreases |segs|
  {
    if segs != [] { SegmentErrors(segs[1..]); }
  }
}
