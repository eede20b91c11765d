/** OCI image layouts: the index of a dump, its manifest, and the closure of descriptors. */
module OciImage {
  import opened Base
  import opened Text
  import opened SlashPath
  import opened Digests
  import opened Transfer
  import opened Workers
  import opened ImageRefs
  import opened Layout
  import opened Vfs
  import opened OciDirs

  datatype Descriptor = Descriptor(mediaType: string, digest: Digest, size: int)

  datatype Manifest = Manifest(mediaType: string, config: Descriptor, layers: seq<Descriptor>)

  datatype Index = Index(manifests: seq<Descriptor>)

  datatype ImageLayout = ImageLayout(version: string)

  /** A decoded manifest document before it is checked: it may still be an index or a list. */
  datatype Document = Document(mediaType: string, indexEntries: nat, manifest: Manifest)

  /** JSON decoding and encoding, and the hash, as the program's libraries provide them. */
  datatype Codec = Codec(
    decodeIndex: Bytes -> Option<Index>,
    encodeIndex: Index -> Bytes,
    decodeLayout: Bytes -> Option<ImageLayout>,
    encodeLayout: ImageLayout -> Bytes,
    decodeDocument: Bytes -> Option<Document>,
    digestBytes: Bytes -> Digest)

  /** Decoding what was encoded gives it back. */
  ghost predicate RoundTrips(codec: Codec)
  {
    && (forall i :: codec.decodeIndex(codec.encodeIndex(i)) == Some(i))
    && (forall l :: codec.decodeLayout(codec.encodeLayout(l)) == Some(l))
  }

  const MEDIA_TYPE_IMAGE_INDEX := "application/vnd.oci.image.index.v1+json"
  const MEDIA_TYPE_DOCKER_LIST := "application/vnd.docker.distribution.manifest.list.v2+json"

  datatype ReadError =
    | NoSuchFile
    | BadJson
    | EmptyIndex
    | NoLayoutVersion
    | NoManifestDigest
    | MissingManifestBlob
    | UnreadableManifestBlob
    | EmptyManifest
    | IndexNotManifest
    | NoConfigDigest
    | ReadFailed

  function ParseManifest(codec: Codec, data: Bytes): Result<Manifest, ReadError>
  {
    if data == [] then Err(EmptyManifest)
    else match codec.decodeDocument(data)
      case None => Err(BadJson)
      case Some(doc) =>
        if doc.mediaType == MEDIA_TYPE_IMAGE_INDEX || doc.mediaType == MEDIA_TYPE_DOCKER_LIST
        then Err(IndexNotManifest)
        else if doc.indexEntries > 0 && doc.mediaType == "" then Err(IndexNotManifest)
        else if doc.manifest.config.digest == "" then Err(NoConfigDigest)
        else Ok(doc.manifest)
  }

  /** The file at `name` in the dump directory `dir`. */
  function DumpFile(files: Files, dir: string, name: string): Option<Bytes>
  {
    match KeyOf(JoinPath([dir, name]))
    case None => None
    case Some(k) => Lookup(files, k)
  }

  function ReadIndex(codec: Codec, files: Files, dir: string): Result<Index, ReadError>
  {
    match DumpFile(files, dir, "index.json")
    case None => Err(NoSuchFile)
    case Some(data) =>
      (match codec.decodeIndex(data)
       case None => Err(BadJson)
       case Some(idx) => if idx.manifests == [] then Err(EmptyIndex) else Ok(idx))
  }

  function ReadImageLayout(codec: Codec, files: Files, dir: string): Result<ImageLayout, ReadError>
  {
    match DumpFile(files, dir, "oci-layout")
    case None => Err(NoSuchFile)
    case Some(data) =>
      (match codec.decodeLayout(data)
       case None => Err(BadJson)
       case Some(l) => if l.version == "" then Err(NoLayoutVersion) else Ok(l))
  }

  /** The manifest descriptor of a dump and the manifest its blob holds. */
  function ReadManifest(codec: Codec, files: Files, dir: string): Result<(Descriptor, Manifest), ReadError>
  {
    match ReadIndex(codec, files, dir)
    case Err(e) => Err(e)
    case Ok(idx) =>
      var mDesc := idx.manifests[0];
      if mDesc.digest == "" then Err(NoManifestDigest)
      else match ReadBlob(files, mDesc.digest, 0)
        case Err(BlobMissing) => Err(MissingManifestBlob)
        case Err(_) => Err(UnreadableManifestBlob)
        case Ok((data, _)) =>
          (match ParseManifest(codec, data)
           case Err(e) => Err(e)
           case Ok(man) => Ok((mDesc, man)))
  }

  /** The same from a store in use: opening or reading one of the two files may fail. */
  method LoadManifest(codec: Codec, fs: Fs, dir: string) returns (r: Result<(Descriptor, Manifest), ReadError>)
    modifies fs`faulty
    ensures r == ReadManifest(codec, fs.files, dir) || r == Err(ReadFailed)
    ensures fs.faulty == (old(fs.faulty) || r != ReadManifest(codec, fs.files, dir))
  {
    var fails := fs.Falters();
    if fails { return Err(ReadFailed); }
    return ReadManifest(codec, fs.files, dir);
  }

  /** Every descriptor reachable from one manifest. */
  function AllDescriptors(mDesc: Descriptor, m: Manifest): seq<Descriptor>
  {
    [mDesc, m.config] + m.layers
  }

  function DigestSet(descs: seq<Descriptor>): set<Digest>
  {
    set i | 0 <= i < |descs| :: descs[i].digest
  }

  /** The digests of the closure of the image dumped at `dir`, if it can be read. */
  function Closure(codec: Codec, files: Files, dir: string): set<Digest>
  {
    match ReadManifest(codec, files, dir)
    case Err(_) => {}
    case Ok((mDesc, man)) => DigestSet(AllDescriptors(mDesc, man))
  }

  // --------------------------------------------------------------------- tag files

  /** The two files a dump directory consists of. */
  predicate IsTagFile(name: string)
  {
    name == "index.json" || name == "oci-layout"
  }

  lemma TagFileKey(dir: string, name: string)
    requires dir != "" && IsTagFile(name)
    ensures KeyOf(JoinPath([dir, name])) ==
      match KeyOf(dir) { case None => None case Some(k) => Some(k + [name]) }
  {
    KeyOfJoin(dir, name);
  }

  /** No tag file, of whatever dump directory, is a file of the blob pool. */
  lemma TagFileNotInPool(dir: string, name: string)
    requires dir != "" && IsTagFile(name) && KeyOf(JoinPath([dir, name])).Some?
    ensures !IsPoolKey(KeyOf(JoinPath([dir, name])).value)
  {
    hide KeyOf, JoinPath;
    TagFileKey(dir, name);
    var t := KeyOf(dir).value + [name];
    assert t[|t| - 1] == name;
    assert |name| == 10;
  }

  /** Tag files of dump directories at different places are different files. */
  lemma TagFilesDiffer(dir: string, dir2: string, name: string, name2: string)
    requires dir != "" && dir2 != "" && IsTagFile(name) && IsTagFile(name2)
    requires KeyOf(dir) != KeyOf(dir2)
    requires KeyOf(JoinPath([dir, name])).Some?
    ensures KeyOf(JoinPath([dir, name])) != KeyOf(JoinPath([dir2, name2]))
  {
    TagFileKey(dir, name);
    TagFileKey(dir2, name2);
    if KeyOf(dir2).Some? {
      var k, l := KeyOf(dir).value, KeyOf(dir2).value;
      assert (k + [name])[..|k|] == k && (l + [name2])[..|l|] == l;
    }
  }

  /** Reading a manifest looks at the index file and at one blob, and at nothing else. */
  lemma ReadManifestDependsOn(codec: Codec, a: Files, b: Files, dir: string)
    requires DumpFile(a, dir, "index.json") == DumpFile(b, dir, "index.json")
    requires ReadManifest(codec, a, dir).Ok?
    requires var d := ReadManifest(codec, a, dir).value.0.digest;
      Lookup(a, FinalKey(d)) == Lookup(b, FinalKey(d))
    ensures ReadManifest(codec, b, dir) == ReadManifest(codec, a, dir)
  {
  }

  // ------------------------------------------------------------------------ spelled out

  /** Which digests an image consists of: its manifest, its config, and every layer. */
  lemma ClosureMembers(mDesc: Descriptor, man: Manifest, d: Digest)
    ensures d in DigestSet(AllDescriptors(mDesc, man)) <==>
      || d == mDesc.digest
      || d == man.config.digest
      || exists i :: 0 <= i < |man.layers| && man.layers[i].digest == d
  {
    var descs := AllDescriptors(mDesc, man);
    assert descs[0] == mDesc && descs[1] == man.config;
    assert forall i :: 0 <= i < |man.layers| ==> descs[i + 2] == man.layers[i];
    if d in DigestSet(descs) {
      var j :| 0 <= j < |descs| && descs[j].digest == d;
      if j >= 2 { assert man.layers[j - 2].digest == d; }
    }
    if i :| 0 <= i < |man.layers| && man.layers[i].digest == d { assert descs[i + 2].digest == d; }
  }

  /** A document of these bytes is taken for the manifest `man`: no index or list, and with a config. */
  predicate IsManifestOf(codec: Codec, data: Bytes, man: Manifest)
  {
    && data != []
    && codec.decodeDocument(data).Some?
    && var doc := codec.decodeDocument(data).value;
      && doc.manifest == man && man.config.digest != ""
      && doc.mediaType != "application/vnd.oci.image.index.v1+json"
      && doc.mediaType != "application/vnd.docker.distribution.manifest.list.v2+json"
      && (doc.mediaType == "" ==> doc.indexEntries == 0)
  }

  lemma ManifestIff(codec: Codec, data: Bytes, man: Manifest)
    ensures ParseManifest(codec, data) == Ok(man) <==> IsManifestOf(codec, data, man)
  {
  }

  /**
    The image dumped at the place `k`: the first entry of its index names the manifest, a
    well-formed digest whose pool file holds the manifest's document.
   */
  predicate DumpedAt(codec: Codec, files: Files, k: Key, mDesc: Descriptor, man: Manifest)
  {
    && k + ["index.json"] in files
    && codec.decodeIndex(files[k + ["index.json"]]).Some?
    && var entries := codec.decodeIndex(files[k + ["index.json"]]).value.manifests;
      && entries != [] && entries[0] == mDesc
      && ValidDigest(mDesc.digest) && FinalKey(mDesc.digest) in files
      && IsManifestOf(codec, files[FinalKey(mDesc.digest)], man)
  }

  lemma ManifestDigestNotEmpty(d: Digest)
    ensures ValidDigest(d) ==> d != ""
  {
  }

  /** Reading an image is finding it there. */
  lemma ReadIff(codec: Codec, files: Files, dir: string, k: Key, mDesc: Descriptor, man: Manifest)
    requires dir != "" && KeyOf(dir) == Some(k)
    ensures ReadManifest(codec, files, dir) == Ok((mDesc, man)) <==> DumpedAt(codec, files, k, mDesc, man)
  {
    hide KeyOf, JoinPath, ParseManifest, IsManifestOf, ValidDigest, FinalKey;
    TagFileKey(dir, "index.json");
    ManifestDigestNotEmpty(mDesc.digest);
    if FinalKey(mDesc.digest) in files {
      ManifestIff(codec, files[FinalKey(mDesc.digest)], man);
      assert files[FinalKey(mDesc.digest)][0..] == files[FinalKey(mDesc.digest)];
    }
  }

  /** A directory with no place of its own has no image. */
  lemma NoPlaceNoImage(codec: Codec, files: Files, dir: string)
    requires dir != "" && KeyOf(dir) == None
    ensures ReadManifest(codec, files, dir).Err? && ReadImageLayout(codec, files, dir).Err?
  {
    hide KeyOf, JoinPath;
    TagFileKey(dir, "index.json");
    TagFileKey(dir, "oci-layout");
  }

  /** And its layout document is the decoded file, with a version. */
  lemma LayoutIff(codec: Codec, files: Files, dir: string, k: Key, l: ImageLayout)
    requires dir != "" && KeyOf(dir) == Some(k)
    ensures ReadImageLayout(codec, files, dir) == Ok(l) <==>
      k + ["oci-layout"] in files && codec.decodeLayout(files[k + ["oci-layout"]]) == Some(l) && l.version != ""
  {
    hide KeyOf, JoinPath;
    TagFileKey(dir, "oci-layout");
  }

  /** A blob is read if its digest is well-formed, its pool file exists and is long enough. */
  lemma BlobReadIff(files: Files, d: Digest, offset: int, rest: Bytes, size: nat)
    ensures ReadBlob(files, d, offset) == Ok((rest, size)) <==>
      && ValidDigest(d) && FinalKey(d) in files
      && 0 <= offset && size == |files[FinalKey(d)]| && offset <= size
      && rest == files[FinalKey(d)][offset..]
  {
  }
}
