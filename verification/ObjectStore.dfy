/**
 The remote object store as its test stub implements it
 (internal/objectstore/test/objectstore_stub.go), and the checksums that the
 client compares with it (internal/objectstore/s3_complete_multipart_api.go,
 internal/objectstore/uploader.go). MD5 is an uninterpreted function `md5`.
 */
module ObjectStore {
  import opened Wrappers
  import opened Bytes

  type ETag = string
  type Path = string

  datatype Part = Part(number: nat, etag: ETag)

  // ---------------------------------------------------------------------------
  // Checksums
  // ---------------------------------------------------------------------------

  /** The digests of the listed parts, one after the other; None if one is not hexadecimal. */
  function Digests(parts: seq<Part>): Option<Bytes> {
    if parts == [] then Some([])
    else
      var front, last := parts[..|parts| - 1], parts[|parts| - 1];
      match (Digests(front), HexDecode(last.etag))
      case (Some(ds), Some(d)) => Some(ds + d)
      case _ => None
  }

  /** The md5 digests of the bodies, one after the other. */
  function BodyDigests(md5: Bytes -> Bytes, bodies: seq<Bytes>): Bytes {
    Concat(seq(|bodies|, i requires 0 <= i < |bodies| => md5(bodies[i])))
  }

  /** What S3 promises: hex(md5(md5(body1) ++ md5(body2) ++ ...)) "-" count. */
  function MultipartETag(md5: Bytes -> Bytes, bodies: seq<Bytes>): ETag {
    HexEncode(md5(BodyDigests(md5, bodies))) + "-" + Decimal(|bodies|)
  }

  /** The part list that describes `bodies` truthfully. */
  function PartsOf(md5: Bytes -> Bytes, bodies: seq<Bytes>): seq<Part> {
    seq(|bodies|, i requires 0 <= i < |bodies| => Part(i + 1, HexEncode(md5(bodies[i]))))
  }

  function BuildETag(md5: Bytes -> Bytes, parts: seq<Part>): Option<ETag> {
    match Digests(parts)
    case None => None
    case Some(ds) => Some(HexEncode(md5(ds)) + "-" + Decimal(|parts|))
  }

  lemma {:induction false} DigestsOfParts(md5: Bytes -> Bytes, bodies: seq<Bytes>)
    ensures Digests(PartsOf(md5, bodies)) == Some(BodyDigests(md5, bodies))
  {
    if bodies != [] {
      var n := |bodies| - 1;
      var front, last := bodies[..n], bodies[n];
      DigestsOfParts(md5, front);
      HexRoundTrip(md5(last));
      assert PartsOf(md5, bodies)[..n] == PartsOf(md5, front);
      var ds := seq(|bodies|, i requires 0 <= i < |bodies| => md5(bodies[i]));
      assert ds[..n] == seq(n, i requires 0 <= i < n => md5(front[i]));
    }
  }

  /** The ETag built from the part list is the one S3 promises for the bodies. */
  lemma BuildETagOfParts(md5: Bytes -> Bytes, bodies: seq<Bytes>)
    ensures BuildETag(md5, PartsOf(md5, bodies)) == Some(MultipartETag(md5, bodies))
  {
    DigestsOfParts(md5, bodies);
  }

  lemma DigestsOfTwo(md5: Bytes -> Bytes, x: Bytes, y: Bytes)
    ensures BodyDigests(md5, [x, y]) == md5(x) + md5(y)
  {
    var bodies := [x, y];
    var digests := seq(|bodies|, i requires 0 <= i < |bodies| => md5(bodies[i]));
    assert digests == [md5(x)] + [md5(y)] && [] + [md5(x)] == [md5(x)];
    ConcatAppend([md5(x)], md5(y));
    ConcatAppend([], md5(x));
  }

  /** The form of a multipart ETag, written out for two parts. */
  lemma ETagOfTwoParts(md5: Bytes -> Bytes, x: Bytes, y: Bytes)
    ensures BuildETag(md5, [Part(1, HexEncode(md5(x))), Part(2, HexEncode(md5(y)))])
            == Some(HexEncode(md5(md5(x) + md5(y))) + "-2")
  {
    assert PartsOf(md5, [x, y]) == [Part(1, HexEncode(md5(x))), Part(2, HexEncode(md5(y)))];
    hide HexEncode, BuildETag, BodyDigests, PartsOf;
    BuildETagOfParts(md5, [x, y]);
    DigestsOfTwo(md5, x, y);
    assert Decimal(2) == "2";
    var tag := HexEncode(md5(md5(x) + md5(y)));
    assert tag + "-" + "2" == tag + "-2";
  }

  lemma PartsOfAppend(md5: Bytes -> Bytes, bodies: seq<Bytes>, body: Bytes)
    ensures PartsOf(md5, bodies + [body])
            == PartsOf(md5, bodies) + [Part(|bodies| + 1, HexEncode(md5(body)))]
  {
  }

  /** The loop feeds the hasher part by part and stops at the first bad digest. */
  method BuildMultipartUploadETag(md5: Bytes -> Bytes, parts: seq<Part>)
    returns (etag: Option<ETag>)
    ensures etag == BuildETag(md5, parts)
    ensures forall bodies :: parts == PartsOf(md5, bodies) ==> etag == Some(MultipartETag(md5, bodies))
  {
    var hashed: Bytes := [];
    for i := 0 to |parts|
      invariant Digests(parts[..i]) == Some(hashed)
    {
      assert parts[..i + 1][..i] == parts[..i];
      var checksum := HexDecode(parts[i].etag);
      if checksum == None {
        DigestsPrefix(parts, i + 1);
        forall bodies | parts == PartsOf(md5, bodies) ensures false {
          DigestsOfParts(md5, bodies);
        }
        return None;
      }
      hashed := hashed + checksum.value;
    }
    assert parts[..|parts|] == parts;
    etag := Some(HexEncode(md5(hashed)) + "-" + Decimal(|parts|));
    forall bodies | parts == PartsOf(md5, bodies)
      ensures etag == Some(MultipartETag(md5, bodies))
    {
      BuildETagOfParts(md5, bodies);
    }
  }

  lemma {:induction false} DigestsPrefix(parts: seq<Part>, n: nat)
    requires n <= |parts| && Digests(parts[..n]) == None
    ensures Digests(parts) == None
    decreases |parts|
  {
    if n == |parts| {
      assert parts[..n] == parts;
    } else {
      assert parts[..|parts| - 1][..n] == parts[..n];
      DigestsPrefix(parts[..|parts| - 1], n);
    }
  }

  /**
   The value of an ETag header without its quotes. A header that is a single
   quote makes the slice expression of the source panic; that is None here.
   */
  function ExtractETag(raw: string): Option<ETag> {
    if raw != "" && raw[0] == '"' then
      if |raw| < 2 then None else Some(raw[1..|raw| - 1])
    else Some(raw)
  }

  function HeaderFor(etag: ETag, quoted: bool): string {
    if quoted then "\"" + etag + "\"" else etag
  }

  lemma ExtractUndoesHeader(etag: ETag, quoted: bool)
    requires !quoted ==> etag == "" || etag[0] != '"'
    ensures ExtractETag(HeaderFor(etag, quoted)) == Some(etag)
  {
    if quoted {
      assert ("\"" + etag + "\"")[1..|etag| + 1] == etag;
    }
  }

  /** What each header is taken for; a lone quote is the one that crashes. */
  lemma ExtractsExactly(tag: ETag, raw: string)
    ensures ExtractETag("\"" + tag + "\"") == Some(tag)
    ensures ExtractETag(raw) == None <==> raw == "\""
    ensures raw == "" || raw[0] != '"' ==> ExtractETag(raw) == Some(raw)
  {
    ExtractUndoesHeader(tag, true);
  }

  // ---------------------------------------------------------------------------
  // One path of the store
  // ---------------------------------------------------------------------------

  /** An upload in progress (part number to ETag) and a finished object. */
  datatype Entry = Entry(multipart: Option<map<nat, ETag>>, stored: Option<ETag>)

  function Put(e: Entry, number: nat, etag: ETag): Entry {
    match e.multipart
    case Some(m) => e.(multipart := Some(m[number := etag]))
    case None => e.(stored := Some(etag))
  }

  /** A part is kept under its number beside the others; without an upload it is the object. */
  lemma PutKeepsTheRest(e: Entry, number: nat, etag: ETag)
    ensures var e' := Put(e, number, etag);
            && (e.multipart.None? ==> e' == Entry(None, Some(etag)))
            && (e.multipart.Some? ==>
                  && e'.stored == e.stored && e'.multipart.Some? && number in e'.multipart.value
                  && e'.multipart.value[number] == etag
                  && e'.multipart.value - {number} == e.multipart.value - {number})
  {
    if e.multipart.Some? {
      assert Put(e, number, etag).multipart.value - {number} == e.multipart.value - {number};
    }
  }

  predicate Agrees(m: map<nat, ETag>, parts: seq<Part>) {
    forall p | p in parts :: p.etag == (if p.number in m then m[p.number] else "")
  }

  /** None is a refusal: unknown upload or a part that does not agree. */
  function Complete(e: Entry, parts: seq<Part>, etag: ETag): Option<Entry> {
    match e.multipart
    case Some(m) => if Agrees(m, parts) then Some(Entry(None, Some(etag))) else None
    case None => None
  }

  function Remove(e: Entry): Entry {
    if e.multipart.Some? then e.(multipart := None) else e.(stored := None)
  }

  datatype Completion = Refused | InternalError | Completed(etag: ETag)

  /** After its first slash the path has a second one, between bucket and key. */
  predicate HasKey(path: Path) {
    path != "" && '/' in path[1..]
  }

  /** A key is what follows the slash behind the bucket; the slash at the start of the path counts to that. */
  lemma HasKeyIff(path: Path)
    ensures HasKey(path) <==> exists bucket: string, key :: 0 < |bucket| && path == bucket + "/" + key
  {
    if HasKey(path) {
      var k :| 0 <= k < |path[1..]| && path[1..][k] == '/';
      assert path == path[..k + 1] + "/" + path[k + 2..];
    }
    forall bucket: string, key | 0 < |bucket| && path == bucket + "/" + key
      ensures HasKey(path)
    {
      assert path[1..][|bucket| - 1] == '/';
    }
  }

  /** The stub: maps from paths, changed request by request under a mutex. */
  class ObjectstoreStub {
    const md5: Bytes -> Bytes
    const overwriteMD5: map<Path, ETag>
    var bucket: map<Path, ETag>
    var multipart: map<Path, map<nat, ETag>>
    var puts: nat
    var deletes: nat

    ghost function At(path: Path): Entry
      reads this
    {
      Entry(if path in multipart then Some(multipart[path]) else None,
            if path in bucket then Some(bucket[path]) else None)
    }

    constructor (md5: Bytes -> Bytes, overwriteMD5: map<Path, ETag>)
      ensures this.md5 == md5 && this.overwriteMD5 == overwriteMD5
      ensures forall p :: At(p) == Entry(None, None)
      ensures puts == 0 && deletes == 0
    {
      this.md5, this.overwriteMD5 := md5, overwriteMD5;
      bucket, multipart, puts, deletes := map[], map[], 0, 0;
    }

    method InitiateMultipartUpload(path: Path) returns (ok: bool)
      modifies this
      ensures ok == old(At(path)).multipart.None?
      ensures At(path) == if ok then old(At(path)).(multipart := Some(map[])) else old(At(path))
      ensures forall p :: p != path ==> At(p) == old(At(p))
      ensures puts == old(puts) && deletes == old(deletes)
    {
      ok := path !in multipart;
      if ok {
        multipart := multipart[path := map[]];
      }
    }

    method PutObject(path: Path, number: nat, body: Bytes) returns (etag: ETag)
      modifies this
      ensures etag == if path in overwriteMD5 then overwriteMD5[path] else HexEncode(md5(body))
      ensures At(path) == Put(old(At(path)), number, etag)
      ensures forall p :: p != path ==> At(p) == old(At(p))
      ensures puts == old(puts) + 1 && deletes == old(deletes)
    {
      etag := if path in overwriteMD5 then overwriteMD5[path] else HexEncode(md5(body));
      puts := puts + 1;
      if path in multipart {
        var recorded: map<nat, ETag> := multipart[path];
        multipart := multipart[path := recorded[number := etag]];
      } else {
        bucket := bucket[path := etag];
      }
    }

    /** The ETag of the completed object; None when a listed tag is not hexadecimal. */
    function ObjectETag(path: Path, parts: seq<Part>): Option<ETag> {
      if path in overwriteMD5 then Some(overwriteMD5[path]) else BuildETag(md5, parts)
    }

    /**
     Parts are checked one by one against what was uploaded. A path without a key is
     completed like any other, but answered with an error in the body.
     */
    method CompleteMultipartUpload(path: Path, parts: seq<Part>) returns (answer: Completion)
      modifies this
      ensures var tag := ObjectETag(path, parts);
              if tag.Some? && Complete(old(At(path)), parts, tag.value).Some? then
                && Some(At(path)) == Complete(old(At(path)), parts, tag.value)
                && answer == (if HasKey(path) then Completed(tag.value) else InternalError)
              else answer == Refused && At(path) == old(At(path))
      ensures forall p :: p != path ==> At(p) == old(At(p))
      ensures puts == old(puts) && deletes == old(deletes)
    {
      if path !in multipart {
        return Refused;
      }
      var recorded := multipart[path];
      for i := 0 to |parts|
        invariant Agrees(recorded, parts[..i])
        invariant At(path) == old(At(path))
        invariant forall p :: p != path ==> At(p) == old(At(p))
        invariant puts == old(puts) && deletes == old(deletes)
      {
        var known := if parts[i].number in recorded then recorded[parts[i].number] else "";
        if known != parts[i].etag {
          assert parts[i] in parts;
          return Refused;
        }
      }
      assert parts[..|parts|] == parts;
      var tag: Option<ETag>;
      if path in overwriteMD5 {
        tag := Some(overwriteMD5[path]);
      } else {
        tag := BuildMultipartUploadETag(md5, parts);
        if tag == None {
          return Refused;
        }
      }
      bucket := bucket[path := tag.value];
      multipart := multipart - {path};
      answer := if HasKey(path) then Completed(tag.value) else InternalError;
    }

    /** An upload in progress goes first, a finished object otherwise. */
    method RemoveObject(path: Path) returns (found: bool)
      modifies this
      ensures found == (old(At(path)) != Entry(None, None))
      ensures At(path) == Remove(old(At(path)))
      ensures deletes == old(deletes) + (if found then 1 else 0)
      ensures forall p :: p != path ==> At(p) == old(At(p))
      ensures puts == old(puts)
    {
      if path in multipart {
        deletes := deletes + 1;
        multipart := multipart - {path};
        found := true;
      } else if path in bucket {
        deletes := deletes + 1;
        bucket := bucket - {path};
        found := true;
      } else {
        found := false;
      }
    }
  }
}
