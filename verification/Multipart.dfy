/**
 The uploading goroutine as the sequential program it is
 (internal/objectstore/multipart.go): a loop over part URLs, a drain and the
 completion, against the store of the test stub. The pipe is the stream it will
 deliver until its end; requests listed in `lost` get no answer, and the answer to a
 part is compared when `seen` bytes of it have been hashed.
 */
module Multipart {
  import opened Wrappers
  import opened Bytes
  import opened ObjectStore
  import opened PartArithmetic
  import opened UploadPipeline
  import opened UploadSafety

  class Multipart {
    const cfg: Config
    const store: ObjectstoreStub
    const path: Path
    const lost: set<nat>          // part numbers whose PUT fails; 0 is the completion
    const seen: nat -> nat
    var pipe: Bytes               // not read yet
    var part: seq<Part>           // cmu.Part
    var etag: ETag
    var uploadError: Option<UploadError>
    ghost var bodies: seq<Bytes>
    ghost var checked: seq<Bytes> // what of each body was hashed at the comparison

    constructor (cfg: Config, store: ObjectstoreStub, path: Path, lost: set<nat>, seen: nat -> nat)
      requires cfg.Valid() && store.md5 == cfg.md5
      ensures this.cfg == cfg && this.store == store && this.path == path && this.lost == lost && this.seen == seen
      ensures pipe == cfg.content && part == [] && etag == "" && uploadError == None && bodies == checked == []
    {
      this.cfg, this.store, this.path, this.lost, this.seen := cfg, store, path, lost, seen;
      pipe, part, etag, uploadError, bodies, checked := cfg.content, [], "", None, [], [];
    }

    /** The stub answers, if at all, with the true checksum of the whole body. */
    ghost predicate Truthful() {
      path !in store.overwriteMD5 && HasKey(path) && forall n: nat :: seen(n) >= cfg.partSize
    }

    ghost predicate Valid()
      reads this
    {
      && cfg.Valid() && store.md5 == cfg.md5 && part == PartsOf(cfg.md5, checked)
      && (path !in store.overwriteMD5 ==> part == PartsOf(cfg.md5, bodies))
      && Prefixes(checked, bodies) && CutSoFar(cfg, bodies, pipe)
    }

    ghost predicate Uploading()
      reads this, store
    {
      && store.At(path).multipart.Some? && Agrees(store.At(path).multipart.value, part)
    }

    function Hashed(number: nat, body: Bytes): Bytes {
      if seen(number) < |body| then body[..seen(number)] else body
    }

    /** One PUT; the answer must be the checksum of what has been hashed by then. */
    method UploadPart(number: nat, body: Bytes) returns (answer: Option<ETag>)
      requires store.md5 == cfg.md5
      modifies store
      ensures answer.Some? ==>
                && answer.value == HexEncode(cfg.md5(Hashed(number, body)))
                && (path !in store.overwriteMD5 ==> answer.value == HexEncode(cfg.md5(body)))
                && store.At(path) == Put(old(store.At(path)), number, answer.value)
      ensures number in lost ==> answer.None?
      ensures answer.None? && |body| <= cfg.partSize ==> number in lost || !Truthful()
    {
      if number in lost {
        return None;
      }
      var header := store.PutObject(path, number, body);
      return if header == HexEncode(cfg.md5(Hashed(number, body))) then Some(header) else None;
    }

    /** Buffers at most partSize bytes and sends them; an empty read is no part. */
    method ReadAndUploadOnePart(number: nat) returns (ok: bool, sent: bool)
      requires Valid() && uploadError == None && |bodies| < cfg.urls && number == |bodies| + 1
      requires Uploading()
      modifies this`pipe, this`part, this`bodies, this`checked, this`uploadError, store
      ensures ok ==> Valid() && Uploading() && uploadError == None
      ensures ok && !sent ==> pipe == [] && bodies == old(bodies)
      ensures ok && sent ==> |bodies| == number
      ensures !ok <==> uploadError == Some(PartFailed)
      ensures ok ==> store.At(path).stored == old(store.At(path).stored)
      ensures !ok ==> (number in lost && old(pipe) != []) || !Truthful()
      ensures ok && sent ==> number !in lost
    {
      hide CutSoFar, Agrees, PartsOf, HexEncode, Prefixes;
      var n := if |pipe| < cfg.partSize then |pipe| else cfg.partSize;
      var body := pipe[..n];
      if n == 0 {
        return true, false;
      }
      ghost var before := store.At(path).multipart.value;
      var answer := UploadPart(number, body);
      if answer == None {
        uploadError := Some(PartFailed);
        return false, false;
      }
      NextBody(cfg, bodies, pipe, n);
      AgreesAfterPut(before, cfg.md5, checked, Hashed(number, body));
      PartsOfAppend(cfg.md5, checked, Hashed(number, body));
      PartsOfAppend(cfg.md5, bodies, body);
      PrefixesAppend(checked, bodies, Hashed(number, body), body);
      pipe := pipe[n..];
      part := part + [Part(number, answer.value)];
      bodies, checked := bodies + [body], checked + [Hashed(number, body)];
      return true, true;
    }

    /** POST of the part list; the answer must be the ETag built from that list. */
    method CompleteUpload()
      requires Valid() && uploadError == None && pipe == []
      modifies this`etag, this`uploadError, store
      ensures uploadError in {None, Some(CompleteFailed), Some(ETagMismatch)}
      ensures uploadError == None ==>
                && etag == MultipartETag(cfg.md5, checked)
                && store.At(path) == Entry(None, Some(etag))
      ensures 0 in lost ==> uploadError == Some(CompleteFailed)
      ensures Truthful() && old(Uploading()) && 0 !in lost ==> uploadError == None
    {
      if 0 in lost {
        uploadError := Some(CompleteFailed);
        return;
      }
      BuildETagOfParts(cfg.md5, checked);
      var answer := store.CompleteMultipartUpload(path, part);
      if !answer.Completed? {
        uploadError := Some(CompleteFailed);
        return;
      }
      etag := answer.etag;
      var expected := BuildMultipartUploadETag(cfg.md5, part);
      if expected != Some(etag) {
        uploadError := Some(ETagMismatch);
      }
    }

    /** The loop over the part URLs: up to the end of the stream, the last URL or a failure. */
    method SendParts() returns (ok: bool)
      requires Valid() && Uploading() && uploadError == None && bodies == []
      modifies this`pipe, this`part, this`bodies, this`checked, this`uploadError, store
      ensures ok ==> Valid() && Uploading() && uploadError == None && (pipe == [] || |bodies| == cfg.urls)
      ensures ok ==> store.At(path).stored == old(store.At(path).stored)
      ensures ok ==> forall n :: 1 <= n <= |bodies| ==> n !in lost
      ensures !ok ==> uploadError == Some(PartFailed) && (Truthful() ==> PartLost(cfg, lost))
    {
      hide CutSoFar, Agrees, PartsOf, Prefixes, PartCount;
      var i := 0;
      while i < cfg.urls
        invariant Valid() && Uploading() && uploadError == None
        invariant i == |bodies| <= cfg.urls
        invariant store.At(path).stored == old(store.At(path).stored)
        invariant forall n :: 1 <= n <= i ==> n !in lost
      {
        PartIsDue(cfg, bodies, pipe);
        var sent;
        ok, sent := ReadAndUploadOnePart(i + 1);
        if !ok {
          return;
        }
        if !sent {
          return true;
        }
        i := i + 1;
      }
      ok := true;
    }

    /**
     The goroutine. Whatever requests are lost and tags overwritten, success means
     that the whole stream was sent in parts of the exact size and completed under the
     ETag of what was hashed of them; the stub's own tags are those of the whole bodies.
     A stream is called too long only if it is, and a lost request is reported as the
     failure of its part or of the completion. With a truthful store the outcome is
     exactly that of the first request that is lost, and else that of the sizes.
     */
    method Upload()
      requires Valid() && Uploading() && uploadError == None && bodies == []
      modifies this`pipe, this`part, this`bodies, this`checked, this`etag, this`uploadError, store
      ensures uploadError == None ==>
                && bodies == Cut(cfg.content, cfg.partSize) && Prefixes(checked, bodies)
                && part == PartsOf(cfg.md5, checked)
                && (path !in store.overwriteMD5 ==> part == PartsOf(cfg.md5, bodies))
                && etag == MultipartETag(cfg.md5, checked)
                && store.At(path) == Entry(None, Some(etag))
                && |cfg.content| <= cfg.urls * cfg.partSize
      ensures uploadError == Some(NotEnoughParts) ==>
                && |cfg.content| > cfg.urls * cfg.partSize
                && Uploading() && store.At(path).stored == old(store.At(path).stored)
      ensures |cfg.content| > cfg.urls * cfg.partSize ==>
                uploadError == Some(PartFailed) || uploadError == Some(NotEnoughParts)
      ensures PartLost(cfg, lost) ==> uploadError == Some(PartFailed)
      ensures 0 in lost && |cfg.content| <= cfg.urls * cfg.partSize ==>
                uploadError == Some(PartFailed) || uploadError == Some(CompleteFailed)
      ensures Truthful() ==>
                && (uploadError == Some(PartFailed) <==> PartLost(cfg, lost))
                && (uploadError == Some(NotEnoughParts) <==>
                      !PartLost(cfg, lost) && |cfg.content| > cfg.urls * cfg.partSize)
                && (uploadError == None <==>
                      !PartLost(cfg, lost) && 0 !in lost && |cfg.content| <= cfg.urls * cfg.partSize)
                && uploadError != Some(ETagMismatch) && uploadError != Some(TempFile)
    {
      hide Agrees, PartsOf, Prefixes, Cut, IsCut, AllFull;
      var ok := SendParts();
      if !ok {
        return;
      }
      AllSent(cfg, bodies, pipe, lost);
      if pipe != [] {   // io.Copy to Discard finds something
        pipe := [];
        uploadError := Some(NotEnoughParts);
        return;
      }
      CompleteUpload();
    }
  }

  /** The PUT of a part that the stream needs, and that there is a URL for, gets no answer. */
  predicate PartLost(cfg: Config, lost: set<nat>)
    requires cfg.Valid()
  {
    exists n :: n in lost && 1 <= n <= PartCount(|cfg.content|, cfg.partSize) && n <= cfg.urls
  }

  /** A stream that is not at its end needs one more part. */
  lemma PartIsDue(cfg: Config, bodies: seq<Bytes>, pipe: Bytes)
    requires cfg.Valid() && CutSoFar(cfg, bodies, pipe)
    ensures pipe != [] ==> |bodies| < PartCount(|cfg.content|, cfg.partSize)
  {
    if pipe != [] {
      FullLength(bodies, cfg.partSize);
      var k := |bodies|;
      var n := |cfg.content| + cfg.partSize - 1;
      assert n >= (k + 1) * cfg.partSize;
      if n / cfg.partSize < k + 1 {
        Monotone(n / cfg.partSize + 1, k + 1, cfg.partSize);
      }
    }
  }

  /** What the loop has left when no part has failed. */
  lemma AllSent(cfg: Config, bodies: seq<Bytes>, pipe: Bytes, lost: set<nat>)
    requires cfg.Valid() && CutSoFar(cfg, bodies, pipe) && (pipe == [] || |bodies| == cfg.urls)
    requires forall n :: 1 <= n <= |bodies| ==> n !in lost
    ensures pipe == [] <==> |cfg.content| <= cfg.urls * cfg.partSize
    ensures pipe == [] ==> bodies == Cut(cfg.content, cfg.partSize)
    ensures !PartLost(cfg, lost)
  {
    if pipe == [] {
      assert cfg.content == Concat(bodies);
      CutIsUnique(bodies, cfg.partSize);
      CutLength(bodies, cfg.partSize, cfg.urls);
    } else {
      FullLength(bodies, cfg.partSize);
    }
  }

  /** The bodies sent are a cut of what has been read, the rest is still in the pipe. */
  predicate CutSoFar(cfg: Config, bodies: seq<Bytes>, pipe: Bytes) {
    && cfg.content == Concat(bodies) + pipe
    && IsCut(bodies, cfg.partSize) && |bodies| <= cfg.urls
    && (AllFull(bodies, cfg.partSize) || pipe == [])
  }

  lemma NextBody(cfg: Config, bodies: seq<Bytes>, pipe: Bytes, n: nat)
    requires CutSoFar(cfg, bodies, pipe) && |bodies| < cfg.urls
    requires 0 < n <= |pipe| && (n == cfg.partSize || (n == |pipe| && n < cfg.partSize))
    ensures CutSoFar(cfg, bodies + [pipe[..n]], pipe[n..])
  {
    ExtendCut(bodies, pipe[..n], cfg.partSize);
    ConcatAppend(bodies, pipe[..n]);
    assert pipe == pipe[..n] + pipe[n..];
    assert cfg.content == Concat(bodies + [pipe[..n]]) + pipe[n..];
  }

  lemma AgreesAfterPut(m: map<nat, ETag>, md5: Bytes -> Bytes, bodies: seq<Bytes>, body: Bytes)
    requires Agrees(m, PartsOf(md5, bodies))
    ensures Agrees(m[|bodies| + 1 := HexEncode(md5(body))], PartsOf(md5, bodies + [body]))
  {
    var m' := m[|bodies| + 1 := HexEncode(md5(body))];
    forall p | p in PartsOf(md5, bodies + [body])
      ensures p.etag == (if p.number in m' then m'[p.number] else "")
    {
      var i :| 0 <= i <= |bodies| && PartsOf(md5, bodies + [body])[i] == p;
      if i < |bodies| {
        assert PartsOf(md5, bodies)[i] == p;
      }
    }
  }
}
