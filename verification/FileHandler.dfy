/**
 SaveFileFromReader as the sequential program it is when no context ends early
 (internal/filestore/file_handler.go:85-158): a copy loop into the hashes, the pipe
 and the local file, the size check, and the close that waits for the upload. Reader
 and local file may fail.
 */
module FileHandler {
  import opened Wrappers
  import opened Bytes
  import opened ObjectStore
  import opened PartArithmetic
  import opened UploadPipeline
  import opened UploadSafety
  import opened Multipart

  /** What fails: opening the local file, the reader after its last chunk, the local write of a chunk. */
  datatype Faults = Faults(open: bool, read: bool, write: Option<nat>)

  predicate LocalWriteFails(chunks: seq<Bytes>, hasLocal: bool, faults: Faults) {
    hasLocal && faults.write.Some? && faults.write.value < |chunks|
  }

  /** The chunks that are read and written to the pipe: the local file comes after it. */
  function Piped(chunks: seq<Bytes>, hasLocal: bool, faults: Faults): seq<Bytes> {
    if hasLocal && faults.open then []
    else if LocalWriteFails(chunks, hasLocal, faults) then chunks[..faults.write.value + 1]
    else chunks
  }

  function Trouble(chunks: seq<Bytes>, hasLocal: bool, faults: Faults): Option<SaveError> {
    if hasLocal && faults.open then Some(OpenFailed)
    else if LocalWriteFails(chunks, hasLocal, faults) then Some(WriteFailed)
    else if faults.read then Some(ReadFailed)
    else None
  }

  /**
   How far a save gets and why no further: the pipe always carries a prefix of the
   chunks, and all of them exactly if the local file opens and takes all but the last.
   */
  lemma TroubleComesFrom(chunks: seq<Bytes>, hasLocal: bool, faults: Faults)
    ensures Piped(chunks, hasLocal, faults) <= chunks
    ensures var opens := !(hasLocal && faults.open);
            var writes := !(hasLocal && exists k :: 0 <= k < |chunks| && faults.write == Some(k));
            && (Trouble(chunks, hasLocal, faults) == Some(OpenFailed) <==> !opens)
            && (Trouble(chunks, hasLocal, faults) == Some(WriteFailed) <==> opens && !writes)
            && (Trouble(chunks, hasLocal, faults) == Some(ReadFailed) <==> opens && writes && faults.read)
            && (Trouble(chunks, hasLocal, faults) == None <==> opens && writes && !faults.read)
            && (Piped(chunks, hasLocal, faults) == chunks <==>
                  chunks == [] || (opens && (writes || faults.write == Some(|chunks| - 1))))
  {
    assert LocalWriteFails(chunks, hasLocal, faults) <==>
           hasLocal && exists k :: 0 <= k < |chunks| && faults.write == Some(k) by {
      if LocalWriteFails(chunks, hasLocal, faults) {
        assert faults.write == Some(faults.write.value);
      }
    }
  }

  /** The other end of the pipe: its outcome for what the pipe has carried. */
  method UploadAll(cfg: Config, store: ObjectstoreStub, path: Path, lost: set<nat>, seen: nat -> nat)
    returns (uploadError: Option<UploadError>, etag: ETag)
    requires cfg.Valid() && store.md5 == cfg.md5 && store.At(path) == Entry(Some(map[]), None)
    modifies store
    ensures uploadError == None ==>
              store.At(path) == Entry(None, Some(etag)) && |cfg.content| <= cfg.urls * cfg.partSize
    ensures uploadError == Some(NotEnoughParts) ==>
              |cfg.content| > cfg.urls * cfg.partSize && store.At(path).stored == None
    ensures |cfg.content| > cfg.urls * cfg.partSize ==>
              uploadError == Some(PartFailed) || uploadError == Some(NotEnoughParts)
    ensures PartLost(cfg, lost) ==> uploadError == Some(PartFailed)
    ensures 0 in lost && |cfg.content| <= cfg.urls * cfg.partSize ==>
              uploadError == Some(PartFailed) || uploadError == Some(CompleteFailed)
    ensures path !in store.overwriteMD5 && HasKey(path) && (forall n: nat :: seen(n) >= cfg.partSize) ==>
              && (uploadError == Some(PartFailed) <==> PartLost(cfg, lost))
              && (uploadError == Some(NotEnoughParts) <==>
                    !PartLost(cfg, lost) && |cfg.content| > cfg.urls * cfg.partSize)
              && (uploadError == None <==>
                    !PartLost(cfg, lost) && 0 !in lost && |cfg.content| <= cfg.urls * cfg.partSize)
  {
    var m := new Multipart(cfg, store, path, lost, seen);
    m.Upload();
    uploadError, etag := m.uploadError, m.etag;
  }

  class FileHandler {
    var size: nat
    var hashed: Bytes
    var local: Bytes

    constructor ()
      ensures size == 0 && hashed == [] && local == []
    {
      size, hashed, local := 0, [], [];
    }

    /** io.Copy to the multi-writer: every chunk goes to every writer in turn. */
    method CopyToAll(chunks: seq<Bytes>, hasLocal: bool, faults: Faults) returns (piped: Bytes, err: Option<SaveError>)
      requires size == 0 && hashed == local == [] && !(hasLocal && faults.open)
      modifies this
      ensures hashed == piped == Concat(Piped(chunks, hasLocal, faults)) && err == Trouble(chunks, hasLocal, faults)
      ensures err != Some(WriteFailed) ==> size == |piped| && local == if hasLocal then piped else []
    {
      piped := [];
      for i := 0 to |chunks|
        invariant hashed == piped == Concat(chunks[..i]) && size == |piped|
        invariant local == if hasLocal then piped else []
        invariant LocalWriteFails(chunks, hasLocal, faults) ==> i <= faults.write.value
      {
        ConcatAppend(chunks[..i], chunks[i]);
        assert chunks[..i + 1] == chunks[..i] + [chunks[i]];
        hashed := hashed + chunks[i];
        piped := piped + chunks[i];
        if hasLocal {
          if faults.write == Some(i) {
            return piped, Some(WriteFailed);
          }
          local := local + chunks[i];
        }
        size := size + |chunks[i]|;
      }
      assert chunks[..|chunks|] == chunks;
      err := if faults.read then Some(ReadFailed) else None;
    }

    /**
     Success delivers the whole content everywhere. EntityTooLarge is only said of a
     content that does not fit, and a lost request is reported as that failure of the
     upload; with a truthful store exactly so. When no request is lost either, the result
     is the one that every untroubled run of the concurrent system has, and whatever went
     through the pipe is completed in the store when it fits: also after a wrong size, a
     read error, or a failure of the local file.
     */
    method SaveFileFromReader(cfg: Config, chunks: seq<Bytes>, faults: Faults, store: ObjectstoreStub, path: Path,
                              lost: set<nat>, seen: nat -> nat)
      returns (result: Result<Handler, SaveError>)
      requires cfg.Valid() && Concat(chunks) == cfg.content && store.md5 == cfg.md5
      requires store.At(path) == Entry(Some(map[]), None)
      requires size == 0 && hashed == local == []
      modifies this, store
      ensures result.Ok? ==>
                && Trouble(chunks, cfg.hasLocal, faults).None?
                && result.value.size == |cfg.content| && SizeAccepted(cfg, |cfg.content|)
                && result.value.hashed == cfg.content
                && local == (if cfg.hasLocal then cfg.content else [])
                && store.At(path) == Entry(None, Some(result.value.etag))
      ensures Trouble(chunks, cfg.hasLocal, faults).Some? ==>
                result == Err(Trouble(chunks, cfg.hasLocal, faults).value)
      ensures Trouble(chunks, cfg.hasLocal, faults).None? ==>
                (result == Err(WrongSize) <==> !SizeAccepted(cfg, |cfg.content|))
      ensures result == Err(EntityTooLarge) ==> |cfg.content| > cfg.urls * cfg.partSize
      ensures Trouble(chunks, cfg.hasLocal, faults).None? && SizeAccepted(cfg, |cfg.content|) ==>
                && (PartLost(cfg, lost) ==> result == Err(SaveError.Upload(PartFailed)))
                && (0 in lost && |cfg.content| <= cfg.urls * cfg.partSize ==>
                      result == Err(SaveError.Upload(PartFailed)) || result == Err(SaveError.Upload(CompleteFailed)))
                && (|cfg.content| > cfg.urls * cfg.partSize ==>
                      result == Err(SaveError.Upload(PartFailed)) || result == Err(EntityTooLarge))
      ensures Trouble(chunks, cfg.hasLocal, faults).None? && SizeAccepted(cfg, |cfg.content|)
              && path !in store.overwriteMD5 && HasKey(path) && (forall n: nat :: seen(n) >= cfg.partSize) ==>
                && (result == Err(SaveError.Upload(PartFailed)) <==> PartLost(cfg, lost))
                && (result == Err(EntityTooLarge) <==>
                      !PartLost(cfg, lost) && |cfg.content| > cfg.urls * cfg.partSize)
                && (result.Ok? <==>
                      !PartLost(cfg, lost) && 0 !in lost && |cfg.content| <= cfg.urls * cfg.partSize)
      ensures lost == {} && path !in store.overwriteMD5 && HasKey(path)
              && (forall n: nat :: seen(n) >= cfg.partSize) ==>
                && (Trouble(chunks, cfg.hasLocal, faults).None? ==>
                      Expected(cfg) == (if result.Err? then Some(result.error) else None))
                && (store.At(path).stored.Some? <==>
                      |Concat(Piped(chunks, cfg.hasLocal, faults))| <= cfg.urls * cfg.partSize)
    {
      var piped, err := [], Some(OpenFailed);
      if !(cfg.hasLocal && faults.open) {
        piped, err := CopyToAll(chunks, cfg.hasLocal, faults);
      }
      if err.None? && cfg.declared.Some? && cfg.declared.value != size {
        err := Some(WrongSize);
      }
      assert err.None? ==> Trouble(chunks, cfg.hasLocal, faults).None? && piped == cfg.content && size == |piped|;
      assert err == Some(WrongSize) ==> piped == cfg.content;
      // without an error Close ends the pipe here, with one the deferred Close does
      var uploadError, etag := UploadAll(cfg.(content := piped), store, path, lost, seen);
      if err.Some? {
        return Err(err.value);
      }
      match uploadError {
        case Some(NotEnoughParts) => return Err(EntityTooLarge);
        case Some(e) => return Err(SaveError.Upload(e));
        case None => return Ok(Handler(size, hashed, etag));
      }
    }
  }
}
