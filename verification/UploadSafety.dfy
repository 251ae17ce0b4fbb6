/** What every run of the upload pipeline keeps, and what that means at its end. */
module UploadSafety {
  import opened Wrappers
  import opened Bytes
  import opened ObjectStore
  import opened PartArithmetic
  import opened UploadPipeline
  import ObjectUpload

  // ---------------------------------------------------------------------------
  // The invariant, actor by actor
  // ---------------------------------------------------------------------------

  predicate LocalIs(cfg: Config, p: Producer, data: Bytes) {
    p.local == if cfg.hasLocal then data else []
  }

  predicate SizeAccepted(cfg: Config, n: nat) { cfg.declared.None? || cfg.declared.value == n }

  predicate AllWritten(cfg: Config, p: Producer, received: Bytes) {
    && p.consumed == |cfg.content| && SizeAccepted(cfg, p.consumed)
    && p.hashed == received == cfg.content && LocalIs(cfg, p, cfg.content)
  }

  /** Hashes, pipe and local file hold the same bytes, up to the write under way. */
  predicate DataInv(cfg: Config, p: Producer, received: Bytes) {
    && p.consumed <= |cfg.content|
    && received <= cfg.content
    && var taken := cfg.content[..p.consumed];
       match p.pc
       case Opening => p.consumed == 0 && p.hashed == received == p.local == []
       case Reading => p.hashed == received == taken && LocalIs(cfg, p, taken)
       case PipeWriting(chunk, rest) =>
         && p.hashed == received + rest == taken
         && (if cfg.hasLocal then p.local + chunk == taken else p.local == [])
       case LocalWriting(data) => cfg.hasLocal && p.hashed == received == p.local + data == taken
       case Closing => AllWritten(cfg, p, received)
       case Failing(e) => e == WrongSize ==> received == cfg.content && !SizeAccepted(cfg, |cfg.content|)
       case Returned(Ok(h)) =>
         AllWritten(cfg, p, received) && h.size == p.consumed && h.hashed == p.hashed
       case Returned(Err(_)) => true
  }

  predicate Succeeded(u: Uploader) { ReaderClosed(u) && u.error == None }

  /** The bytes read from the pipe are the bodies sent, then the part in hand. */
  predicate CutInv(cfg: Config, u: Uploader, eof: bool) {
    && |u.bodies| <= cfg.urls
    && IsCut(u.bodies, cfg.partSize)
    && (u.error.Some? ==> ReaderClosed(u))
    && match u.pc
       case Filling(buffer) =>
         && |u.bodies| < cfg.urls && |buffer| <= cfg.partSize
         && u.received == Concat(u.bodies) + buffer
         && (AllFull(u.bodies, cfg.partSize) || (buffer == [] && eof))
       case Putting(chunks, _) =>
         && |u.bodies| < cfg.urls && 1 <= |Concat(chunks)| <= cfg.partSize
         && u.received == Concat(u.bodies) + Concat(chunks)
         && AllFull(u.bodies, cfg.partSize)
         && (|Concat(chunks)| == cfg.partSize || eof)
       case Draining(drained) =>
         && u.received == Concat(u.bodies) + drained
         && (eof || (|u.bodies| == cfg.urls && AllFull(u.bodies, cfg.partSize)))
         && (drained != [] ==> |u.bodies| == cfg.urls && AllFull(u.bodies, cfg.partSize))
       case Completing | Verifying => eof && u.received == Concat(u.bodies)
       case Ended | Exited =>
         && (u.error == None ==> eof && u.received == Concat(u.bodies))
         && (u.error == Some(NotEnoughParts) ==> eof && |u.received| > cfg.urls * cfg.partSize)
  }

  /** Of every body a prefix. */
  predicate Prefixes(ps: seq<Bytes>, bodies: seq<Bytes>) {
    |ps| == |bodies| && forall i :: 0 <= i < |bodies| ==> ps[i] <= bodies[i]
  }

  lemma PrefixesAppend(ps: seq<Bytes>, bodies: seq<Bytes>, p: Bytes, body: Bytes)
    requires Prefixes(ps, bodies) && p <= body
    ensures Prefixes(ps + [p], bodies + [body])
  {
  }

  /** The store has accepted the part under way before all of it had been carried. */
  predicate EarlyPut(u: Uploader) {
    u.pc.Putting? && u.pc.put.stored.Some? && u.pc.put.stored.value != Concat(u.pc.chunks)
  }

  predicate PutInv(cfg: Config, u: Uploader) {
    u.pc.Putting? ==>
      var put := u.pc.put;
      && ObjectUpload.Inv(PartConfig(cfg, u.pc.chunks), put) && put.clean.WaitUpload?
      && (put.stored.Some? && put.upl.error.None? && !u.early ==> put.stored.value == Concat(u.pc.chunks))
  }

  /**
   Every part in the list has the MD5 of what was hashed of it; the store has taken
   all of each body unless it was early; a part without ETag means the caller is gone.
   */
  predicate PartInv(cfg: Config, u: Uploader) {
    && |u.stored| == |u.checked| == |u.parts| == |u.bodies|
    && (forall i :: 0 <= i < |u.parts| ==> u.parts[i].number == i + 1)
    && (!u.cancelled ==>
          && u.parts == PartsOf(cfg.md5, u.checked)
          && Prefixes(u.checked, u.bodies) && Prefixes(u.stored, u.bodies)
          && (!u.early ==> u.stored == u.bodies))
    && (u.early ==> u.stored != u.bodies || EarlyPut(u) || (ReaderClosed(u) && u.error.Some?))
    && PutInv(cfg, u)
  }

  /** Complete is sent only once the pipe is at its end and its bytes fit the parts. */
  predicate CompleteInv(cfg: Config, u: Uploader, eof: bool) {
    && (Succeeded(u) ==> u.etag == MultipartETag(cfg.md5, u.checked))
    && (u.pc.Verifying? || Succeeded(u) ==> !u.cancelled)
    && (u.completeSent ==>
          && eof && |u.received| <= cfg.urls * cfg.partSize
          && (u.pc.Verifying? || (ReaderClosed(u) && u.error != Some(NotEnoughParts))))
    && (u.pc.Verifying? || Succeeded(u) ==> u.completeSent)
  }

  /** The upload in progress holds the parts; a finished object carries the ETag. */
  predicate StoreInv(u: Uploader, e: Entry) {
    && (e.multipart.None? <==> e.stored.Some?)
    && match u.pc
       case Filling(_) | Draining(_) | Completing =>
         e.multipart.Some? && (!u.cancelled ==> Agrees(e.multipart.value, u.parts))
       case Putting(_, put) =>
         && e.multipart.Some? && (!u.cancelled ==> Agrees(e.multipart.value, u.parts))
         && (!put.upl.pc.Putting? && put.upl.error.None? ==> HasPart(e.multipart.value, |u.parts| + 1, put.upl.etag))
       case Verifying => e.stored == Some(u.etag)
       case Ended | Exited =>
         && (u.error == None ==> e.stored == Some(u.etag))
         && (u.error == Some(NotEnoughParts) ==> e.multipart.Some?)
  }

  predicate HasPart(m: map<nat, ETag>, number: nat, etag: ETag) {
    number in m && m[number] == etag
  }

  predicate ContextInv(p: Producer, u: Uploader, c: Contexts) {
    && (c.upload == Some(Finished) ==> u.pc.Exited?)
    && (u.pc.Exited? ==> c.upload.Some?)
    && (c.callerDone ==> c.upload.Some?)
    && (c.upload == Some(CallerGone) ==> c.callerDone)
    && (u.cancelled || (u.pc.Putting? && u.pc.put.callerDone) ==> c.upload == Some(CallerGone))
    && (p.pc.Returned? ==> c.upload.Some?)
    && (p.pc.Returned? && p.pc.result.Ok? ==>
          && c.upload != Some(Deadline)
          && (c.upload == Some(Finished) ==> u.error == None && p.pc.result.value.etag == u.etag))
  }

  predicate CleanupInv(cfg: Config, u: Uploader, c: Contexts, k: Cleanup) {
    && (k.early ==> c.upload.Some? && c.upload != Some(Finished))
    && match k.pc
       case WaitUpload => k.sent == [] && !k.early
       case Aborting => k.sent == [] && !k.early && c.upload.Some? && u.error.Some?
       case WaitCaller => k.sent == [] && c.upload.Some? && (k.early || Succeeded(u))
       case Cleaned(AbortURL) =>
         && k.sent == (if cfg.abortSet then [AbortURL] else [])
         && !k.early && c.upload.Some? && u.error.Some?
       case Cleaned(DeleteURL) =>
         && k.sent == (if cfg.deleteSet then [DeleteURL] else [])
         && c.callerDone && (k.early || Succeeded(u))
  }

  /** The error that an untroubled save returns, if any. */
  function Expected(cfg: Config): Option<SaveError> {
    if !SizeAccepted(cfg, |cfg.content|) then Some(WrongSize)
    else if |cfg.content| > cfg.urls * cfg.partSize then Some(EntityTooLarge)
    else None
  }

  predicate UntroubledInv(cfg: Config, p: Producer, u: Uploader, c: Contexts) {
    && (c.upload == None || c.upload == Some(Finished))
    && (u.error == None || u.error == Some(NotEnoughParts))
    && !u.early && (u.pc.Putting? ==> ObjectUpload.OnTrack(PartConfig(cfg, u.pc.chunks), u.pc.put))
    && (!ProducerTrouble(p) ==> SizesDecide(cfg, p, u))
  }

  predicate SizesDecide(cfg: Config, p: Producer, u: Uploader) {
    && (WriterClosed(p) ==> u.received == cfg.content)
    && match p.pc
       case Closing => SizeAccepted(cfg, |cfg.content|)
       case Failing(e) => e == WrongSize
       case Returned(Err(e)) => Expected(cfg) == Some(e)
       case Returned(Ok(_)) => Expected(cfg) == None
       case _ => true
  }

  predicate Inv(cfg: Config, s: State) {
    && DataInv(cfg, s.prod, s.upl.received)
    && CutInv(cfg, s.upl, WriterClosed(s.prod))
    && PartInv(cfg, s.upl)
    && CompleteInv(cfg, s.upl, WriterClosed(s.prod))
    && (s.clean.sent == [] ==> StoreInv(s.upl, s.entry))
    && ContextInv(s.prod, s.upl, s.ctx)
    && CleanupInv(cfg, s.upl, s.ctx, s.clean)
    && (!s.failed ==> UntroubledInv(cfg, s.prod, s.upl, s.ctx))
  }

  lemma InitInv(cfg: Config)
    requires cfg.Valid()
    ensures Inv(cfg, Init(cfg))
  {
    assert Concat([]) == [];
  }

  // ---------------------------------------------------------------------------
  // Steps of the producer
  // ---------------------------------------------------------------------------

  lemma ProducerKeepsData(cfg: Config, p: Producer, u: Uploader, done: Option<Cause>, a: ProducerAction)
    requires DataInv(cfg, p, u.received) && ProducerStep(cfg, p, u, done, a).Some?
    ensures DataInv(cfg, ProducerStep(cfg, p, u, done, a).value, u.received)
  {
    match a {
      case ReadChunk(n) =>
        var chunk := cfg.content[p.consumed..p.consumed + n];
        assert cfg.content[..p.consumed + n] == cfg.content[..p.consumed] + chunk;
      case PipeWriteReturns =>
        assert u.received + [] == u.received;
      case LocalWrite(n) =>
        assert n == |p.pc.data| ==> p.pc.data[..n] == p.pc.data;
      case ReadEnd =>
        assert cfg.content[..p.consumed] == cfg.content;
      case _ =>
    }
  }

  /** The outcome of an untroubled upload depends on the length of the stream only. */
  lemma UntroubledResult(cfg: Config, u: Uploader, eof: bool)
    requires cfg.Valid() && CutInv(cfg, u, eof) && ReaderClosed(u)
    requires u.error == None || u.error == Some(NotEnoughParts)
    ensures u.error == None <==> |u.received| <= cfg.urls * cfg.partSize
  {
    if u.error == None {
      CutLength(u.bodies, cfg.partSize, cfg.urls);
    }
  }

  lemma ProducerKeepsUntroubled(cfg: Config, s: State, a: ProducerAction)
    requires cfg.Valid() && Inv(cfg, s) && !s.failed && Step(cfg, s, Produce(a)).Some?
    ensures UntroubledInv(cfg, Step(cfg, s, Produce(a)).value.prod, s.upl, s.ctx)
  {
    hide PartInv, CompleteInv, StoreInv, CleanupInv;
    ProducerKeepsData(cfg, s.prod, s.upl, s.ctx.upload, a);
    if a.CloseReturns? {
      UntroubledResult(cfg, s.upl, WriterClosed(s.prod));
    }
  }

  lemma ProducerKeepsInv(cfg: Config, s: State, a: ProducerAction)
    requires cfg.Valid() && Inv(cfg, s) && Step(cfg, s, Produce(a)).Some?
    ensures Inv(cfg, Step(cfg, s, Produce(a)).value)
  {
    hide PartInv, StoreInv, CleanupInv, UntroubledInv;
    var s' := Step(cfg, s, Produce(a)).value;
    ProducerKeepsData(cfg, s.prod, s.upl, s.ctx.upload, a);
    assert WriterClosed(s.prod) ==> WriterClosed(s'.prod);
    assert ContextInv(s'.prod, s.upl, s.ctx);
    if !s.failed {
      ProducerKeepsUntroubled(cfg, s, a);
    }
  }

  // ---------------------------------------------------------------------------
  // Steps of the uploader: the cut
  // ---------------------------------------------------------------------------

  lemma ReturnKeepsCut(cfg: Config, u: Uploader, e: Entry, eof: bool, late: Option<ETag>)
    requires cfg.Valid() && CutInv(cfg, u, eof) && u.pc.Putting? && PartReturned(cfg, u, e, late).Some?
    ensures CutInv(cfg, PartReturned(cfg, u, e, late).value.0, eof)
  {
    hide Put, Concat, IsCut, AllFull;
    var body := Concat(u.pc.chunks);
    ExtendCut(u.bodies, body, cfg.partSize);
    ConcatAppend(u.bodies, body);
    assert u.received == Concat(u.bodies + [body]) + [];
  }

  lemma DrainKeepsCut(cfg: Config, u: Uploader, eof: bool)
    requires cfg.Valid() && CutInv(cfg, u, eof) && u.pc.Draining? && eof
    ensures u.pc.drained == [] ==> CutInv(cfg, u.(pc := Completing), eof)
    ensures u.pc.drained != [] ==> CutInv(cfg, End(u, Some(NotEnoughParts)), eof)
  {
    hide AllFull, IsCut;
    assert Concat(u.bodies) + [] == Concat(u.bodies);
    if u.pc.drained != [] {
      FullLength(u.bodies, cfg.partSize);
    }
  }

  lemma UploaderKeepsCut(cfg: Config, u: Uploader, e: Entry, eof: bool, cause: Option<Cause>, a: UploaderAction)
    requires cfg.Valid() && CutInv(cfg, u, eof) && UploaderStep(cfg, u, e, eof, cause, a).Some?
    ensures var u' := UploaderStep(cfg, u, e, eof, cause, a).value.0;
            CutInv(cfg, u', eof) && u'.received == u.received
  {
    hide ExtractETag, HeaderFor, Complete, Recorded, BuildETag, AllFull, IsCut, PartRecorded, PartReturned;
    match a {
      case PartBuffered(_) => assert Concat(u.bodies) + [] == Concat(u.bodies);
      case PartReturns(late) =>
        ReturnKeepsCut(cfg, u, e, eof, late);
        ReturnFrame(cfg, u, e, late);
      case DrainEnd => DrainKeepsCut(cfg, u, eof);
      case _ =>
    }
  }

  /** What the return of a part leaves alone. */
  lemma ReturnFrame(cfg: Config, u: Uploader, e: Entry, late: Option<ETag>)
    requires u.pc.Putting? && PartReturned(cfg, u, e, late).Some?
    ensures var u' := PartReturned(cfg, u, e, late).value.0;
            && u'.received == u.received && u'.completeSent == u.completeSent
            && (if u'.pc.Ended? then u'.error == Some(PartFailed)
                else (u'.pc.Filling? || u'.pc.Draining?) && u'.error == u.error)
  {
  }

  // ---------------------------------------------------------------------------
  // Steps of the uploader: the parts
  // ---------------------------------------------------------------------------

  /** One step of the PUT under way; `early` records the guard of an early answer. */
  lemma PutStepKeepsParts(cfg: Config, u: Uploader, e: Entry, cause: Option<Cause>, a: ObjectUpload.Action, tag: ETag)
    requires PartInv(cfg, u) && u.pc.Putting? && PartStepOf(cfg, u, e, cause, a, tag).Some?
    ensures PartInv(cfg, PartStepOf(cfg, u, e, cause, a, tag).value.0)
  {
    hide ObjectUpload.Inv, PartRecorded;
    var c, put := PartConfig(cfg, u.pc.chunks), u.pc.put;
    var put' := ObjectUpload.Step(c, put, a).value;
    ObjectUpload.StepKeepsInv(c, put, a, put');
    StepKeepsStored(c, put, a, put');
  }

  /** Only the answer changes what the store has of the body; it takes what has been carried. */
  lemma StepKeepsStored(c: ObjectUpload.Config, put: ObjectUpload.State, a: ObjectUpload.Action,
                        put': ObjectUpload.State)
    requires ObjectUpload.Inv(c, put) && ObjectUpload.Step(c, put, a) == Some(put') && put.clean.WaitUpload?
    requires !a.Look? && !a.Delete?
    ensures put'.clean.WaitUpload?
    ensures !a.Answered? ==> put'.stored == put.stored && (put'.upl.error.None? ==> put.upl.error.None?)
    ensures a.Answered? ==> put.stored.None? && put.upl.error.None?
    ensures a.Answered? && put'.upl.error.None? ==>
              a.answer.Accepted? && put'.stored.Some?
              && (put'.stored.value == ObjectUpload.Content(c) <==> ObjectUpload.RestOf(c, put.prod) == [])
    ensures a.Answered? && !a.answer.Accepted? ==> put'.upl.error.Some?
    ensures !a.Answered? ==> put'.upl.etag == put.upl.etag && (put'.upl.pc.Putting? <==> put.upl.pc.Putting?)
    ensures a.Answered? && a.answer.Accepted? ==> put'.upl.etag == a.answer.etag
  {
    if a.Answered? {
      ObjectUpload.ConsumedAndRest(c, put.prod, put.consumed);
      assert ObjectUpload.RestOf(c, put.prod) == [] ==> put.consumed + ObjectUpload.RestOf(c, put.prod) == put.consumed;
    }
  }

  lemma ReturnAddsPart(cfg: Config, u: Uploader, e: Entry, late: Option<ETag>)
    requires PartInv(cfg, u) && u.pc.Putting? && PartReturned(cfg, u, e, late).Some?
    requires u.pc.put.prod.pc.error.None? && !u.pc.put.callerDone && !u.cancelled
    ensures var u' := PartReturned(cfg, u, e, late).value.0;
            && u'.parts == PartsOf(cfg.md5, u'.checked)
            && Prefixes(u'.checked, u'.bodies) && Prefixes(u'.stored, u'.bodies)
            && (!u'.early ==> u'.stored == u'.bodies)
  {
    ObjectUpload.SuccessMeansAgreement(PartConfig(cfg, u.pc.chunks), u.pc.put);
    hide ObjectUpload.Inv, Put, Concat, HexEncode, PartsOf;
    PartsOfAppend(cfg.md5, u.checked, u.pc.put.upl.checked.value);
  }

  /** An early part stays visible in the list of what the store has taken. */
  lemma ReturnKeepsEarly(cfg: Config, u: Uploader, e: Entry, late: Option<ETag>)
    requires PartInv(cfg, u) && u.pc.Putting? && PartReturned(cfg, u, e, late).Some? && u.early
    requires u.pc.put.prod.pc.error.None?
    ensures var u' := PartReturned(cfg, u, e, late).value.0; u'.stored != u'.bodies
  {
    hide PutInv, Prefixes, PartsOf, Concat, Put;
    var u' := PartReturned(cfg, u, e, late).value.0;
    assert u'.stored[..|u.stored|] == u.stored && u'.bodies[..|u.bodies|] == u.bodies;
    assert EarlyPut(u) ==> u'.stored[|u.stored|] != u'.bodies[|u.bodies|];
  }

  lemma ReturnKeepsParts(cfg: Config, u: Uploader, e: Entry, late: Option<ETag>)
    requires PartInv(cfg, u) && u.pc.Putting? && PartReturned(cfg, u, e, late).Some?
    ensures PartInv(cfg, PartReturned(cfg, u, e, late).value.0)
  {
    if u.pc.put.prod.pc.error.None? {
      if !u.pc.put.callerDone && !u.cancelled {
        ReturnAddsPart(cfg, u, e, late);
      }
      if u.early {
        ReturnKeepsEarly(cfg, u, e, late);
      }
    }
    hide ObjectUpload.Inv, Put, Concat, HexEncode, PartsOf, Prefixes, EarlyPut;
  }

  lemma OtherStepFrame(cfg: Config, u: Uploader, e: Entry, eof: bool, cause: Option<Cause>, a: UploaderAction)
    requires UploaderStep(cfg, u, e, eof, cause, a).Some?
    requires !a.PartBuffered? && !a.PartStep? && !a.PartReturns?
    ensures SameParts(u, UploaderStep(cfg, u, e, eof, cause, a).value.0)
  {
  }

  /** Steps between the parts, and after them. */
  predicate SameParts(u: Uploader, u': Uploader) {
    && u'.bodies == u.bodies && u'.stored == u.stored && u'.checked == u.checked && u'.parts == u.parts
    && u'.early == u.early && u'.cancelled == u.cancelled && !u.pc.Putting? && !u'.pc.Putting?
    && (ReaderClosed(u) ==> ReaderClosed(u') && u'.error == u.error)
  }

  lemma UploaderKeepsParts(cfg: Config, u: Uploader, e: Entry, eof: bool, cause: Option<Cause>, a: UploaderAction)
    requires PartInv(cfg, u) && UploaderStep(cfg, u, e, eof, cause, a).Some?
    ensures PartInv(cfg, UploaderStep(cfg, u, e, eof, cause, a).value.0)
  {
    hide PartStepOf, PartReturned, PostStep, BuildETag, PartsOf, Prefixes;
    match a {
      case PartBuffered(chunks) => FreshPut(PartConfig(cfg, chunks));
      case PartStep(pa, tag) => PutStepKeepsParts(cfg, u, e, cause, pa, tag);
      case PartReturns(late) => ReturnKeepsParts(cfg, u, e, late);
      case _ =>
        OtherStepFrame(cfg, u, e, eof, cause, a);
    }
  }

  lemma FreshPut(c: ObjectUpload.Config)
    ensures ObjectUpload.Inv(c, ObjectUpload.Init())
  {
    assert c.chunks[..0] == [];
  }

  // ---------------------------------------------------------------------------
  // Steps of the uploader: completion and store
  // ---------------------------------------------------------------------------

  lemma PostKeepsComplete(cfg: Config, u: Uploader, e: Entry, eof: bool, cause: Option<Cause>, reply: CompleteReply)
    requires cfg.Valid() && CutInv(cfg, u, eof) && CompleteInv(cfg, u, eof) && u.pc.Completing?
    requires PostStep(u, e, cause.None?, reply).Some? && (u.cancelled ==> cause.Some?)
    ensures CompleteInv(cfg, PostStep(u, e, cause.None?, reply).value.0, eof)
  {
    CutLength(u.bodies, cfg.partSize, cfg.urls);
    hide HeaderFor, ExtractETag, Complete, Recorded, MultipartETag, Concat, IsCut, AllFull;
  }

  lemma VerifyKeepsComplete(cfg: Config, u: Uploader, eof: bool)
    requires PartInv(cfg, u) && CompleteInv(cfg, u, eof) && u.pc.Verifying?
    ensures BuildETag(cfg.md5, u.parts) == Some(u.etag) ==> CompleteInv(cfg, End(u, None), eof)
    ensures CompleteInv(cfg, End(u, Some(ETagMismatch)), eof)
  {
    BuildETagOfParts(cfg.md5, u.checked);
    hide BuildETag, MultipartETag, PutInv, Prefixes;
  }

  lemma UploaderKeepsComplete(cfg: Config, u: Uploader, e: Entry, eof: bool, cause: Option<Cause>, a: UploaderAction)
    requires cfg.Valid() && CutInv(cfg, u, eof) && PartInv(cfg, u) && CompleteInv(cfg, u, eof)
    requires UploaderStep(cfg, u, e, eof, cause, a).Some? && (u.cancelled ==> cause.Some?)
    ensures CompleteInv(cfg, UploaderStep(cfg, u, e, eof, cause, a).value.0, eof)
  {
    hide PartInv, PartReturned, PostStep, BuildETag, MultipartETag, PartRecorded, Concat, AllFull, IsCut;
    match a {
      case PostComplete(reply) => PostKeepsComplete(cfg, u, e, eof, cause, reply);
      case Verify => VerifyKeepsComplete(cfg, u, eof);
      case PartReturns(late) => ReturnFrame(cfg, u, e, late);
      case _ =>
    }
  }

  /** A record under another number does not disturb the list. */
  lemma AgreesElsewhere(m: map<nat, ETag>, parts: seq<Part>, number: nat, etag: ETag)
    requires Agrees(m, parts) && forall p | p in parts :: p.number != number
    ensures Agrees(m[number := etag], parts)
  {
  }

  lemma AgreesWithOneMore(m: map<nat, ETag>, parts: seq<Part>, part: Part)
    requires Agrees(m, parts) && HasPart(m, part.number, part.etag)
    ensures Agrees(m, parts + [part])
  {
  }

  lemma PutStepKeepsStore(cfg: Config, u: Uploader, e: Entry, cause: Option<Cause>, a: ObjectUpload.Action, tag: ETag)
    requires PartInv(cfg, u) && StoreInv(u, e) && u.pc.Putting? && PartStepOf(cfg, u, e, cause, a, tag).Some?
    ensures var (u', e') := PartStepOf(cfg, u, e, cause, a, tag).value; StoreInv(u', e')
  {
    var c, put := PartConfig(cfg, u.pc.chunks), u.pc.put;
    StepKeepsStored(c, put, a, ObjectUpload.Step(c, put, a).value);
    hide Agrees, PutInv, Prefixes, PartsOf, ObjectUpload.RestOf, ObjectUpload.Step;
    if !u.cancelled && a.Answered? {
      var etag := if a.answer.Accepted? then a.answer.etag else tag;
      AgreesElsewhere(e.multipart.value, u.parts, |u.parts| + 1, etag);
    }
  }

  lemma ReturnKeepsStore(cfg: Config, u: Uploader, e: Entry, late: Option<ETag>)
    requires PartInv(cfg, u) && StoreInv(u, e) && u.pc.Putting? && PartReturned(cfg, u, e, late).Some?
    ensures var (u', e') := PartReturned(cfg, u, e, late).value; StoreInv(u', e')
  {
    var put := u.pc.put;
    if put.prod.pc.error.None? && !put.callerDone && !u.cancelled {
      hide Agrees;
      ObjectUpload.SuccessMeansAgreement(PartConfig(cfg, u.pc.chunks), put);
      AgreesWithOneMore(e.multipart.value, u.parts, Part(|u.parts| + 1, put.upl.etag));
    }
  }

  lemma UploaderKeepsStore(cfg: Config, u: Uploader, e: Entry, eof: bool, cause: Option<Cause>, a: UploaderAction)
    requires PartInv(cfg, u) && StoreInv(u, e)
    requires UploaderStep(cfg, u, e, eof, cause, a).Some?
    ensures var (u', e') := UploaderStep(cfg, u, e, eof, cause, a).value; StoreInv(u', e')
  {
    hide PartStepOf, PartReturned, PartInv, BuildETag, Concat;
    match a {
      case PartStep(pa, tag) => PutStepKeepsStore(cfg, u, e, cause, pa, tag);
      case PartReturns(late) => ReturnKeepsStore(cfg, u, e, late);
      case PostComplete(Accepted(etag, quoted)) => ExtractUndoesHeader(etag, quoted);
      case _ =>
    }
  }

  /** While nothing fails no part is accepted early. */
  lemma UploaderKeepsUntroubled(cfg: Config, u: Uploader, e: Entry, eof: bool, cause: Option<Cause>, a: UploaderAction)
    requires UploaderStep(cfg, u, e, eof, cause, a).Some? && !u.early
    requires !UploaderTrouble(cfg, UploaderStep(cfg, u, e, eof, cause, a).value.0)
    ensures !UploaderStep(cfg, u, e, eof, cause, a).value.0.early
  {
    if a.PartStep? {
      var c := PartConfig(cfg, u.pc.chunks);
      if ObjectUpload.AllCarried(c, u.pc.put.prod) {
        ObjectUpload.AllCarriedMeansNoRest(c, u.pc.put.prod);
      }
    }
  }

  lemma UploaderKeepsContext(cfg: Config, s: State, a: UploaderAction)
    requires Inv(cfg, s) && Step(cfg, s, Send(a)).Some?
    ensures var s' := Step(cfg, s, Send(a)).value;
            ContextInv(s'.prod, s'.upl, s'.ctx) && CleanupInv(cfg, s'.upl, s'.ctx, s'.clean)
  {
    hide DataInv, PartInv, StoreInv, CompleteInv, UntroubledInv, Concat, AllFull, IsCut;
    assert ReaderClosed(s.upl) ==> a.Exit?;
    assert s.upl.error.Some? ==> ReaderClosed(s.upl);
  }

  lemma UploaderKeepsInv(cfg: Config, s: State, a: UploaderAction)
    requires cfg.Valid() && Inv(cfg, s) && Step(cfg, s, Send(a)).Some?
    ensures Inv(cfg, Step(cfg, s, Send(a)).value)
  {
    hide DataInv, CutInv, PartInv, StoreInv, CompleteInv, CleanupInv;
    var eof := WriterClosed(s.prod);
    UploaderKeepsCut(cfg, s.upl, s.entry, eof, s.ctx.upload, a);
    UploaderKeepsParts(cfg, s.upl, s.entry, eof, s.ctx.upload, a);
    UploaderKeepsComplete(cfg, s.upl, s.entry, eof, s.ctx.upload, a);
    UploaderKeepsContext(cfg, s, a);
    if s.clean.sent == [] {
      UploaderKeepsStore(cfg, s.upl, s.entry, eof, s.ctx.upload, a);
    }
    var s' := Step(cfg, s, Send(a)).value;
    if !s'.failed {
      UploaderKeepsUntroubled(cfg, s.upl, s.entry, eof, s.ctx.upload, a);
      PreservesUntroubled(cfg, s, a);
    }
  }

  lemma PreservesUntroubled(cfg: Config, s: State, a: UploaderAction)
    requires Inv(cfg, s) && Step(cfg, s, Send(a)).Some? && !Step(cfg, s, Send(a)).value.failed
    requires !Step(cfg, s, Send(a)).value.upl.early
    requires Step(cfg, s, Send(a)).value.upl.received == s.upl.received
    ensures var s' := Step(cfg, s, Send(a)).value; UntroubledInv(cfg, s'.prod, s'.upl, s'.ctx)
  {
    hide DataInv, CutInv, PartInv, StoreInv, CompleteInv, CleanupInv;
  }

  // ---------------------------------------------------------------------------
  // The other steps
  // ---------------------------------------------------------------------------

  lemma TransferKeepsData(cfg: Config, p: Producer, received: Bytes, n: nat)
    requires DataInv(cfg, p, received) && p.pc.PipeWriting? && 0 < n <= |p.pc.rest|
    ensures DataInv(cfg, p.(pc := PipeWriting(p.pc.chunk, p.pc.rest[n..])), received + p.pc.rest[..n])
  {
    var rest := p.pc.rest;
    assert rest == rest[..n] + rest[n..];
    assert received + rest == (received + rest[..n]) + rest[n..];
    assert received + rest[..n] <= p.hashed <= cfg.content;
  }

  lemma TransferKeepsCut(cfg: Config, u: Uploader, eof: bool, data: Bytes)
    requires CutInv(cfg, u, eof) && !eof && Receive(cfg, u, data).Some?
    ensures CutInv(cfg, Receive(cfg, u, data).value, eof)
  {
    hide AllFull, IsCut, Concat;
    if u.pc.Filling? {
      assert (Concat(u.bodies) + u.pc.buffer) + data == Concat(u.bodies) + (u.pc.buffer + data);
    } else {
      assert (Concat(u.bodies) + u.pc.drained) + data == Concat(u.bodies) + (u.pc.drained + data);
    }
  }

  lemma TransferKeepsInv(cfg: Config, s: State, n: nat)
    requires cfg.Valid() && Inv(cfg, s) && Step(cfg, s, Transfer(n)).Some?
    ensures Inv(cfg, Step(cfg, s, Transfer(n)).value)
  {
    TransferKeepsData(cfg, s.prod, s.upl.received, n);
    TransferKeepsCut(cfg, s.upl, WriterClosed(s.prod), s.prod.pc.rest[..n]);
    hide DataInv, CutInv, PartInv, CompleteInv, StoreInv, UntroubledInv, CleanupInv, ContextInv;
  }

  lemma OthersKeepInv(cfg: Config, s: State, a: Action)
    requires cfg.Valid() && Inv(cfg, s) && Step(cfg, s, a).Some?
    requires a.DeadlineFires? || a.CallerCancels? || a.Look? || a.SendDelete?
    ensures Inv(cfg, Step(cfg, s, a).value)
  {
    hide DataInv, PartInv, CompleteInv, Concat, AllFull, IsCut;
  }

  lemma StepKeepsInv(cfg: Config, s: State, a: Action)
    requires cfg.Valid() && Inv(cfg, s) && Step(cfg, s, a).Some?
    ensures Inv(cfg, Step(cfg, s, a).value)
  {
    match a {
      case Produce(pa) => ProducerKeepsInv(cfg, s, pa);
      case Send(ua) => UploaderKeepsInv(cfg, s, ua);
      case Transfer(n) => TransferKeepsInv(cfg, s, n);
      case _ => OthersKeepInv(cfg, s, a);
    }
  }

  lemma {:induction false} RunKeepsInv(cfg: Config, s: State, acts: seq<Action>)
    requires cfg.Valid() && Inv(cfg, s) && Run(cfg, s, acts).Some?
    ensures Inv(cfg, Run(cfg, s, acts).value)
    decreases |acts|
  {
    if acts != [] {
      StepKeepsInv(cfg, s, acts[0]);
      RunKeepsInv(cfg, Step(cfg, s, acts[0]).value, acts[1..]);
    }
  }

  lemma ReachableInv(cfg: Config, s: State)
    requires cfg.Valid() && Reachable(cfg, s)
    ensures Inv(cfg, s)
  {
    var acts :| Run(cfg, Init(cfg), acts) == Some(s);
    InitInv(cfg);
    RunKeepsInv(cfg, Init(cfg), acts);
  }

  // ---------------------------------------------------------------------------
  // End to end
  // ---------------------------------------------------------------------------

  /** Prefixes make up the whole only if each of them is whole. */
  lemma {:induction false} PrefixesConcat(ps: seq<Bytes>, bodies: seq<Bytes>)
    requires Prefixes(ps, bodies)
    ensures |Concat(ps)| <= |Concat(bodies)|
    ensures Concat(ps) == Concat(bodies) <==> ps == bodies
  {
    if ps != [] {
      var n := |ps| - 1;
      PrefixesConcat(ps[..n], bodies[..n]);
      assert ps[n] <= bodies[n];
      assert ps == ps[..n] + [ps[n]] && bodies == bodies[..n] + [bodies[n]];
      if |Concat(ps)| == |Concat(bodies)| {
        assert |ps[n]| == |bodies[n]|;
        assert Concat(ps)[..|Concat(ps[..n])|] == Concat(ps[..n]);
        assert Concat(bodies)[..|Concat(bodies[..n])|] == Concat(bodies[..n]);
      }
    }
  }

  /** A save that succeeds while the caller lives returns after its upload has ended well. */
  lemma SuccessIsFinal(cfg: Config, s: State)
    requires Inv(cfg, s) && s.prod.pc.Returned? && s.prod.pc.result.Ok? && !s.ctx.callerDone
    ensures s.ctx.upload == Some(Finished) && Succeeded(s.upl) && s.clean.sent == []
    ensures s.prod.pc.result.value.etag == s.upl.etag
  {
    hide DataInv, CutInv, PartInv, CompleteInv, StoreInv, UntroubledInv;
    assert ContextInv(s.prod, s.upl, s.ctx);
    assert s.ctx.upload == Some(Finished) by {
      match s.ctx.upload.value {
        case Finished =>
        case Deadline =>
        case CallerGone =>
      }
    }
    assert CleanupInv(cfg, s.upl, s.ctx, s.clean);
  }

  /** The whole content went through the pipe and into the parts. */
  lemma SuccessSentAll(cfg: Config, s: State)
    requires cfg.Valid() && Inv(cfg, s) && s.prod.pc.Returned? && s.prod.pc.result.Ok? && Succeeded(s.upl)
    ensures Concat(s.upl.bodies) == cfg.content == s.upl.received && |s.upl.bodies| <= cfg.urls
    ensures s.upl.bodies == Cut(cfg.content, cfg.partSize)
  {
    assert DataInv(cfg, s.prod, s.upl.received) && CutInv(cfg, s.upl, WriterClosed(s.prod));
    CutIsUnique(s.upl.bodies, cfg.partSize);
    hide Inv, IsCut, AllFull, Concat;
  }

  /** What a finished upload has listed, and what the store makes of the list. */
  lemma FinishedParts(cfg: Config, u: Uploader)
    requires PartInv(cfg, u) && !u.cancelled && !u.pc.Putting? && u.error.None?
    ensures Prefixes(u.checked, u.bodies) && u.parts == PartsOf(cfg.md5, u.checked)
    ensures Prefixes(u.stored, u.bodies)
    ensures Concat(u.stored) == Concat(u.bodies) <==> !u.early
  {
    PrefixesConcat(u.stored, u.bodies);
  }

  /**
   A save that succeeded, and whose upload ended without error, has hashed and stored
   locally exactly the reader's content, and sent it in parts of the exact size. Each
   part is listed with the MD5 of what was hashed of it when the store answered, and
   the store holds the completed object under the ETag of that list. The object is
   the reader's content if and only if the store accepted no part early: before the
   pipe of its PUT had carried all of it. While the caller's context lives every save
   that succeeded is one of these, and reports that ETag.
   */
  lemma SaveEndToEnd(cfg: Config, s: State)
    requires cfg.Valid() && Reachable(cfg, s)
    requires s.prod.pc.Returned? && s.prod.pc.result.Ok? && (!s.ctx.callerDone || Succeeded(s.upl))
    ensures var h := s.prod.pc.result.value;
            && h.size == |cfg.content| && SizeAccepted(cfg, h.size)
            && h.hashed == cfg.content && s.prod.local == (if cfg.hasLocal then cfg.content else [])
            && s.upl.etag == MultipartETag(cfg.md5, s.upl.checked)
            && (s.clean.sent == [] ==> s.entry == Entry(None, Some(s.upl.etag)))
            && (!s.ctx.callerDone ==> s.clean.sent == [] && h.etag == s.upl.etag)
    ensures s.upl.bodies == Cut(cfg.content, cfg.partSize)
    ensures Concat(s.upl.bodies) == cfg.content && |s.upl.bodies| <= cfg.urls
    ensures Prefixes(s.upl.checked, s.upl.bodies) && s.upl.parts == PartsOf(cfg.md5, s.upl.checked)
    ensures Prefixes(s.upl.stored, s.upl.bodies)
    ensures Concat(s.upl.stored) == cfg.content <==> !s.upl.early
  {
    ReachableInv(cfg, s);
    if !s.ctx.callerDone {
      SuccessIsFinal(cfg, s);
    }
    SuccessSentAll(cfg, s);
    hide CutInv, UntroubledInv, CleanupInv;
    FinishedParts(cfg, s.upl);
    hide PartInv, Concat;
  }

  /**
   The exact condition for a Close that reports success, whether or not the caller's
   context has ended: unless cleanup has sent its request before, an object is stored
   if and only if the store's answer to the completion has been accepted by then. With
   the reading side closed it always is, and the save is one of SaveEndToEnd.
   */
  lemma SuccessIsStoredIff(cfg: Config, s: State, t: State)
    requires cfg.Valid() && Reachable(cfg, s) && s.prod.pc.Closing?
    requires Step(cfg, s, Produce(CloseReturns)) == Some(t) && t.prod.pc.result.Ok?
    ensures t.prod.pc.result.value.etag == s.upl.etag && t.upl == s.upl && t.entry == s.entry
    ensures s.clean.sent == [] ==> (s.entry.stored.Some? <==> s.upl.pc.Verifying? || Succeeded(s.upl))
    ensures ReaderClosed(s.upl) ==> Succeeded(t.upl) && s.upl.etag == MultipartETag(cfg.md5, s.upl.checked)
    ensures s.clean.sent == [] && s.entry.stored.Some? ==> s.entry.stored == Some(s.upl.etag)
    ensures !s.ctx.callerDone ==> ReaderClosed(s.upl)
  {
    ReachableInv(cfg, s);
    assert CutInv(cfg, s.upl, WriterClosed(s.prod)) && ContextInv(s.prod, s.upl, s.ctx);
    assert CompleteInv(cfg, s.upl, WriterClosed(s.prod));
    assert s.clean.sent == [] ==> StoreInv(s.upl, s.entry);
    hide Inv, PartInv, DataInv, IsCut, AllFull, Concat, MultipartETag;
  }

  /**
   A part's tag is the MD5 of its body if and only if all of it had been hashed when
   the tags were compared, or a shorter prefix has the same MD5.
   */
  lemma TagIsTheBodysIff(cfg: Config, s: State, i: nat)
    requires cfg.Valid() && Reachable(cfg, s) && !s.upl.cancelled && i < |s.upl.bodies|
    ensures i < |s.upl.parts| && i < |s.upl.checked| && s.upl.checked[i] <= s.upl.bodies[i]
    ensures s.upl.parts[i].etag == HexEncode(cfg.md5(s.upl.bodies[i])) <==>
              || |s.upl.checked[i]| == |s.upl.bodies[i]|
              || (s.upl.checked[i] < s.upl.bodies[i] && cfg.md5(s.upl.checked[i]) == cfg.md5(s.upl.bodies[i]))
  {
    ReachableInv(cfg, s);
    assert PartInv(cfg, s.upl);
    hide HexEncode, Inv;
    var checked, body := s.upl.checked[i], s.upl.bodies[i];
    if |checked| == |body| {
      assert checked == body;
    }
    if HexEncode(cfg.md5(checked)) == HexEncode(cfg.md5(body)) {
      HexIsInjective(cfg.md5(checked), cfg.md5(body));
    }
  }

  /** Every part list the store accepts agrees with what it recorded. */
  lemma CompletedPartsAgree(cfg: Config, s: State, etag: ETag, quoted: bool)
    requires cfg.Valid() && Reachable(cfg, s)
    requires Step(cfg, s, Send(PostComplete(Accepted(etag, quoted)))).Some?
    requires Step(cfg, s, Send(PostComplete(Accepted(etag, quoted)))).value.upl.pc.Verifying?
    ensures s.entry.multipart.Some? && Agrees(s.entry.multipart.value, s.upl.parts)
    ensures s.upl.bodies == Cut(s.upl.received, cfg.partSize) && Prefixes(s.upl.checked, s.upl.bodies)
    ensures s.upl.parts == PartsOf(cfg.md5, s.upl.checked)
    ensures Concat(s.upl.stored) == s.upl.received <==> !s.upl.early
  {
    ReachableInv(cfg, s);
    assert ContextInv(s.prod, s.upl, s.ctx) && CutInv(cfg, s.upl, WriterClosed(s.prod)) && PartInv(cfg, s.upl);
    CutIsUnique(s.upl.bodies, cfg.partSize);
    hide Inv, PartsOf, Prefixes, Concat, HeaderFor, ExtractETag, Agrees;
    FinishedParts(cfg, s.upl);
  }

  /**
   When nothing fails the result depends on the sizes alone: a declared size that
   is wrong, then a content longer than partSize * urls, then success.
   */
  lemma UntroubledSave(cfg: Config, s: State)
    requires cfg.Valid() && Reachable(cfg, s) && s.prod.pc.Returned? && !s.failed && !ProducerTrouble(s.prod)
    ensures s.prod.pc.result.Ok? <==>
              SizeAccepted(cfg, |cfg.content|) && |cfg.content| <= cfg.urls * cfg.partSize
    ensures s.prod.pc.result == Err(EntityTooLarge) <==>
              SizeAccepted(cfg, |cfg.content|) && |cfg.content| > cfg.urls * cfg.partSize
    ensures s.prod.pc.result == Err(WrongSize) <==> !SizeAccepted(cfg, |cfg.content|)
  {
    ReachableInv(cfg, s);
    assert UntroubledInv(cfg, s.prod, s.upl, s.ctx);
    hide Inv;
  }

  /** Complete is never sent for more bytes than the parts can hold, and when
      nothing fails it is sent exactly for streams that fit. */
  lemma CompleteExactlyWhenItFits(cfg: Config, s: State)
    requires cfg.Valid() && Reachable(cfg, s)
    ensures s.upl.completeSent ==> |s.upl.received| <= cfg.urls * cfg.partSize
    ensures !s.failed && s.upl.pc.Exited? ==>
              (s.upl.completeSent <==> |s.upl.received| <= cfg.urls * cfg.partSize)
    ensures !s.failed && s.upl.pc.Exited? ==>
              (s.upl.error == Some(NotEnoughParts) <==> |s.upl.received| > cfg.urls * cfg.partSize)
    ensures !s.failed && s.upl.pc.Exited? && !ProducerTrouble(s.prod) ==> s.upl.received == cfg.content
  {
    ReachableInv(cfg, s);
    assert CompleteInv(cfg, s.upl, WriterClosed(s.prod)) && CutInv(cfg, s.upl, WriterClosed(s.prod));
    if !s.failed && s.upl.pc.Exited? {
      assert UntroubledInv(cfg, s.prod, s.upl, s.ctx);
      UntroubledResult(cfg, s.upl, WriterClosed(s.prod));
    }
    hide Inv;
  }

  /**
   A save that fails on its own side, with a wrong size, a read error or a local
   write error, ends the stream like any other: unless the upload itself fails, what
   was read so far is completed in the store exactly when it fits the parts.
   */
  lemma FailedSaveIsStored(cfg: Config, s: State)
    requires cfg.Valid() && Reachable(cfg, s) && !s.failed && s.prod.pc.Returned? && s.prod.pc.result.Err?
    ensures s.upl.pc.Exited? && s.upl.received <= cfg.content
    ensures s.clean.sent == [] ==>
              (s.entry.stored.Some? <==> |s.upl.received| <= cfg.urls * cfg.partSize)
    ensures s.entry.stored.Some? && s.clean.sent == [] ==> Concat(s.upl.stored) == s.upl.received
  {
    ReachableInv(cfg, s);
    assert UntroubledInv(cfg, s.prod, s.upl, s.ctx) && ContextInv(s.prod, s.upl, s.ctx);
    var eof := WriterClosed(s.prod);
    assert CutInv(cfg, s.upl, eof) && PartInv(cfg, s.upl) && DataInv(cfg, s.prod, s.upl.received);
    UntroubledResult(cfg, s.upl, eof);
    if s.upl.error.None? {
      FinishedParts(cfg, s.upl);
    }
    hide PartInv, UntroubledInv, CleanupInv, CompleteInv, DataInv, AllFull, IsCut;
  }

  // ---------------------------------------------------------------------------
  // Cleanup
  // ---------------------------------------------------------------------------

  /** At most one DELETE is ever sent, so never both; DeleteURL only after the
      caller's context is done; an empty URL sends nothing. */
  lemma OneCleanupRequest(cfg: Config, s: State)
    requires cfg.Valid() && Reachable(cfg, s)
    ensures s.clean.sent in {[], [AbortURL], [DeleteURL]}
    ensures DeleteURL in s.clean.sent ==> s.ctx.callerDone && cfg.deleteSet
    ensures AbortURL in s.clean.sent ==> cfg.abortSet && s.upl.error.Some?
    ensures s.clean.sent != [] ==> s.ctx.upload.Some? && s.clean.pc.Cleaned?
  {
    ReachableInv(cfg, s);
    assert CleanupInv(cfg, s.upl, s.ctx, s.clean) && ContextInv(s.prod, s.upl, s.ctx);
    hide Inv;
  }

  predicate UploadFailed(s: State) { s.upl.error.Some? }

  /**
   Once both goroutines have finished, cleanup has chosen the abort exactly when
   the upload failed and its outcome was recorded before cleanup looked.
   */
  lemma CleanupChoosesExactly(cfg: Config, s: State)
    requires cfg.Valid() && Reachable(cfg, s) && s.clean.pc.Cleaned? && ReaderClosed(s.upl)
    ensures s.clean.pc.chosen == AbortURL <==> UploadFailed(s) && !s.clean.early
    ensures s.clean.sent == (if s.clean.pc.chosen == AbortURL
                             then (if cfg.abortSet then [AbortURL] else [])
                             else (if cfg.deleteSet then [DeleteURL] else []))
  {
    ReachableInv(cfg, s);
    assert CleanupInv(cfg, s.upl, s.ctx, s.clean);
    hide Inv;
  }

  /**
   The promise of the design: when the uploading goroutine ends before its
   deadline and before the caller's context, a failed upload is aborted and any
   other is deleted once the caller is done.
   */
  lemma CleanupInTime(cfg: Config, s: State)
    requires cfg.Valid() && Reachable(cfg, s) && s.clean.pc.Cleaned?
    requires s.ctx.upload == Some(Finished)
    ensures s.clean.pc.chosen == AbortURL <==> UploadFailed(s)
    ensures s.clean.pc.chosen == DeleteURL ==> s.ctx.callerDone
    ensures s.clean.sent == (if UploadFailed(s) then (if cfg.abortSet then [AbortURL] else [])
                             else (if cfg.deleteSet then [DeleteURL] else []))
  {
    ReachableInv(cfg, s);
    assert CleanupInv(cfg, s.upl, s.ctx, s.clean) && ContextInv(s.prod, s.upl, s.ctx);
    hide Inv;
  }

  /** The request that cleanup is about to send. */
  function UrlToSend(s: State): Url {
    if s.clean.pc.Aborting? then AbortURL else DeleteURL
  }

  /**
   When cleanup's request arrives, neither an unfinished upload nor an object is left
   if and only if an abort finds no completion recorded, or a delete finds one. For
   an upload that ended before cleanup looked, only the abort can leave something: the
   object of a completion whose answer was lost or did not agree.
   */
  lemma NothingLeftBehind(cfg: Config, s: State)
    requires cfg.Valid() && Reachable(cfg, s) && cfg.abortSet && cfg.deleteSet
    requires Step(cfg, s, SendDelete(true)).Some?
    ensures Step(cfg, s, SendDelete(true)).value.entry == Entry(None, None)
            <==> (UrlToSend(s) == AbortURL <==> s.entry.stored.None?)
    ensures !s.clean.early && UrlToSend(s) == DeleteURL ==> s.entry.stored.Some?
    ensures Remove(s.entry) == Entry(None, None)   // the test stub makes no difference between the two
  {
    ReachableInv(cfg, s);
    assert CleanupInv(cfg, s.upl, s.ctx, s.clean) && StoreInv(s.upl, s.entry);
    hide Inv;
  }
}
