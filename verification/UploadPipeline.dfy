/**
 The multipart upload of SaveFileFromReader as a system of steps
 (internal/filestore/file_handler.go, internal/objectstore/multipart.go,
 internal/objectstore/uploader.go).

 The producer copies the reader into the hashes, a synchronous pipe and a local
 file. The uploading goroutine cuts the pipe into parts, sends them, drains the
 pipe and completes the upload. The cleanup goroutine waits for the upload
 context and sends one DELETE. The deadline and the end of the caller's context
 are steps of their own, which may happen at any time. The PUT of a part is the
 single-PUT upload of module ObjectUpload, step by step. The store answers whatever
 and whenever it likes; requests and answers may be lost.
 */
module UploadPipeline {
  import opened Wrappers
  import opened Bytes
  import opened ObjectStore
  import opened PartArithmetic
  import ObjectUpload

  datatype UploadError = TempFile | PartFailed | NotEnoughParts | CompleteFailed | ETagMismatch

  datatype SaveError =
    | OpenFailed
    | ReadFailed
    | WriteFailed
    | WrongSize
    | DeadlineExceeded
    | EntityTooLarge
    | Upload(error: UploadError)

  /** The caller's request: what the reader holds and where it is to go. */
  datatype Config = Config(
    content: Bytes,
    declared: Option<nat>,   // None is the source's size -1
    partSize: nat,
    urls: nat,
    hasLocal: bool,
    abortSet: bool,          // AbortURL is not empty
    deleteSet: bool,
    md5: Bytes -> Bytes)
  {
    predicate Valid() { partSize > 0 }   // IsMultipart
  }

  datatype Handler = Handler(size: nat, hashed: Bytes, etag: ETag)

  datatype ProducerPc =
    | Opening
    | Reading
    | PipeWriting(chunk: Bytes, rest: Bytes)   // Write blocks until rest is empty
    | LocalWriting(data: Bytes)
    | Closing                                  // pipe closed, waiting for the upload context
    | Failing(error: SaveError)                // deferred closes after an error
    | Returned(result: Result<Handler, SaveError>)

  datatype Producer = Producer(
    pc: ProducerPc,
    consumed: nat,   // bytes taken from the reader
    hashed: Bytes,
    local: Bytes)

  datatype UploaderPc =
    | Filling(buffer: Bytes)
    | Putting(chunks: seq<Bytes>, put: ObjectUpload.State)   // the body, as CopyN reads it
    | Draining(drained: Bytes)
    | Completing
    | Verifying
    | Ended         // outcome recorded, pipe reader closed
    | Exited        // context cancelled

  datatype Uploader = Uploader(
    pc: UploaderPc,
    received: Bytes,                // all bytes ever read from the pipe
    bodies: seq<Bytes>,             // bodies of the parts that were sent
    stored: seq<Bytes>,             // what the store has taken of each
    checked: seq<Bytes>,            // what of each was hashed when the ETags were compared
    parts: seq<Part>,               // cmu.Part
    etag: ETag,
    error: Option<UploadError>,     // uploadError
    completeSent: bool,
    early: bool,                    // a part was accepted before all of it had been carried
    cancelled: bool)                // a part's Close returned because the caller was gone

  datatype Cause = Finished | Deadline | CallerGone

  /** The upload context and the caller's own. */
  datatype Contexts = Contexts(upload: Option<Cause>, callerDone: bool)

  datatype Url = AbortURL | DeleteURL

  datatype CleanupPc = WaitUpload | Aborting | WaitCaller | Cleaned(chosen: Url)

  datatype Cleanup = Cleanup(
    pc: CleanupPc,
    early: bool,                    // it looked before the outcome was recorded
    sent: seq<Url>)                 // DELETE requests sent

  datatype State = State(
    prod: Producer,
    upl: Uploader,
    ctx: Contexts,
    clean: Cleanup,
    entry: Entry,                   // the store
    failed: bool)                   // a request or a context has failed, or the store has misbehaved

  /** What happens to the POST that completes the upload. */
  datatype CompleteReply =
    | Accepted(etag: ETag, quoted: bool)
    | InBodyError(recorded: ETag)
    | Lost(arrived: Option<ETag>)

  datatype ProducerAction =
    | OpenLocal(ok: bool)
    | ReadChunk(n: nat)
    | ReadFails
    | ReadEnd
    | PipeWriteReturns
    | PipeWriteFails
    | LocalWrite(written: nat)
    | CloseReturns

  datatype UploaderAction =
    | PartBuffered(chunks: seq<Bytes>)
    | TempFileFails
    | PartStep(a: ObjectUpload.Action, tag: ETag)   // the tag of a request that arrives without an answer
    | PartReturns(late: Option<ETag>)               // the tag of a request that arrives after Close
    | DrainEnd
    | PostComplete(post: CompleteReply)
    | Verify
    | Exit

  datatype Action =
    | Produce(p: ProducerAction)
    | Send(u: UploaderAction)
    | Transfer(n: nat)              // the uploader reads n bytes of the blocked Write
    | DeadlineFires
    | CallerCancels
    | Look
    | SendDelete(arrives: bool)

  /** An entity tag has no quotes of its own (RFC 7232, section 2.3). */
  predicate Tag(etag: ETag, quoted: bool) { quoted || etag == "" || etag[0] != '"' }

  // ---------------------------------------------------------------------------
  // Pieces of state
  // ---------------------------------------------------------------------------

  /** The pipe is closed for writing: io.EOF once it is empty. */
  predicate WriterClosed(p: Producer) { p.pc.Closing? || p.pc.Failing? || p.pc.Returned? }

  predicate ReaderClosed(u: Uploader) { u.pc.Ended? || u.pc.Exited? }

  function Init(cfg: Config): State {
    State(Producer(if cfg.hasLocal then Opening else Reading, 0, [], []),
          Uploader(NextPart(cfg, []), [], [], [], [], [], "", None, false, false, false),
          Contexts(None, false), Cleanup(WaitUpload, false, []), Entry(Some(map[]), None), false)
  }

  // ---------------------------------------------------------------------------
  // Producer
  // ---------------------------------------------------------------------------

  /** Close: deadline first, then the recorded outcome. */
  function CloseResult(p: Producer, u: Uploader, cause: Cause): Result<Handler, SaveError> {
    if cause == Deadline then Err(DeadlineExceeded)
    else match u.error
      case Some(NotEnoughParts) => Err(EntityTooLarge)
      case Some(e) => Err(Upload(e))
      case None => Ok(Handler(p.consumed, p.hashed, u.etag))
  }

  function ProducerStep(cfg: Config, p: Producer, u: Uploader, done: Option<Cause>, a: ProducerAction)
    : Option<Producer>
  {
    match a
    case OpenLocal(ok) =>
      if !p.pc.Opening? then None
      else Some(p.(pc := if ok then Reading else Failing(OpenFailed)))
    case ReadChunk(n) =>
      if !p.pc.Reading? || !(0 < n <= |cfg.content| - p.consumed) then None
      else
        var chunk := cfg.content[p.consumed..p.consumed + n];
        Some(Producer(PipeWriting(chunk, chunk), p.consumed + n, p.hashed + chunk, p.local))
    case ReadFails =>
      if !p.pc.Reading? then None else Some(p.(pc := Failing(ReadFailed)))
    case ReadEnd =>
      if !p.pc.Reading? || p.consumed != |cfg.content| then None
      else if cfg.declared.Some? && cfg.declared.value != p.consumed then Some(p.(pc := Failing(WrongSize)))
      else Some(p.(pc := Closing))
    case PipeWriteReturns =>
      if !p.pc.PipeWriting? || p.pc.rest != [] then None
      else Some(p.(pc := if cfg.hasLocal then LocalWriting(p.pc.chunk) else Reading))
    case PipeWriteFails =>
      if !p.pc.PipeWriting? || p.pc.rest == [] || !ReaderClosed(u) then None
      else Some(p.(pc := Failing(if u.error.Some? then Upload(u.error.value) else WriteFailed)))
    case LocalWrite(n) =>
      if !p.pc.LocalWriting? || n > |p.pc.data| then None
      else Some(p.(local := p.local + p.pc.data[..n],
                   pc := if n == |p.pc.data| then Reading else Failing(WriteFailed)))
    case CloseReturns =>
      if done.None? then None
      else if p.pc.Closing? then Some(p.(pc := Returned(CloseResult(p, u, done.value))))
      else if p.pc.Failing? then Some(p.(pc := Returned(Err(p.pc.error))))
      else None
  }

  /** The reader or a local write has failed. */
  predicate ProducerTrouble(p: Producer) {
    || (p.pc.Failing? && p.pc.error in {OpenFailed, ReadFailed, WriteFailed})
    || (p.pc.Returned? && p.pc.result.Err? && p.pc.result.error in {OpenFailed, ReadFailed, WriteFailed})
  }

  // ---------------------------------------------------------------------------
  // Uploader
  // ---------------------------------------------------------------------------

  /** Records the outcome and closes the reading side of the pipe. */
  function End(u: Uploader, e: Option<UploadError>): Uploader {
    u.(pc := Ended, error := e)
  }

  /** The loop over the part URLs: the next part, or the drain. */
  function NextPart(cfg: Config, bodies: seq<Bytes>): UploaderPc {
    if |bodies| < cfg.urls then Filling([]) else Draining([])
  }

  /** The upload of one part: no DeleteURL, so its own cleanup sends nothing. */
  function PartConfig(cfg: Config, chunks: seq<Bytes>): ObjectUpload.Config {
    ObjectUpload.Config(chunks, false, cfg.md5)
  }

  /** The part's context ends at the same deadline, and with the upload's own. */
  predicate PartMay(a: ObjectUpload.Action, cause: Option<Cause>) {
    !a.Look? && !a.Delete? && (a.CallerCancels? ==> cause == Some(CallerGone))
  }

  predicate AcceptedEarly(cfg: Config, chunks: seq<Bytes>, put: ObjectUpload.State, a: ObjectUpload.Action) {
    a.Answered? && a.answer.Accepted? && ObjectUpload.RestOf(PartConfig(cfg, chunks), put.prod) != []
  }

  /** What the store records when an answer, or a request without one, reaches it. */
  function PartRecorded(e: Entry, number: nat, a: ObjectUpload.Action, tag: ETag): Entry {
    if a.Answered? && a.answer.Accepted? then Put(e, number, a.answer.etag)
    else if a.Answered? && a.answer == ObjectUpload.Lost(true) then Put(e, number, tag)
    else e
  }

  function PartStepOf(cfg: Config, u: Uploader, e: Entry, cause: Option<Cause>, a: ObjectUpload.Action, tag: ETag)
    : Option<(Uploader, Entry)>
    requires u.pc.Putting?
  {
    var step := ObjectUpload.Step(PartConfig(cfg, u.pc.chunks), u.pc.put, a);
    if !PartMay(a, cause) || step.None? then None
    else
      Some((u.(pc := Putting(u.pc.chunks, step.value),
               early := u.early || AcceptedEarly(cfg, u.pc.chunks, u.pc.put, a)),
            PartRecorded(e, |u.parts| + 1, a, tag)))
  }

  /** uploadPart returns: an error, or whatever ETag has been recorded. */
  function PartReturned(cfg: Config, u: Uploader, e: Entry, late: Option<ETag>): Option<(Uploader, Entry)>
    requires u.pc.Putting?
  {
    var put, number := u.pc.put, |u.parts| + 1;
    if !put.prod.pc.Returned? || (late.Some? && !put.upl.pc.Putting?) then None
    else
      var e' := if late.Some? then Put(e, number, late.value) else e;
      if put.prod.pc.error.Some? then Some((End(u, Some(PartFailed)), e'))
      else
        var bodies := u.bodies + [Concat(u.pc.chunks)];
        Some((u.(pc := NextPart(cfg, bodies), bodies := bodies,
                 stored := u.stored + [if put.stored.Some? then put.stored.value else []],
                 checked := u.checked + [if put.upl.checked.Some? then put.upl.checked.value else []],
                 parts := u.parts + [Part(number, put.upl.etag)],
                 cancelled := u.cancelled || put.callerDone), e'))
  }

  /** What the store makes of a POST that reaches it. */
  function Recorded(e: Entry, parts: seq<Part>, arrived: Option<ETag>): Entry {
    if arrived.Some? && Complete(e, parts, arrived.value).Some?
    then Complete(e, parts, arrived.value).value else e
  }

  function PostStep(u: Uploader, e: Entry, live: bool, reply: CompleteReply): Option<(Uploader, Entry)> {
    var u0 := u.(completeSent := true);
    match reply
    case Lost(arrived) => Some((End(u0, Some(CompleteFailed)), Recorded(e, u.parts, arrived)))
    case InBodyError(recorded) =>
      Some((End(u0, Some(CompleteFailed)), Recorded(e, u.parts, Some(recorded))))
    case Accepted(etag, quoted) =>
      var answer := ExtractETag(HeaderFor(etag, quoted));
      if !live || !Tag(etag, quoted) then None
      else if Complete(e, u.parts, etag).None? || answer.None? then
        Some((End(u0, Some(CompleteFailed)), Recorded(e, u.parts, Some(etag))))
      else Some((u0.(etag := answer.value, pc := Verifying), Recorded(e, u.parts, Some(etag))))
  }

  /** `eof` says the pipe is closed for writing, `cause` whether and why the upload context is done. */
  function UploaderStep(cfg: Config, u: Uploader, e: Entry, eof: bool, cause: Option<Cause>, a: UploaderAction)
    : Option<(Uploader, Entry)>
  {
    match a
    case PartBuffered(chunks) =>
      if !u.pc.Filling? || (|u.pc.buffer| < cfg.partSize && !eof) then None
      else if u.pc.buffer == [] then Some((u.(pc := Draining([])), e))
      else if Concat(chunks) != u.pc.buffer || [] in chunks then None
      else Some((u.(pc := Putting(chunks, ObjectUpload.Init())), e))
    case TempFileFails =>
      if !u.pc.Filling? then None else Some((End(u, Some(TempFile)), e))
    case PartStep(pa, tag) =>
      if !u.pc.Putting? then None else PartStepOf(cfg, u, e, cause, pa, tag)
    case PartReturns(late) =>
      if !u.pc.Putting? then None else PartReturned(cfg, u, e, late)
    case DrainEnd =>
      if !u.pc.Draining? || !eof then None
      else if u.pc.drained != [] then Some((End(u, Some(NotEnoughParts)), e))
      else Some((u.(pc := Completing), e))
    case PostComplete(reply) =>
      if !u.pc.Completing? then None else PostStep(u, e, cause.None?, reply)
    case Verify =>
      if !u.pc.Verifying? then None
      else if BuildETag(cfg.md5, u.parts) == Some(u.etag) then Some((End(u, None), e))
      else Some((End(u, Some(ETagMismatch)), e))
    case Exit =>
      if !u.pc.Ended? then None else Some((u.(pc := Exited), e))
  }

  predicate UploaderTrouble(cfg: Config, u: Uploader) {
    || (ReaderClosed(u) && u.error != None && u.error != Some(NotEnoughParts))
    || (u.pc.Putting? && !ObjectUpload.OnTrack(PartConfig(cfg, u.pc.chunks), u.pc.put))
  }

  /** Up to the part size when a part is being buffered, without bound in the drain. */
  function Receive(cfg: Config, u: Uploader, data: Bytes): Option<Uploader> {
    var u' := u.(received := u.received + data);
    if u.pc.Filling? && |u.pc.buffer| + |data| <= cfg.partSize then
      Some(u'.(pc := Filling(u.pc.buffer + data)))
    else if u.pc.Draining? then Some(u'.(pc := Draining(u.pc.drained + data)))
    else None
  }

  // ---------------------------------------------------------------------------
  // Contexts and cleanup
  // ---------------------------------------------------------------------------

  function Cancel(c: Contexts, cause: Cause): Contexts {
    if c.upload.None? then c.(upload := Some(cause)) else c
  }

  function LookStep(c: Cleanup, u: Uploader): Cleanup {
    Cleanup(if u.error.Some? then Aborting else WaitCaller, !ReaderClosed(u), c.sent)
  }

  /** An abort ends the upload in progress, a delete removes the finished object. */
  function Removed(e: Entry, url: Url): Entry {
    match url
    case AbortURL => e.(multipart := None)
    case DeleteURL => e.(stored := None)
  }

  /** syncAndDelete: an empty URL sends nothing. */
  function SendTo(c: Cleanup, url: Url, isSet: bool): Cleanup {
    c.(pc := Cleaned(url), sent := if isSet then c.sent + [url] else c.sent)
  }

  // ---------------------------------------------------------------------------
  // The system
  // ---------------------------------------------------------------------------

  function Step(cfg: Config, s: State, a: Action): Option<State> {
    match a
    case Produce(pa) =>
      (match ProducerStep(cfg, s.prod, s.upl, s.ctx.upload, pa)
       case None => None
       case Some(p) => Some(s.(prod := p)))
    case Send(ua) =>
      (match UploaderStep(cfg, s.upl, s.entry, WriterClosed(s.prod), s.ctx.upload, ua)
       case None => None
       case Some((u, e)) =>
         Some(s.(upl := u, entry := e, failed := s.failed || UploaderTrouble(cfg, u),
                 ctx := if u.pc.Exited? then Cancel(s.ctx, Finished) else s.ctx)))
    case Transfer(n) =>
      if !s.prod.pc.PipeWriting? || !(0 < n <= |s.prod.pc.rest|) then None
      else
        (match Receive(cfg, s.upl, s.prod.pc.rest[..n])
         case None => None
         case Some(u) =>
           Some(s.(upl := u, prod := s.prod.(pc := PipeWriting(s.prod.pc.chunk, s.prod.pc.rest[n..])))))
    case DeadlineFires =>
      if s.ctx.upload.Some? then None
      else Some(s.(ctx := Cancel(s.ctx, Deadline), failed := true))
    case CallerCancels =>
      if s.ctx.callerDone then None
      else Some(s.(ctx := Cancel(s.ctx, CallerGone).(callerDone := true),
                   failed := s.failed || s.ctx.upload.None?))
    case Look =>
      if !s.clean.pc.WaitUpload? || s.ctx.upload.None? then None
      else Some(s.(clean := LookStep(s.clean, s.upl)))
    case SendDelete(arrives) =>
      if !(s.clean.pc.Aborting? || (s.clean.pc.WaitCaller? && s.ctx.callerDone)) then None
      else
        var url := if s.clean.pc.Aborting? then AbortURL else DeleteURL;
        var isSet := if s.clean.pc.Aborting? then cfg.abortSet else cfg.deleteSet;
        Some(s.(clean := SendTo(s.clean, url, isSet),
                entry := if isSet && arrives then Removed(s.entry, url) else s.entry))
  }

  function Run(cfg: Config, s: State, acts: seq<Action>): Option<State>
    decreases |acts|
  {
    if acts == [] then Some(s)
    else match Step(cfg, s, acts[0])
      case None => None
      case Some(s') => Run(cfg, s', acts[1..])
  }

  ghost predicate Reachable(cfg: Config, s: State) {
    exists acts :: Run(cfg, Init(cfg), acts) == Some(s)
  }
}
