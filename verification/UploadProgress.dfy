/** Progress of the upload pipeline: its runs are finite and none gets stuck. */
module UploadProgress {
  import opened Wrappers
  import opened Bytes
  import opened ObjectStore
  import opened PartArithmetic
  import opened UploadPipeline
  import opened UploadSafety
  import ObjectUpload

  // ---------------------------------------------------------------------------
  // Every run is finite
  // ---------------------------------------------------------------------------

  function ProducerLeft(cfg: Config, p: Producer): int {
    4 * (|cfg.content| - p.consumed) +
    match p.pc
    case Opening => 6
    case PipeWriting(_, rest) => 4 + |rest|
    case LocalWriting(_) => 3
    case Reading => 2
    case Closing | Failing(_) => 1
    case Returned(_) => 0
  }

  /** The bytes of the parts begun so far. */
  function Begun(u: Uploader): nat {
    |Concat(u.bodies)| + if u.pc.Putting? then |Concat(u.pc.chunks)| else 0
  }

  function UploaderLeft(cfg: Config, u: Uploader): int {
    12 * (cfg.urls - |u.bodies|) +
    match u.pc
    case Filling(_) => 16 + 5 * (|cfg.content| - Begun(u))
    case Putting(chunks, put) => 5 + ObjectUpload.Left(PartConfig(cfg, chunks), put) + 5 * (|cfg.content| - Begun(u))
    case Draining(_) => 4
    case Completing => 3
    case Verifying => 2
    case Ended => 1
    case Exited => 0
  }

  predicate BegunFits(cfg: Config, u: Uploader) {
    u.pc.Filling? || u.pc.Putting? ==> Begun(u) <= |cfg.content|
  }

  lemma InvBegunFits(cfg: Config, s: State)
    requires Inv(cfg, s)
    ensures BegunFits(cfg, s.upl)
  {
    assert DataInv(cfg, s.prod, s.upl.received) && CutInv(cfg, s.upl, WriterClosed(s.prod));
    hide Inv, AllFull, IsCut, Concat;
  }

  function ContextLeft(c: Contexts, k: Cleanup): nat {
    (if c.upload.None? then 1 else 0) + (if c.callerDone then 0 else 1) +
    match k.pc
    case WaitUpload => 2
    case Aborting | WaitCaller => 1
    case Cleaned(_) => 0
  }

  function Left(cfg: Config, s: State): int {
    ProducerLeft(cfg, s.prod) + UploaderLeft(cfg, s.upl) + ContextLeft(s.ctx, s.clean)
  }

  lemma ProducerUsesUp(cfg: Config, p: Producer, u: Uploader, done: Option<Cause>, a: ProducerAction)
    requires ProducerStep(cfg, p, u, done, a).Some?
    ensures ProducerLeft(cfg, ProducerStep(cfg, p, u, done, a).value) < ProducerLeft(cfg, p)
  {
  }

  /** A part without empty chunks takes at most five steps per byte. */
  lemma {:induction false} ChunksAreBounded(chunks: seq<Bytes>, k: nat)
    requires [] !in chunks && k <= |chunks|
    ensures ObjectUpload.ChunksLeft(chunks, k) <= 5 * |Concat(chunks[k..])|
    decreases |chunks| - k
  {
    if k < |chunks| {
      ChunksAreBounded(chunks, k + 1);
      ConcatTail(chunks, k);
      assert chunks[k] in chunks;
    }
  }

  lemma ReturnUsesUp(cfg: Config, u: Uploader, e: Entry, late: Option<ETag>)
    requires u.pc.Putting? && PartReturned(cfg, u, e, late).Some? && BegunFits(cfg, u)
    ensures UploaderLeft(cfg, PartReturned(cfg, u, e, late).value.0) < UploaderLeft(cfg, u)
  {
    hide ObjectUpload.Left, Concat, Put;
    ConcatAppend(u.bodies, Concat(u.pc.chunks));
    if u.pc.put.prod.pc.error.None? {
      var u' := PartReturned(cfg, u, e, late).value.0;
      assert u'.bodies == u.bodies + [Concat(u.pc.chunks)];
      assert Begun(u') == Begun(u);
    }
  }

  lemma PutStepUsesUp(cfg: Config, u: Uploader, e: Entry, cause: Option<Cause>, a: ObjectUpload.Action, tag: ETag)
    requires u.pc.Putting? && PartStepOf(cfg, u, e, cause, a, tag).Some?
    ensures UploaderLeft(cfg, PartStepOf(cfg, u, e, cause, a, tag).value.0) < UploaderLeft(cfg, u)
  {
    hide ObjectUpload.Left, ObjectUpload.Step;
    ObjectUpload.StepUsesUp(PartConfig(cfg, u.pc.chunks), u.pc.put, a);
  }

  lemma BufferedUsesUp(cfg: Config, chunks: seq<Bytes>)
    requires [] !in chunks
    ensures ObjectUpload.Left(PartConfig(cfg, chunks), ObjectUpload.Init()) <= 5 * |Concat(chunks)| + 10
  {
    ChunksAreBounded(chunks, 0);
    assert chunks[0..] == chunks;
  }

  lemma UploaderUsesUp(cfg: Config, u: Uploader, e: Entry, eof: bool, cause: Option<Cause>, a: UploaderAction)
    requires UploaderStep(cfg, u, e, eof, cause, a).Some?
    requires BegunFits(cfg, u) && BegunFits(cfg, UploaderStep(cfg, u, e, eof, cause, a).value.0)
    ensures UploaderLeft(cfg, UploaderStep(cfg, u, e, eof, cause, a).value.0) < UploaderLeft(cfg, u)
  {
    hide ObjectUpload.Left, PartStepOf, PartReturned, Recorded, Complete, BuildETag, HeaderFor, ExtractETag, Concat;
    match a {
      case PartBuffered(chunks) =>
        if u.pc.buffer != [] {
          BufferedUsesUp(cfg, chunks);
        }
      case PartStep(pa, tag) => PutStepUsesUp(cfg, u, e, cause, pa, tag);
      case PartReturns(late) => ReturnUsesUp(cfg, u, e, late);
      case _ =>
    }
  }

  lemma TransferUsesUp(cfg: Config, s: State, n: nat)
    requires Step(cfg, s, Transfer(n)).Some?
    ensures Left(cfg, Step(cfg, s, Transfer(n)).value) < Left(cfg, s)
  {
    hide Concat;
  }

  lemma StepUsesUp(cfg: Config, s: State, a: Action)
    requires cfg.Valid() && Inv(cfg, s) && Step(cfg, s, a).Some?
    ensures Left(cfg, Step(cfg, s, a).value) < Left(cfg, s)
  {
    StepKeepsInv(cfg, s, a);
    InvBegunFits(cfg, s);
    InvBegunFits(cfg, Step(cfg, s, a).value);
    hide UploaderStep, Inv, ObjectUpload.Left, BegunFits, ProducerStep, Receive, Begun, Removed;
    match a {
      case Produce(pa) => ProducerUsesUp(cfg, s.prod, s.upl, s.ctx.upload, pa);
      case Send(ua) => UploaderUsesUp(cfg, s.upl, s.entry, WriterClosed(s.prod), s.ctx.upload, ua);
      case Transfer(n) => TransferUsesUp(cfg, s, n);
      case _ =>
    }
  }

  lemma LeftIsNotNegative(cfg: Config, s: State)
    requires Inv(cfg, s)
    ensures 0 <= ProducerLeft(cfg, s.prod) && 0 <= UploaderLeft(cfg, s.upl) && 0 <= Left(cfg, s)
  {
    InvBegunFits(cfg, s);
    assert DataInv(cfg, s.prod, s.upl.received) && CutInv(cfg, s.upl, WriterClosed(s.prod));
    hide Inv, AllFull, IsCut, Concat, ObjectUpload.Left, Begun;
  }

  /** No run has more than 9 steps per byte and 12 per part URL, plus 26. */
  lemma {:induction false} RunsAreBounded(cfg: Config, s: State, acts: seq<Action>)
    requires cfg.Valid() && Inv(cfg, s) && Run(cfg, s, acts).Some?
    ensures |acts| <= Left(cfg, s)
    ensures s == Init(cfg) ==> |acts| <= 9 * |cfg.content| + 12 * cfg.urls + 26
    decreases |acts|
  {
    if acts == [] {
      LeftIsNotNegative(cfg, s);
    } else {
      StepUsesUp(cfg, s, acts[0]);
      StepKeepsInv(cfg, s, acts[0]);
      RunsAreBounded(cfg, Step(cfg, s, acts[0]).value, acts[1..]);
    }
  }

  // ---------------------------------------------------------------------------
  // No run gets stuck
  // ---------------------------------------------------------------------------

  predicate Over(s: State) { s.prod.pc.Returned? && s.upl.pc.Exited? }

  /** Nothing has failed, and the answer under verification is the right one. */
  predicate Untroubled(cfg: Config, s: State) {
    !s.failed && (s.upl.pc.Verifying? ==> s.upl.etag == MultipartETag(cfg.md5, s.upl.checked))
  }

  ghost predicate GoesOn(cfg: Config, s: State, a: Action) {
    && Step(cfg, s, a).Some? && Step(cfg, s, a).value.clean == s.clean
    && (Untroubled(cfg, s) ==>
          && Untroubled(cfg, Step(cfg, s, a).value)
          && (!ProducerTrouble(s.prod) ==> !ProducerTrouble(Step(cfg, s, a).value.prod)))
  }

  lemma ReadingCanGoOn(cfg: Config, s: State) returns (a: ProducerAction)
    requires Inv(cfg, s) && s.prod.pc.Reading?
    ensures GoesOn(cfg, s, Produce(a))
  {
    assert DataInv(cfg, s.prod, s.upl.received);
    hide Inv;
    a := if s.prod.consumed == |cfg.content| then ReadEnd else ReadChunk(|cfg.content| - s.prod.consumed);
  }

  lemma CloseCanGoOn(cfg: Config, s: State)
    requires Inv(cfg, s) && (s.prod.pc.Closing? || s.prod.pc.Failing?) && s.ctx.upload.Some?
    ensures GoesOn(cfg, s, Produce(CloseReturns))
  {
    assert !s.failed ==> UntroubledInv(cfg, s.prod, s.upl, s.ctx);
    hide Inv, ObjectUpload.OnTrack;
  }

  lemma WritingCanGoOn(cfg: Config, s: State) returns (a: ProducerAction)
    requires s.prod.pc.Opening? || s.prod.pc.LocalWriting? || (s.prod.pc.PipeWriting? && s.prod.pc.rest == [])
    ensures GoesOn(cfg, s, Produce(a))
  {
    hide Receive, UploaderStep, Complete, ExtractETag;
    a := match s.prod.pc
      case Opening => OpenLocal(true)
      case LocalWriting(data) => LocalWrite(|data|)
      case _ => PipeWriteReturns;
  }

  /** The producer can go on unless it waits for the pipe or for the context. */
  lemma ProducerCanGoOn(cfg: Config, s: State) returns (a: Action)
    requires Inv(cfg, s) && !s.prod.pc.Returned?
    requires s.prod.pc.PipeWriting? ==> s.prod.pc.rest == []
    requires WriterClosed(s.prod) ==> s.ctx.upload.Some?
    ensures GoesOn(cfg, s, a) && a.Produce?
  {
    hide Inv, GoesOn;
    if s.prod.pc.Reading? {
      var pa := ReadingCanGoOn(cfg, s);
      a := Produce(pa);
    } else if WriterClosed(s.prod) {
      CloseCanGoOn(cfg, s);
      a := Produce(CloseReturns);
    } else {
      var pa := WritingCanGoOn(cfg, s);
      a := Produce(pa);
    }
  }

  /** The PUT of a part can go on, and succeed when nothing has failed. */
  lemma PutCanSucceed(cfg: Config, s: State) returns (a: UploaderAction)
    requires Inv(cfg, s) && s.upl.pc.Putting?
    ensures GoesOn(cfg, s, Send(a))
  {
    assert PutInv(cfg, s.upl) && (!s.failed ==> UntroubledInv(cfg, s.prod, s.upl, s.ctx));
    assert !s.failed ==> ObjectUpload.OnTrack(PartConfig(cfg, s.upl.pc.chunks), s.upl.pc.put);
    hide Inv, MultipartETag, Concat, PartRecorded;
    if s.upl.pc.put.prod.pc.Returned? {
      ReturnCanGoOn(cfg, s);
      a := PartReturns(None);
    } else {
      hide UntroubledInv;
      var pa := ObjectUpload.CanGoOn(PartConfig(cfg, s.upl.pc.chunks), s.upl.pc.put);
      a := PartStep(pa, "");
      hide ObjectUpload.Step, ObjectUpload.OnTrack, ObjectUpload.Inv, ObjectUpload.RestOf;
    }
  }

  lemma ReturnCanGoOn(cfg: Config, s: State)
    requires s.upl.pc.Putting? && s.upl.pc.put.prod.pc.Returned?
    requires !s.failed ==> UntroubledInv(cfg, s.prod, s.upl, s.ctx)
    ensures GoesOn(cfg, s, Send(PartReturns(None)))
  {
    hide Concat, MultipartETag, SizesDecide;
  }

  lemma CompleteCanSucceed(cfg: Config, s: State) returns (a: UploaderAction)
    requires Inv(cfg, s) && s.upl.pc.Completing?
    ensures GoesOn(cfg, s, Send(a))
  {
    var tag := MultipartETag(cfg.md5, s.upl.checked);
    ExtractUndoesHeader(tag, true);
    a := PostComplete(if s.ctx.upload.None? then Accepted(tag, true) else Lost(None));
    assert !s.failed ==> UntroubledInv(cfg, s.prod, s.upl, s.ctx);
    assert ContextInv(s.prod, s.upl, s.ctx);
    if s.ctx.upload.None? {
      assert CleanupInv(cfg, s.upl, s.ctx, s.clean);
      assert s.clean.sent == [];
      assert StoreInv(s.upl, s.entry);
    }
  }

  lemma VerifyCanGoOn(cfg: Config, s: State)
    requires Inv(cfg, s) && s.upl.pc.Verifying?
    ensures GoesOn(cfg, s, Send(Verify))
  {
    assert CompleteInv(cfg, s.upl, WriterClosed(s.prod)) && PartInv(cfg, s.upl);
    BuildETagOfParts(cfg.md5, s.upl.checked);
    hide Inv, MultipartETag, BuildETag, PutInv;
  }

  lemma FillingCanGoOn(cfg: Config, s: State) returns (a: UploaderAction)
    requires Inv(cfg, s) && s.upl.pc.Filling?
    requires |s.upl.pc.buffer| == cfg.partSize || WriterClosed(s.prod)
    ensures GoesOn(cfg, s, Send(a))
  {
    var buffer := s.upl.pc.buffer;
    a := PartBuffered([buffer]);
    assert Concat([buffer]) == buffer by {
      ConcatAppend([], buffer);
      assert [] + [buffer] == [buffer];
    }
    assert CutInv(cfg, s.upl, WriterClosed(s.prod));
    hide Inv, Concat, AllFull, IsCut;
  }

  lemma EndCanGoOn(cfg: Config, s: State)
    requires Inv(cfg, s)
    ensures s.upl.pc.Draining? && WriterClosed(s.prod) ==> GoesOn(cfg, s, Send(DrainEnd))
    ensures s.upl.pc.Ended? ==> GoesOn(cfg, s, Send(Exit))
  {
    assert !s.failed ==> UntroubledInv(cfg, s.prod, s.upl, s.ctx);
    hide Inv;
  }

  /** While the save has not returned or the upload has not ended, one of the two
      can take a step, and no failure, deadline or cancellation is needed. */
  lemma NoDeadlock(cfg: Config, s: State) returns (a: Action)
    requires cfg.Valid() && Inv(cfg, s) && !Over(s)
    ensures GoesOn(cfg, s, a) && (a.Produce? || a.Send? || a.Transfer?)
  {
    var wantsPipe := (s.upl.pc.Filling? && |s.upl.pc.buffer| < cfg.partSize) || s.upl.pc.Draining?;
    if !s.upl.pc.Exited? && (!wantsPipe || WriterClosed(s.prod)) {
      EndCanGoOn(cfg, s);
      hide Inv, GoesOn;
      var ua: UploaderAction;
      match s.upl.pc {
        case Filling(_) => ua := FillingCanGoOn(cfg, s);
        case Draining(_) => ua := DrainEnd;
        case Ended => ua := Exit;
        case Putting(_, _) => ua := PutCanSucceed(cfg, s);
        case Completing => ua := CompleteCanSucceed(cfg, s);
        case Verifying =>
          ua := Verify;
          VerifyCanGoOn(cfg, s);
      }
      a := Send(ua);
    } else if s.prod.pc.PipeWriting? && s.prod.pc.rest != [] {
      a := WriteCanGoOn(cfg, s);
    } else {
      assert ContextInv(s.prod, s.upl, s.ctx);
      a := ProducerCanGoOn(cfg, s);
    }
  }

  /** A blocked Write is read from, or fails because the reader is closed. */
  lemma WriteCanGoOn(cfg: Config, s: State) returns (a: Action)
    requires Inv(cfg, s) && s.prod.pc.PipeWriting? && s.prod.pc.rest != []
    requires s.upl.pc.Exited? || s.upl.pc.Draining?
             || (s.upl.pc.Filling? && |s.upl.pc.buffer| < cfg.partSize)
    ensures GoesOn(cfg, s, a) && (a.Produce? || a.Transfer?)
  {
    assert CutInv(cfg, s.upl, WriterClosed(s.prod));
    assert !s.failed ==> UntroubledInv(cfg, s.prod, s.upl, s.ctx);
    a := if s.upl.pc.Exited? then Produce(PipeWriteFails) else Transfer(1);
  }

  /**
   From every reachable state the save can be brought to its return and the upload
   to its end; if nothing has failed so far, without any failure.
   */
  lemma {:induction false} CanFinish(cfg: Config, s: State) returns (acts: seq<Action>)
    requires cfg.Valid() && Inv(cfg, s)
    ensures Run(cfg, s, acts).Some? && Over(Run(cfg, s, acts).value)
    ensures Run(cfg, s, acts).value.clean == s.clean
    ensures Untroubled(cfg, s) ==>
              && Untroubled(cfg, Run(cfg, s, acts).value)
              && (!ProducerTrouble(s.prod) ==> !ProducerTrouble(Run(cfg, s, acts).value.prod))
    decreases ProducerLeft(cfg, s.prod) + UploaderLeft(cfg, s.upl) + ContextLeft(s.ctx, s.clean)
  {
    if Over(s) {
      acts := [];
    } else {
      var a := NoDeadlock(cfg, s);
      StepKeepsInv(cfg, s, a);
      StepUsesUp(cfg, s, a);
      LeftIsNotNegative(cfg, s);
      var rest := CanFinish(cfg, Step(cfg, s, a).value);
      acts := [a] + rest;
      assert acts[1..] == rest;
    }
  }

  /** Every content that fits its declared size and its parts can be saved. */
  lemma FittingContentCanBeSaved(cfg: Config) returns (acts: seq<Action>)
    requires cfg.Valid() && SizeAccepted(cfg, |cfg.content|)
    requires |cfg.content| <= cfg.urls * cfg.partSize
    ensures Run(cfg, Init(cfg), acts).Some?
    ensures var s := Run(cfg, Init(cfg), acts).value; s.prod.pc.Returned? && s.prod.pc.result.Ok?
  {
    InitInv(cfg);
    acts := CanFinish(cfg, Init(cfg));
    UntroubledSave(cfg, Run(cfg, Init(cfg), acts).value);
  }

  // ---------------------------------------------------------------------------
  // Cleanup
  // ---------------------------------------------------------------------------

  /**
   What the cleanup goroutine waits for, and nothing else: for the upload's context first;
   then a failed upload is aborted at once, and any other is deleted as soon as, but not
   before, the caller's context is done.
   */
  lemma CleanupWaitsFor(cfg: Config, s: State, arrives: bool)
    requires cfg.Valid() && Reachable(cfg, s)
    ensures Step(cfg, s, Look).Some? <==> s.clean.pc.WaitUpload? && s.ctx.upload.Some?
    ensures Step(cfg, s, Look).Some? ==>
              var t := Step(cfg, s, Look).value;
              (Step(cfg, t, SendDelete(arrives)).Some? <==> s.upl.error.Some? || s.ctx.callerDone)
    ensures s.clean.pc.Cleaned? ==> Step(cfg, s, SendDelete(arrives)).None?
    ensures s.clean.pc.WaitCaller? ==> (Step(cfg, s, SendDelete(arrives)).Some? <==> s.ctx.callerDone)
    ensures s.clean.pc.Aborting? ==> Step(cfg, s, SendDelete(arrives)).Some?
  {
  }

  /** A request that does not arrive, or is not sent for want of a URL, leaves the store alone. */
  lemma LostDeleteChangesNothing(cfg: Config, s: State, arrives: bool)
    requires cfg.Valid() && Reachable(cfg, s) && Step(cfg, s, SendDelete(arrives)).Some?
    requires !arrives || !(if UrlToSend(s) == AbortURL then cfg.abortSet else cfg.deleteSet)
    ensures Step(cfg, s, SendDelete(arrives)).value.entry == s.entry
    ensures Step(cfg, s, SendDelete(arrives)).value.clean.pc == Cleaned(UrlToSend(s))
  {
  }
}
