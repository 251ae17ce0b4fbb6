/** Which error a save and its upload report, over every run of the pipeline. */
module UploadErrors {
  import opened Wrappers
  import opened Bytes
  import opened ObjectStore
  import opened PartArithmetic
  import opened UploadPipeline
  import opened UploadSafety
  import ObjectUpload

  // ---------------------------------------------------------------------------
  // The error of the upload
  // ---------------------------------------------------------------------------

  /**
   Each error of the uploading goroutine comes from its own step: the tempfile of a part,
   the return of a part's PUT with an error, a drain that found something, the POST that
   completes, and the comparison of the ETags. Without an error it ends by that comparison.
   */
  lemma EachErrorHasItsStep(cfg: Config, s: State, a: UploaderAction, t: State)
    requires Step(cfg, s, Send(a)) == Some(t) && s.upl.error == None && !ReaderClosed(s.upl) && ReaderClosed(t.upl)
    ensures t.upl.error == Some(TempFile) <==> a.TempFileFails?
    ensures t.upl.error == Some(PartFailed) <==> a.PartReturns?
    ensures a.PartReturns? ==> s.upl.pc.Putting? && s.upl.pc.put.prod.pc.Returned? && s.upl.pc.put.prod.pc.error.Some?
    ensures t.upl.error == Some(NotEnoughParts) <==> a.DrainEnd?
    ensures a.DrainEnd? ==> s.upl.pc.Draining? && s.upl.pc.drained != [] && WriterClosed(s.prod)
    ensures t.upl.error == Some(CompleteFailed) <==> a.PostComplete?
    ensures a.Verify? <==> t.upl.error in {None, Some(ETagMismatch)}
    ensures a.Verify? ==> (t.upl.error == None <==> BuildETag(cfg.md5, s.upl.parts) == Some(s.upl.etag))
  {
    hide BuildETag, Recorded, Complete, ExtractETag, HeaderFor, PartStepOf, Put, Concat, ObjectUpload.OnTrack;
    if a.PartStep? {
      PartStepGoesOn(cfg, s.upl, s.entry, s.ctx.upload, a.a, a.tag);
    }
  }

  lemma PartStepGoesOn(cfg: Config, u: Uploader, e: Entry, cause: Option<Cause>, a: ObjectUpload.Action, tag: ETag)
    requires u.pc.Putting? && PartStepOf(cfg, u, e, cause, a, tag).Some?
    ensures PartStepOf(cfg, u, e, cause, a, tag).value.0.pc.Putting?
  {
    hide ObjectUpload.Step, PartRecorded, AcceptedEarly;
  }

  // ---------------------------------------------------------------------------
  // The error of the save
  // ---------------------------------------------------------------------------

  /** What the error with which a save fails goes back to. */
  predicate Because(cfg: Config, e: SaveError, u: Uploader, c: Contexts) {
    match e
    case EntityTooLarge => u.error == Some(NotEnoughParts)
    case DeadlineExceeded => c.upload == Some(Deadline)
    case Upload(e) => u.error == Some(e) && e != NotEnoughParts
    case WrongSize => !SizeAccepted(cfg, |cfg.content|)
    case OpenFailed => cfg.hasLocal
    case ReadFailed => true
    case WriteFailed => cfg.hasLocal || ReaderClosed(u)
  }

  predicate Reason(cfg: Config, p: Producer, u: Uploader, c: Contexts) {
    && (p.pc.Opening? || p.pc.LocalWriting? ==> cfg.hasLocal)
    && (p.pc.Failing? ==>
          Because(cfg, p.pc.error, u, c) && !p.pc.error.EntityTooLarge? && !p.pc.error.DeadlineExceeded?)
    && (p.pc.Returned? && p.pc.result.Err? ==> Because(cfg, p.pc.result.error, u, c))
  }

  /** A recorded error, and the deadline, are never taken back. */
  lemma CausesStay(cfg: Config, s: State, a: Action, t: State)
    requires Inv(cfg, s) && Step(cfg, s, a) == Some(t)
    ensures s.upl.error.Some? ==> t.upl.error == s.upl.error
    ensures ReaderClosed(s.upl) ==> ReaderClosed(t.upl)
    ensures s.ctx.upload.Some? ==> t.ctx.upload == s.ctx.upload
    ensures !a.Produce? && !a.Transfer? ==> t.prod == s.prod
    ensures a.Produce? ==> t.upl == s.upl && t.ctx == s.ctx
    ensures a.Transfer? ==> s.prod.pc.PipeWriting? && t.prod.pc.PipeWriting?
  {
    assert CutInv(cfg, s.upl, WriterClosed(s.prod));
    hide Inv, IsCut, AllFull, Concat, BuildETag, Complete, ExtractETag, HeaderFor, PartStepOf;
  }

  /** An upload that ran out of parts has seen the end of the pipe, so no Write meets it. */
  lemma ProducerKeepsReason(cfg: Config, p: Producer, u: Uploader, c: Contexts, a: ProducerAction)
    requires Reason(cfg, p, u, c) && (u.error == Some(NotEnoughParts) ==> WriterClosed(p))
    requires ProducerStep(cfg, p, u, c.upload, a).Some?
    ensures Reason(cfg, ProducerStep(cfg, p, u, c.upload, a).value, u, c)
  {
  }

  lemma StepKeepsReason(cfg: Config, s: State, a: Action, t: State)
    requires Inv(cfg, s) && Reason(cfg, s.prod, s.upl, s.ctx) && Step(cfg, s, a) == Some(t)
    ensures Reason(cfg, t.prod, t.upl, t.ctx)
  {
    CausesStay(cfg, s, a, t);
    assert CutInv(cfg, s.upl, WriterClosed(s.prod));
    hide Inv, IsCut, AllFull, Concat, UploaderStep, Receive, ProducerStep;
    if a.Produce? {
      hide Because;
      ProducerKeepsReason(cfg, s.prod, s.upl, s.ctx, a.p);
    } else if !a.Transfer? {
      hide Step, CutInv;
    }
  }

  lemma {:induction false} RunKeepsReason(cfg: Config, s: State, acts: seq<Action>, t: State)
    requires cfg.Valid() && Inv(cfg, s) && Reason(cfg, s.prod, s.upl, s.ctx) && Run(cfg, s, acts) == Some(t)
    ensures Reason(cfg, t.prod, t.upl, t.ctx)
    decreases |acts|
  {
    if acts != [] {
      var s' := Step(cfg, s, acts[0]).value;
      StepKeepsInv(cfg, s, acts[0]);
      StepKeepsReason(cfg, s, acts[0], s');
      RunKeepsReason(cfg, s', acts[1..], t);
    }
  }

  /** NotEnoughParts is the outcome of a stream that the parts cannot hold, and of no other. */
  lemma NotEnoughPartsMeansTooLong(cfg: Config, s: State)
    requires Inv(cfg, s) && s.upl.error == Some(NotEnoughParts)
    ensures |cfg.content| > cfg.urls * cfg.partSize
  {
    assert CutInv(cfg, s.upl, WriterClosed(s.prod)) && DataInv(cfg, s.prod, s.upl.received);
    hide Inv, IsCut, AllFull, Concat;
  }

  /**
   Why a save has failed, in every reachable state and whatever else has failed: a content
   is called too large only if the upload ran out of parts, which it does only for one that
   is; the deadline only if it has passed; and an error of the upload is the one recorded.
   */
  lemma WhyTheSaveFailed(cfg: Config, s: State)
    requires cfg.Valid() && Reachable(cfg, s) && s.prod.pc.Returned? && s.prod.pc.result.Err?
    ensures var e := s.prod.pc.result.error;
            && (e == EntityTooLarge ==>
                  s.upl.error == Some(NotEnoughParts) && |cfg.content| > cfg.urls * cfg.partSize)
            && (e == DeadlineExceeded ==> s.ctx.upload == Some(Deadline))
            && (e.Upload? ==> s.upl.error == Some(e.error) && e.error != NotEnoughParts)
            && (e == WrongSize ==> !SizeAccepted(cfg, |cfg.content|))
            && (e == OpenFailed ==> cfg.hasLocal)
            && (e == WriteFailed ==> cfg.hasLocal || ReaderClosed(s.upl))
  {
    var acts :| Run(cfg, Init(cfg), acts) == Some(s);
    InitInv(cfg);
    RunKeepsReason(cfg, Init(cfg), acts, s);
    ReachableInv(cfg, s);
    hide Inv, Run, Reachable;
    if s.upl.error == Some(NotEnoughParts) {
      NotEnoughPartsMeansTooLong(cfg, s);
    }
  }

  /**
   What the Close of a complete stream reports: the deadline if that ended the upload's
   context, else EntityTooLarge exactly for a stream that had too few parts, else exactly
   the recorded error, else success.
   */
  lemma CloseReports(cfg: Config, s: State, t: State)
    requires cfg.Valid() && Reachable(cfg, s) && s.prod.pc.Closing? && Step(cfg, s, Produce(CloseReturns)) == Some(t)
    ensures t.prod.pc.Returned? && s.ctx.upload.Some?
    ensures var r := t.prod.pc.result;
            && (r == Err(DeadlineExceeded) <==> s.ctx.upload == Some(Deadline))
            && (s.ctx.upload != Some(Deadline) ==>
                  && (r == Err(EntityTooLarge) <==> s.upl.error == Some(NotEnoughParts))
                  && (forall e :: r == Err(SaveError.Upload(e)) <==> s.upl.error == Some(e) && e != NotEnoughParts)
                  && (r.Ok? <==> s.upl.error == None))
    ensures s.upl.error == Some(NotEnoughParts) ==> |cfg.content| > cfg.urls * cfg.partSize
    ensures |cfg.content| > cfg.urls * cfg.partSize && s.ctx.upload == Some(Finished) ==> s.upl.error.Some?
  {
    ReachableInv(cfg, s);
    assert ContextInv(s.prod, s.upl, s.ctx) && CompleteInv(cfg, s.upl, WriterClosed(s.prod));
    assert DataInv(cfg, s.prod, s.upl.received);
    hide Inv, Reachable;
    if s.upl.error == Some(NotEnoughParts) {
      NotEnoughPartsMeansTooLong(cfg, s);
    }
  }

  /** A Write that meets the closed pipe fails with the error for which the upload ended. */
  lemma BrokenPipeReports(cfg: Config, s: State, t: State)
    requires cfg.Valid() && Reachable(cfg, s) && Step(cfg, s, Produce(PipeWriteFails)) == Some(t)
    ensures s.upl.error.Some? && s.upl.error != Some(NotEnoughParts)
    ensures t.prod.pc == Failing(SaveError.Upload(s.upl.error.value))
  {
    ReachableInv(cfg, s);
    assert CutInv(cfg, s.upl, WriterClosed(s.prod));
    hide Inv, Reachable, IsCut, AllFull, Concat;
  }

  /** A Close after an error of its own side keeps that error, deadline or not. */
  lemma {:induction false} FirstErrorIsKept(cfg: Config, s: State, acts: seq<Action>, t: State)
    requires s.prod.pc.Failing? && Run(cfg, s, acts) == Some(t) && t.prod.pc.Returned?
    ensures t.prod.pc.result == Err(s.prod.pc.error)
    decreases |acts|
  {
    if acts != [] {
      var s' := Step(cfg, s, acts[0]).value;
      if s'.prod.pc.Failing? {
        FirstErrorIsKept(cfg, s', acts[1..], t);
      } else {
        ReturnedStays(cfg, s', acts[1..], t);
      }
    }
  }

  lemma {:induction false} ReturnedStays(cfg: Config, s: State, acts: seq<Action>, t: State)
    requires s.prod.pc.Returned? && Run(cfg, s, acts) == Some(t)
    ensures t.prod == s.prod
    decreases |acts|
  {
    if acts != [] {
      ReturnedStays(cfg, Step(cfg, s, acts[0]).value, acts[1..], t);
    }
  }

  /** Each error of the save's own side comes from its own step. */
  lemma EachFailureHasItsStep(cfg: Config, s: State, a: ProducerAction, t: State)
    requires Step(cfg, s, Produce(a)) == Some(t) && !s.prod.pc.Failing? && t.prod.pc.Failing?
    ensures t.prod.pc.error == OpenFailed <==> a == OpenLocal(false)
    ensures t.prod.pc.error == ReadFailed <==> a.ReadFails?
    ensures t.prod.pc.error == WrongSize <==> a.ReadEnd?
    ensures a.ReadEnd? ==> s.prod.consumed == |cfg.content| && !SizeAccepted(cfg, |cfg.content|)
    ensures t.prod.pc.error == WriteFailed <==> a.LocalWrite? || (a.PipeWriteFails? && s.upl.error == None)
    ensures a.LocalWrite? ==> s.prod.pc.LocalWriting? && a.written < |s.prod.pc.data|
  {
  }

  // ---------------------------------------------------------------------------
  // The order of events
  // ---------------------------------------------------------------------------

  /** The local file, if there is one, is opened before anything is read. */
  lemma OpensFirst(cfg: Config, acts: seq<Action>, s: State)
    requires Run(cfg, Init(cfg), acts) == Some(s)
    ensures s.prod.pc.Opening? <==> cfg.hasLocal && !exists ok :: Produce(OpenLocal(ok)) in acts
    ensures s.prod.pc.Opening? ==> s.prod.consumed == 0
  {
    RunOpens(cfg, Init(cfg), acts, s);
  }

  lemma {:induction false} RunOpens(cfg: Config, s: State, acts: seq<Action>, t: State)
    requires Run(cfg, s, acts) == Some(t)
    ensures t.prod.pc.Opening? <==> s.prod.pc.Opening? && !exists ok :: Produce(OpenLocal(ok)) in acts
    ensures t.prod.pc.Opening? ==> t.prod == s.prod
    decreases |acts|
  {
    if acts != [] {
      var s1 := Step(cfg, s, acts[0]).value;
      StepOpens(cfg, s, acts[0], s1);
      hide Step;
      RunOpens(cfg, s1, acts[1..], t);
      assert acts == [acts[0]] + acts[1..];
    }
  }

  lemma StepOpens(cfg: Config, s: State, a: Action, t: State)
    requires Step(cfg, s, a) == Some(t)
    ensures t.prod.pc.Opening? <==> s.prod.pc.Opening? && !(a.Produce? && a.p.OpenLocal?)
    ensures t.prod.pc.Opening? ==> t.prod == s.prod
  {
    hide UploaderStep, Receive;
  }

  /** What ends the upload's context: the first of deadline, caller and end of the upload. */
  function FirstEnd(acts: seq<Action>): Option<Cause> {
    if acts == [] then None
    else
      match acts[0]
      case DeadlineFires => Some(Deadline)
      case CallerCancels => Some(CallerGone)
      case Send(Exit) => Some(Finished)
      case _ => FirstEnd(acts[1..])
  }

  /** The contexts over every run; a caller that leaves ends the upload's context too. */
  lemma ContextEndsBy(cfg: Config, acts: seq<Action>, s: State)
    requires Run(cfg, Init(cfg), acts) == Some(s)
    ensures s.ctx.upload == FirstEnd(acts)
    ensures s.ctx.callerDone <==> CallerCancels in acts
    ensures s.ctx.callerDone ==> s.ctx.upload.Some?
  {
    RunEnds(cfg, Init(cfg), acts, s);
  }

  predicate EndsTogether(s: State) {
    (s.ctx.callerDone ==> s.ctx.upload.Some?) && (s.upl.pc.Exited? ==> s.ctx.upload.Some?)
  }

  lemma {:induction false} RunEnds(cfg: Config, s: State, acts: seq<Action>, t: State)
    requires Run(cfg, s, acts) == Some(t) && EndsTogether(s)
    ensures EndsTogether(t)
    ensures t.ctx.upload == if s.ctx.upload.Some? then s.ctx.upload else FirstEnd(acts)
    ensures t.ctx.callerDone <==> s.ctx.callerDone || CallerCancels in acts
    decreases |acts|
  {
    if acts != [] {
      var s1 := Step(cfg, s, acts[0]).value;
      StepEnds(cfg, s, acts[0], s1);
      hide Step, EndsTogether;
      RunEnds(cfg, s1, acts[1..], t);
      assert acts == [acts[0]] + acts[1..];
    }
  }

  lemma StepEnds(cfg: Config, s: State, a: Action, t: State)
    requires Step(cfg, s, a) == Some(t) && EndsTogether(s)
    ensures EndsTogether(t)
    ensures t.ctx.upload == if s.ctx.upload.Some? then s.ctx.upload
                            else match a
                                 case DeadlineFires => Some(Deadline)
                                 case CallerCancels => Some(CallerGone)
                                 case Send(Exit) => Some(Finished)
                                 case _ => None
    ensures t.ctx.callerDone <==> s.ctx.callerDone || a == CallerCancels
  {
    hide ProducerStep, PartStepOf, PartReturned, PostStep, BuildETag, Concat;
    if a.Send? {
      OnlyExitExits(cfg, s.upl, s.entry, WriterClosed(s.prod), s.ctx.upload, a.u);
      hide UploaderStep;
    }
  }

  lemma OnlyExitExits(cfg: Config, u: Uploader, e: Entry, eof: bool, cause: Option<Cause>, a: UploaderAction)
    requires UploaderStep(cfg, u, e, eof, cause, a).Some?
    ensures UploaderStep(cfg, u, e, eof, cause, a).value.0.pc.Exited? <==> a.Exit?
  {
    hide BuildETag, Complete, ExtractETag, HeaderFor, Concat, Put, Recorded;
    hide ObjectUpload.Step, AcceptedEarly, PartRecorded, PartMay;
  }

  /** A part's PUT is cancelled only when the caller of the save has left, and may be as soon as that is so. */
  lemma PartIsCancelledIff(cfg: Config, s: State, tag: ETag)
    requires s.upl.pc.Putting?
    ensures Step(cfg, s, Send(PartStep(ObjectUpload.CallerCancels, tag))).Some? <==>
            s.ctx.upload == Some(CallerGone) && !s.upl.pc.put.callerDone
  {
    hide BuildETag, Complete, ExtractETag, HeaderFor, Put, Concat;
  }

  /** The tag under which a request for the next part reaches the store in this step, answered or not. */
  function PartArrives(a: UploaderAction): Option<ETag> {
    match a
    case PartStep(Answered(Accepted(etag)), _) => Some(etag)
    case PartStep(Answered(Lost(true)), tag) => Some(tag)
    case PartReturns(late) => late
    case _ => None
  }

  /** The tag under which the completion reaches the store in this step, answered or not. */
  function CompletionArrives(a: UploaderAction): Option<ETag> {
    match a
    case PostComplete(Accepted(etag, _)) => Some(etag)
    case PostComplete(InBodyError(etag)) => Some(etag)
    case PostComplete(Lost(arrived)) => arrived
    case _ => None
  }

  /** The uploading goroutine changes the store by the requests that arrive there, and only by them. */
  lemma StoreTakesWhatArrives(cfg: Config, s: State, a: UploaderAction, t: State)
    requires Step(cfg, s, Send(a)) == Some(t)
    ensures PartArrives(a).Some? ==> t.entry == Put(s.entry, |s.upl.parts| + 1, PartArrives(a).value)
    ensures CompletionArrives(a).Some? ==>
              var completed := Complete(s.entry, s.upl.parts, CompletionArrives(a).value);
              t.entry == if completed.Some? then completed.value else s.entry
    ensures PartArrives(a).None? && CompletionArrives(a).None? ==> t.entry == s.entry
  {
    hide BuildETag, Complete, ExtractETag, HeaderFor, Put, Concat, ObjectUpload.Step, PartMay, ObjectUpload.OnTrack;
  }
}
