/** Runs of the upload pipeline that show why its promises need their conditions. */
module UploadRuns {
  import opened Wrappers
  import opened Bytes
  import opened ObjectStore
  import opened PartArithmetic
  import opened UploadPipeline
  import opened UploadSafety
  import opened UploadProgress
  import ObjectUpload

  lemma {:induction false} RunConcat(cfg: Config, s: State, acts: seq<Action>, more: seq<Action>)
    requires Run(cfg, s, acts).Some?
    ensures Run(cfg, s, acts + more) == Run(cfg, Run(cfg, s, acts).value, more)
    decreases |acts|
  {
    if acts == [] {
      assert acts + more == more;
    } else {
      assert (acts + more)[1..] == acts[1..] + more;
      RunConcat(cfg, Step(cfg, s, acts[0]).value, acts[1..], more);
    }
  }

  lemma GoOn(cfg: Config, s: State, acts: seq<Action>) returns (t: State)
    requires Reachable(cfg, s) && Run(cfg, s, acts).Some?
    ensures Reachable(cfg, t) && Run(cfg, s, acts) == Some(t)
  {
    t := Run(cfg, s, acts).value;
    var before :| Run(cfg, Init(cfg), before) == Some(s);
    RunConcat(cfg, Init(cfg), before, acts);
  }

  lemma Next(cfg: Config, s: State, a: Action) returns (t: State)
    requires Reachable(cfg, s) && Step(cfg, s, a).Some?
    ensures Reachable(cfg, t) && Step(cfg, s, a) == Some(t)
  {
    assert [a][1..] == [];
    t := GoOn(cfg, s, [a]);
  }

  // ---------------------------------------------------------------------------
  // Contexts and cleanup
  // ---------------------------------------------------------------------------

  /** One byte, one part of one byte, both cleanup URLs set. */
  function Small(md5: Bytes -> Bytes): Config {
    Config([0], None, 1, 1, false, true, true, md5)
  }

  /** The first steps of a save of one byte, up to the PUT of its part. */
  lemma SmallUpToPut(md5: Bytes -> Bytes) returns (s: State)
    ensures Reachable(Small(md5), s)
    ensures s.prod == Producer(PipeWriting([0], []), 1, [0], [])
    ensures s.upl == Uploader(Putting([[0]], ObjectUpload.Init()), [0], [], [], [], [], "", None, false, false, false)
    ensures s.ctx == Contexts(None, false) && s.clean == Cleanup(WaitUpload, false, [])
    ensures s.entry == Entry(Some(map[]), None)
  {
    var cfg := Small(md5);
    s := Init(cfg);
    assert Run(cfg, s, []) == Some(s);
    assert cfg.content[0..1] == [0];
    s := Next(cfg, s, Produce(ReadChunk(1)));
    assert s.prod.pc.rest[..1] == [0] && s.prod.pc.rest[1..] == [];
    s := Next(cfg, s, Transfer(1));
    assert Concat([[0]]) == [0] by { ConcatAppend([], [0]); }
    s := Next(cfg, s, Send(PartBuffered([[0]])));
  }

  /** The PUT of the part fails and its Write reports it. */
  lemma SmallPutFails(md5: Bytes -> Bytes, s: State) returns (t: State)
    requires Reachable(Small(md5), s) && s.upl.pc == Putting([[0]], ObjectUpload.Init())
    ensures Reachable(Small(md5), t) && t.upl.pc.Putting? && t.upl.pc.put.prod.pc.Returned?
    ensures t.upl.pc.put.prod.pc.error.Some? && !t.upl.pc.put.upl.pc.Putting?
    ensures t.prod == s.prod && t.ctx == s.ctx && t.clean == s.clean
  {
    hide Reachable, ObjectUpload.RestOf, Concat;
    t := OnePartStep(Small(md5), s, ObjectUpload.Answered(ObjectUpload.Lost(false)));
    assert t.upl.pc.put.upl.pc.Ending? && t.upl.pc.put.prod == ObjectUpload.Init().prod;
    t := OnePartStep(Small(md5), t, ObjectUpload.ClosePipe);
    assert t.upl.pc.put.upl.pc.PipeIsClosed?;
    t := OnePartStep(Small(md5), t, ObjectUpload.StartWrite);
  }

  /**
   The deadline race: the deadline passes during a PUT, cleanup looks before the
   failure is recorded, and the failed upload is deleted but never aborted.
   */
  lemma DeadlineRaceSkipsTheAbort(md5: Bytes -> Bytes) returns (s: State)
    ensures Reachable(Small(md5), s) && s.clean.pc.Cleaned? && s.upl.pc.Exited?
    ensures UploadFailed(s) && s.clean.sent == [DeleteURL]
  {
    var cfg := Small(md5);
    s := SmallUpToPut(md5);
    s := Next(cfg, s, DeadlineFires);
    s := Next(cfg, s, Look);
    s := SmallPutFails(md5, s);
    s := Next(cfg, s, Send(PartReturns(None)));
    s := Next(cfg, s, Send(Exit));
    s := Next(cfg, s, CallerCancels);
    s := Next(cfg, s, SendDelete(true));
  }

  /**
   The documented requirement on the caller's context: when it ends before the
   save returns, the save can succeed although nothing was completed.
   */
  lemma CancelledSaveCanClaimSuccess(md5: Bytes -> Bytes) returns (s: State)
    ensures Reachable(Small(md5), s) && s.ctx.callerDone
    ensures s.prod.pc.Returned? && s.prod.pc.result.Ok?
    ensures s.entry.stored == None && !s.upl.completeSent
  {
    var cfg := Small(md5);
    s := SmallUpToPut(md5);
    s := Next(cfg, s, Produce(PipeWriteReturns));
    s := Next(cfg, s, Produce(ReadEnd));
    s := Next(cfg, s, CallerCancels);
    s := Next(cfg, s, Produce(CloseReturns));
  }

  /** An empty content whose completion has been recorded, but not answered. */
  lemma CompletedWithoutAnswer(cfg: Config) returns (s: State)
    requires cfg.Valid() && cfg.content == [] && cfg.declared == None && cfg.urls == 1 && !cfg.hasLocal
    ensures Reachable(cfg, s) && s.upl.pc.Ended? && UploadFailed(s)
    ensures s.entry == Entry(None, Some("tag")) && s.ctx == Contexts(None, false) && s.clean == Init(cfg).clean
  {
    s := Init(cfg);
    assert Run(cfg, s, []) == Some(s);
    s := Next(cfg, s, Produce(ReadEnd));
    s := Next(cfg, s, Send(PartBuffered([])));
    s := Next(cfg, s, Send(DrainEnd));
    s := Next(cfg, s, Send(PostComplete(Lost(Some("tag")))));
  }

  /** A store that tells abort and delete apart keeps the object: the answer was lost, so only the abort is sent. */
  lemma AbortLeavesTheObject(cfg: Config) returns (s: State)
    requires cfg.Valid() && cfg.content == [] && cfg.declared == None && cfg.urls == 1 && !cfg.hasLocal && cfg.abortSet
    ensures Reachable(cfg, s) && s.clean.pc.Cleaned? && s.clean.sent == [AbortURL]
    ensures s.entry == Entry(None, Some("tag"))
  {
    s := CompletedWithoutAnswer(cfg);
    s := Next(cfg, s, Send(Exit));
    s := Next(cfg, s, Look);
    s := Next(cfg, s, SendDelete(true));
  }

  // ---------------------------------------------------------------------------
  // A part that is accepted early
  // ---------------------------------------------------------------------------

  /** A run of the single PUT is a run of the pipeline in which only that part moves. */
  lemma {:induction false} PartRun(cfg: Config, s: State, acts: seq<ObjectUpload.Action>) returns (t: State)
    requires Reachable(cfg, s) && s.upl.pc.Putting?
    requires forall k :: 0 <= k < |acts| ==> PartMay(acts[k], None) && !acts[k].CallerCancels?
    requires ObjectUpload.Run(PartConfig(cfg, s.upl.pc.chunks), s.upl.pc.put, acts).Some?
    ensures Reachable(cfg, t) && t.prod == s.prod && t.ctx == s.ctx && t.clean == s.clean
    ensures t.upl.pc == Putting(s.upl.pc.chunks,
                                ObjectUpload.Run(PartConfig(cfg, s.upl.pc.chunks), s.upl.pc.put, acts).value)
    ensures t.upl.(pc := s.upl.pc, early := s.upl.early) == s.upl
    decreases |acts|
  {
    if acts == [] {
      t := s;
    } else {
      assert forall k :: 0 <= k < |acts[1..]| ==> acts[1..][k] == acts[k + 1];
      t := OnePartStep(cfg, s, acts[0]);
      t := PartRun(cfg, t, acts[1..]);
    }
  }

  lemma OnePartStep(cfg: Config, s: State, a: ObjectUpload.Action) returns (t: State)
    requires Reachable(cfg, s) && s.upl.pc.Putting? && PartMay(a, None) && !a.CallerCancels?
    requires ObjectUpload.Step(PartConfig(cfg, s.upl.pc.chunks), s.upl.pc.put, a).Some?
    ensures Reachable(cfg, t) && t.prod == s.prod && t.ctx == s.ctx && t.clean == s.clean
    ensures t.upl.pc == Putting(s.upl.pc.chunks,
                                ObjectUpload.Step(PartConfig(cfg, s.upl.pc.chunks), s.upl.pc.put, a).value)
    ensures t.upl.(pc := s.upl.pc, early := s.upl.early) == s.upl
  {
    hide ObjectUpload.Step, ObjectUpload.OnTrack, ObjectUpload.RestOf;
    t := Next(cfg, s, Send(PartStep(a, "")));
  }

  /** Two bytes that fit one part. */
  function OnePart(md5: Bytes -> Bytes): Config {
    Config([7, 8], None, 2, 1, false, true, true, md5)
  }

  lemma UpToThePut(cfg: Config) returns (s: State)
    requires cfg == OnePart(cfg.md5)
    ensures Reachable(cfg, s) && s.prod == Producer(Closing, 2, [7, 8], [])
    ensures s.upl.pc == Putting([[7], [8]], ObjectUpload.Init())
    ensures s.upl.bodies == s.upl.checked == s.upl.stored == [] && s.upl.parts == [] && s.ctx == Contexts(None, false)
    ensures s.clean == Init(cfg).clean
  {
    s := Init(cfg);
    assert Run(cfg, s, []) == Some(s);
    assert cfg.content[0..2] == [7, 8];
    s := Next(cfg, s, Produce(ReadChunk(2)));
    assert [7, 8][..2] == [7, 8] && [7, 8][2..] == [];
    s := Next(cfg, s, Transfer(2));
    s := Next(cfg, s, Produce(PipeWriteReturns));
    s := Next(cfg, s, Produce(ReadEnd));
    ObjectUpload.TwoBytes(PartConfig(cfg, [[7], [8]]));
    s := Next(cfg, s, Send(PartBuffered([[7], [8]])));
  }

  lemma EarlyPartReturns(cfg: Config) returns (s: State)
    requires cfg == OnePart(cfg.md5)
    ensures Reachable(cfg, s) && s.prod.pc.Closing? && s.upl.pc.Draining? && s.upl.pc.drained == []
    ensures s.upl.stored == s.upl.checked == [[7]] && s.ctx == Contexts(None, false) && !s.upl.cancelled
    ensures s.clean == Init(cfg).clean
  {
    s := UpToThePut(cfg);
    var c := PartConfig(cfg, [[7], [8]]);
    var put := ObjectUpload.EarlyAnswerCutsShort(c);
    var acts :| ObjectUpload.Run(c, ObjectUpload.Init(), acts) == Some(put);
    ObjectUpload.QuietRun(c, ObjectUpload.Init(), acts);
    s := PartRun(cfg, s, acts);
    assert !s.upl.cancelled by {
      ReachableInv(cfg, s);
      assert ContextInv(s.prod, s.upl, s.ctx);
    }
    s := Next(cfg, s, Send(PartReturns(None)));
  }

  lemma EarlyPartDrains(cfg: Config) returns (s: State)
    requires cfg == OnePart(cfg.md5)
    ensures Reachable(cfg, s) && s.prod.pc.Closing? && s.upl.pc.Completing? && s.upl.stored == s.upl.checked == [[7]]
    ensures s.ctx == Contexts(None, false) && !s.upl.cancelled
  {
    s := EarlyPartReturns(cfg);
    hide MultipartETag, BuildETag, Complete, ExtractETag, Inv, Agrees;
    s := Next(cfg, s, Send(DrainEnd));
  }

  lemma EarlyPartCompletes(cfg: Config) returns (s: State)
    requires cfg == OnePart(cfg.md5)
    ensures Reachable(cfg, s) && s.prod.pc.Closing? && s.upl.pc.Verifying? && s.upl.stored == s.upl.checked == [[7]]
    ensures s.upl.etag == MultipartETag(cfg.md5, [[7]]) && s.ctx == Contexts(None, false) && !s.upl.cancelled
  {
    s := EarlyPartDrains(cfg);
    ReachableInv(cfg, s);
    assert StoreInv(s.upl, s.entry);
    var tag := MultipartETag(cfg.md5, [[7]]);
    ExtractUndoesHeader(tag, true);
    hide MultipartETag, Inv, Agrees;
    s := Next(cfg, s, Send(PostComplete(Accepted(tag, true))));
  }

  /**
   The condition of SaveEndToEnd is needed: a store that accepts a part after the
   first of its two chunks is believed, and the save succeeds with an object that
   lacks the second.
   */
  lemma EarlyPartCutsShort(cfg: Config) returns (s: State)
    requires cfg == OnePart(cfg.md5)
    ensures Reachable(cfg, s) && s.prod.pc.Returned? && s.prod.pc.result.Ok? && !s.ctx.callerDone
    ensures s.upl.early && Concat(s.upl.stored) == [7] && cfg.content == [7, 8]
  {
    s := EarlyPartCompletes(cfg);
    ReachableInv(cfg, s);
    assert PartInv(cfg, s.upl);
    BuildETagOfParts(cfg.md5, [[7]]);
    hide MultipartETag, BuildETag, Inv, PartInv;
    s := Next(cfg, s, Send(Verify));
    s := Next(cfg, s, Send(Exit));
    s := Next(cfg, s, Produce(CloseReturns));
    SaveEndToEnd(cfg, s);
    assert Concat([[7]]) == [7] by { ConcatAppend([], [7]); }
  }

  // ---------------------------------------------------------------------------
  // A save that fails while reading
  // ---------------------------------------------------------------------------

  /** A failed producer stays failed, and nothing more goes through the pipe. */
  lemma {:induction false} FailureIsFinal(cfg: Config, s: State, acts: seq<Action>)
    requires Run(cfg, s, acts).Some? && s.prod.pc in {Failing(ReadFailed), Returned(Err(ReadFailed))}
    ensures var t := Run(cfg, s, acts).value;
            t.prod.pc in {Failing(ReadFailed), Returned(Err(ReadFailed))} && t.upl.received == s.upl.received
    decreases |acts|
  {
    if acts != [] {
      StepKeepsFailure(cfg, s, acts[0]);
      FailureIsFinal(cfg, Step(cfg, s, acts[0]).value, acts[1..]);
    }
  }

  lemma StepKeepsFailure(cfg: Config, s: State, a: Action)
    requires Step(cfg, s, a).Some? && s.prod.pc in {Failing(ReadFailed), Returned(Err(ReadFailed))}
    ensures var t := Step(cfg, s, a).value;
            t.prod.pc in {Failing(ReadFailed), Returned(Err(ReadFailed))} && t.upl.received == s.upl.received
  {
    if a.Send? && a.u.PartReturns? && s.upl.pc.Putting? {
      ReturnFrame(cfg, s.upl, s.entry, a.u.late);
    }
    hide PartReturned, PostStep, ObjectUpload.Step, BuildETag;
  }

  /**
   A client that goes away in the middle leaves a truncated object: from wherever the
   reader fails, the save can fail with a read error while what was read so far is
   completed in the store, exactly when it fits the parts.
   */
  lemma ReadErrorIsStored(cfg: Config, s: State) returns (t: State)
    requires cfg.Valid() && Reachable(cfg, s) && Untroubled(cfg, s) && s.prod.pc.Reading? && s.clean.sent == []
    ensures Reachable(cfg, t) && t.prod.pc == Returned(Err(ReadFailed)) && t.upl.received == s.prod.hashed
    ensures t.entry.stored.Some? <==> |s.prod.hashed| <= cfg.urls * cfg.partSize
    ensures t.entry.stored.Some? ==> Concat(t.upl.stored) == s.prod.hashed
  {
    ReachableInv(cfg, s);
    assert DataInv(cfg, s.prod, s.upl.received);
    var u := Next(cfg, s, Produce(ReadFails));
    ReachableInv(cfg, u);
    var acts := CanFinish(cfg, u);
    FailureIsFinal(cfg, u, acts);
    t := GoOn(cfg, u, acts);
    FailedSaveIsStored(cfg, t);
  }
}
