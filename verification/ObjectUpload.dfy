/**
 The upload of an object in a single PUT (internal/objectstore/object.go,
 uploader.go): Write feeds a synchronous pipe first and the MD5 hasher afterwards,
 the uploading goroutine compares the store's ETag with the running MD5, and the
 cleanup goroutine deletes once both contexts are done.
 */
module ObjectUpload {
  import opened Wrappers
  import opened Bytes

  datatype PutError = RequestFailed | BadStatus | ETagMismatch

  datatype SaveError = PipeClosed | DeadlineExceeded | UploadFailed(error: PutError)

  datatype Config = Config(chunks: seq<Bytes>, deleteSet: bool, md5: Bytes -> Bytes)

  function Content(cfg: Config): Bytes {
    Concat(cfg.chunks)
  }

  datatype Pc =
    | Idle(k: nat)                        // k chunks written
    | PipeWriting(k: nat, rest: Bytes)
    | Hashing(k: nat)
    | Waiting                             // pipe closed: the body has ended
    | Returned(error: Option<SaveError>)

  datatype Producer = Producer(pc: Pc, hashed: Bytes)

  datatype UploaderPc = Putting | Checking(etag: string) | Ending | PipeIsClosed | Finished

  /** `checked` is what the hasher had been given when the ETags were compared. */
  datatype Uploader = Uploader(pc: UploaderPc, error: Option<PutError>, etag: string, checked: Option<Bytes>)

  datatype Cause = Done | Deadline | CallerGone

  datatype Cleanup = WaitUpload | WaitCaller | Cleaned(sent: bool)

  /** `consumed` is what was read from the pipe, `stored` the object the store keeps. */
  datatype State = State(
    prod: Producer,
    upl: Uploader,
    consumed: Bytes,
    stored: Option<Bytes>,
    ctx: Option<Cause>,
    callerDone: bool,
    clean: Cleanup)

  /** No answer, although the request may have arrived; another status; or 200 with an ETag. */
  datatype Answer = Lost(arrived: bool) | Status | Accepted(etag: string)

  datatype Action =
    | StartWrite | Transfer(n: nat) | PipeWritten | PipeFails | Hash | Close | CloseReturns
    | Answered(answer: Answer) | Check | ClosePipe | Cancel
    | DeadlinePasses | CallerCancels
    | Look | Delete(arrives: bool)

  function Init(): State {
    State(Producer(Idle(0), []), Uploader(Putting, None, "", None), [], None, None, false, WaitUpload)
  }

  predicate ReaderClosed(u: Uploader) {
    u.pc.PipeIsClosed? || u.pc.Finished?
  }

  /** Close after the context is done: only the deadline is told apart. */
  function CloseResult(u: Uploader, cause: Cause): Option<SaveError> {
    if cause.Deadline? then Some(DeadlineExceeded)
    else if u.error.Some? then Some(UploadFailed(u.error.value))
    else None
  }

  function ProducerStep(cfg: Config, s: State, a: Action): Option<State> {
    var p := s.prod;
    match a
    case StartWrite =>
      if !p.pc.Idle? || p.pc.k >= |cfg.chunks| then None
      else if ReaderClosed(s.upl) then Some(s.(prod := p.(pc := Returned(Some(PipeClosed)))))
      else Some(s.(prod := p.(pc := PipeWriting(p.pc.k, cfg.chunks[p.pc.k]))))
    case Transfer(n) =>
      if !p.pc.PipeWriting? || ReaderClosed(s.upl) || n == 0 || n > |p.pc.rest| then None
      else Some(s.(prod := p.(pc := PipeWriting(p.pc.k, p.pc.rest[n..])), consumed := s.consumed + p.pc.rest[..n]))
    case PipeWritten =>
      if !p.pc.PipeWriting? || p.pc.rest != [] then None
      else Some(s.(prod := p.(pc := Hashing(p.pc.k))))
    case PipeFails =>
      if !p.pc.PipeWriting? || p.pc.rest == [] || !ReaderClosed(s.upl) then None
      else Some(s.(prod := p.(pc := Returned(Some(PipeClosed)))))
    case Hash =>
      if !p.pc.Hashing? || p.pc.k >= |cfg.chunks| then None
      else Some(s.(prod := Producer(Idle(p.pc.k + 1), p.hashed + cfg.chunks[p.pc.k])))
    case Close =>
      if p.pc != Idle(|cfg.chunks|) then None else Some(s.(prod := p.(pc := Waiting)))
    case CloseReturns =>
      if !p.pc.Waiting? || s.ctx.None? then None
      else Some(s.(prod := p.(pc := Returned(CloseResult(s.upl, s.ctx.value)))))
    case _ => None
  }

  function UploaderStep(cfg: Config, s: State, a: Action): Option<State> {
    var u := s.upl;
    match a
    case Answered(answer) =>
      if !u.pc.Putting? then None
      else (match answer
            case Lost(arrived) =>
              Some(s.(upl := u.(pc := Ending, error := Some(RequestFailed)),
                      stored := if arrived then Some(s.consumed) else None))
            case Status => Some(s.(upl := u.(pc := Ending, error := Some(BadStatus))))
            case Accepted(etag) =>   // the request is bound to the upload context
              if s.ctx.Some? then None
              else Some(s.(upl := u.(pc := Checking(etag), etag := etag), stored := Some(s.consumed))))
    case Check =>
      if !u.pc.Checking? then None
      else
        var agrees := u.pc.etag == HexEncode(cfg.md5(s.prod.hashed));
        Some(s.(upl := u.(pc := Ending, checked := Some(s.prod.hashed),
                          error := if agrees then None else Some(ETagMismatch))))
    case ClosePipe =>
      if !u.pc.Ending? then None else Some(s.(upl := u.(pc := PipeIsClosed)))
    case Cancel =>
      if !u.pc.PipeIsClosed? then None
      else Some(s.(upl := u.(pc := Finished), ctx := if s.ctx.None? then Some(Done) else s.ctx))
    case _ => None
  }

  function OtherStep(cfg: Config, s: State, a: Action): Option<State> {
    match a
    case DeadlinePasses => if s.ctx.Some? then None else Some(s.(ctx := Some(Deadline)))
    case CallerCancels =>
      if s.callerDone then None
      else Some(s.(callerDone := true, ctx := if s.ctx.None? then Some(CallerGone) else s.ctx))
    case Look => if s.clean.WaitUpload? && s.ctx.Some? then Some(s.(clean := WaitCaller)) else None
    case Delete(arrives) =>
      if !s.clean.WaitCaller? || !s.callerDone then None
      else Some(s.(clean := Cleaned(cfg.deleteSet), stored := if cfg.deleteSet && arrives then None else s.stored))
    case _ => None
  }

  function Step(cfg: Config, s: State, a: Action): Option<State> {
    if a.StartWrite? || a.Transfer? || a.PipeWritten? || a.PipeFails? || a.Hash? || a.Close? || a.CloseReturns? then
      ProducerStep(cfg, s, a)
    else if a.Answered? || a.Check? || a.ClosePipe? || a.Cancel? then UploaderStep(cfg, s, a)
    else OtherStep(cfg, s, a)
  }

  function Run(cfg: Config, s: State, acts: seq<Action>): Option<State>
    decreases |acts|
  {
    if acts == [] then Some(s)
    else
      match Step(cfg, s, acts[0])
      case None => None
      case Some(t) => Run(cfg, t, acts[1..])
  }

  ghost predicate Reachable(cfg: Config, s: State) {
    exists acts :: Run(cfg, Init(), acts) == Some(s)
  }

  // ---------------------------------------------------------------- invariant

  /** The hasher lags behind the pipe by at most the chunk being written. */
  predicate DataInv(cfg: Config, p: Producer, consumed: Bytes) {
    match p.pc
    case Idle(k) => k <= |cfg.chunks| && p.hashed == consumed == Concat(cfg.chunks[..k])
    case PipeWriting(k, rest) =>
      k < |cfg.chunks| && p.hashed == Concat(cfg.chunks[..k]) && consumed + rest == p.hashed + cfg.chunks[k]
      && |rest| <= |cfg.chunks[k]|
    case Hashing(k) => k < |cfg.chunks| && p.hashed == Concat(cfg.chunks[..k]) && consumed == p.hashed + cfg.chunks[k]
    case Waiting => p.hashed == consumed == Content(cfg)
    case Returned(error) => error.None? || error.value != PipeClosed ==> p.hashed == consumed == Content(cfg)
  }

  predicate UploaderInv(cfg: Config, s: State) {
    var u := s.upl;
    && (u.checked.Some? && u.error.None? ==> u.etag == HexEncode(cfg.md5(u.checked.value)))
    && (u.checked.Some? ==> u.checked.value <= s.prod.hashed)
    && (u.pc.Putting? ==> u.error.None? && u.checked.None? && s.stored.None?)
    && (u.pc.Checking? ==> u.error.None? && u.checked.None? && u.pc.etag == u.etag)
    && (!u.pc.Putting? && !u.pc.Checking? && u.error.None? ==> u.checked.Some?)
    && (u.pc.Finished? ==> s.ctx.Some?)
  }

  predicate ContextInv(s: State) {
    && (s.ctx == Some(Done) ==> s.upl.pc.Finished?)
    && (s.ctx == Some(CallerGone) ==> s.callerDone)
    && (s.prod.pc.Returned? ==> (s.prod.pc.error == Some(PipeClosed) || s.ctx.Some?))
    && (s.prod.pc == Returned(Some(PipeClosed)) ==> ReaderClosed(s.upl))
    && (s.prod.pc == Returned(None) && !s.callerDone ==> s.ctx == Some(Done) && s.upl.error.None?)
    && (!s.clean.WaitUpload? ==> s.ctx.Some?)
    && (s.clean.Cleaned? ==> s.callerDone)
  }

  predicate StoreInv(cfg: Config, s: State) {
    && (s.stored.Some? ==> s.stored.value <= s.consumed)
    && (s.stored.None? && !s.upl.pc.Putting? && s.upl.error.None? ==> s.clean == Cleaned(true))
    && (s.clean.Cleaned? ==> s.clean.sent == cfg.deleteSet)
  }

  predicate Inv(cfg: Config, s: State) {
    DataInv(cfg, s.prod, s.consumed) && UploaderInv(cfg, s) && ContextInv(s) && StoreInv(cfg, s)
  }

  lemma ProducerKeepsData(cfg: Config, s: State, a: Action, t: State)
    requires DataInv(cfg, s.prod, s.consumed) && ProducerStep(cfg, s, a) == Some(t)
    ensures DataInv(cfg, t.prod, t.consumed) && s.prod.hashed <= t.prod.hashed && s.consumed <= t.consumed
  {
    match a
    case Transfer(n) => assert s.prod.pc.rest == s.prod.pc.rest[..n] + s.prod.pc.rest[n..];
    case Hash =>
      var k := s.prod.pc.k;
      ConcatAppend(cfg.chunks[..k], cfg.chunks[k]);
      assert cfg.chunks[..k + 1] == cfg.chunks[..k] + [cfg.chunks[k]];
    case Close => assert cfg.chunks[..|cfg.chunks|] == cfg.chunks;
    case _ =>
  }

  lemma ProducerKeepsInv(cfg: Config, s: State, a: Action, t: State)
    requires Inv(cfg, s) && ProducerStep(cfg, s, a) == Some(t)
    ensures Inv(cfg, t)
  {
    ProducerKeepsData(cfg, s, a, t);
    hide DataInv;
  }

  lemma UploaderKeepsInv(cfg: Config, s: State, a: Action, t: State)
    requires Inv(cfg, s) && UploaderStep(cfg, s, a) == Some(t)
    ensures Inv(cfg, t)
  {
  }

  lemma OthersKeepInv(cfg: Config, s: State, a: Action, t: State)
    requires Inv(cfg, s) && OtherStep(cfg, s, a) == Some(t)
    ensures Inv(cfg, t)
  {
  }

  lemma StepKeepsInv(cfg: Config, s: State, a: Action, t: State)
    requires Inv(cfg, s) && Step(cfg, s, a) == Some(t)
    ensures Inv(cfg, t)
  {
    hide Inv;
    if ProducerStep(cfg, s, a) == Some(t) {
      ProducerKeepsInv(cfg, s, a, t);
    } else if UploaderStep(cfg, s, a) == Some(t) {
      UploaderKeepsInv(cfg, s, a, t);
    } else {
      OthersKeepInv(cfg, s, a, t);
    }
  }

  lemma {:induction false} RunKeepsInv(cfg: Config, s: State, acts: seq<Action>, t: State)
    requires Inv(cfg, s) && Run(cfg, s, acts) == Some(t)
    ensures Inv(cfg, t)
    decreases |acts|
  {
    if acts != [] {
      StepKeepsInv(cfg, s, acts[0], Step(cfg, s, acts[0]).value);
      RunKeepsInv(cfg, Step(cfg, s, acts[0]).value, acts[1..], t);
    }
  }

  lemma ReachableInv(cfg: Config, s: State)
    requires Reachable(cfg, s)
    ensures Inv(cfg, s)
  {
    var acts :| Run(cfg, Init(), acts) == Some(s);
    assert cfg.chunks[..0] == [];
    RunKeepsInv(cfg, Init(), acts, s);
  }

  // ----------------------------------------------------------------- theorems

  /** What the pipe has still to carry. */
  function RestOf(cfg: Config, p: Producer): Bytes {
    match p.pc
    case Idle(k) => if k <= |cfg.chunks| then Concat(cfg.chunks[k..]) else []
    case PipeWriting(k, rest) => if k < |cfg.chunks| then rest + Concat(cfg.chunks[k + 1..]) else rest
    case Hashing(k) => if k < |cfg.chunks| then Concat(cfg.chunks[k + 1..]) else []
    case Waiting => []
    case Returned(_) => []
  }

  /** What the pipe has carried of the chunk being written: it is hashed last. */
  function InFlight(cfg: Config, p: Producer): Bytes {
    match p.pc
    case PipeWriting(k, rest) =>
      if k < |cfg.chunks| && |rest| <= |cfg.chunks[k]| then cfg.chunks[k][..|cfg.chunks[k]| - |rest|] else []
    case Hashing(k) => if k < |cfg.chunks| then cfg.chunks[k] else []
    case _ => []
  }

  lemma TakeAndDrop(chunks: seq<Bytes>, k: nat)
    requires k <= |chunks|
    ensures Concat(chunks[..k]) + Concat(chunks[k..]) == Concat(chunks)
  {
    ConcatSplit(chunks[..k], chunks[k..]);
    assert chunks[..k] + chunks[k..] == chunks;
  }

  lemma ConsumedAndInFlight(cfg: Config, p: Producer, consumed: Bytes)
    requires DataInv(cfg, p, consumed) && p.pc != Returned(Some(PipeClosed))
    ensures consumed == p.hashed + InFlight(cfg, p)
  {
    hide Concat;
    if p.pc.PipeWriting? {
      var chunk, rest := cfg.chunks[p.pc.k], p.pc.rest;
      var n := |chunk| - |rest|;
      assert consumed == (consumed + rest)[..|consumed|] == (p.hashed + chunk)[..|p.hashed| + n];
    }
  }

  lemma ConsumedAndRest(cfg: Config, p: Producer, consumed: Bytes)
    requires DataInv(cfg, p, consumed) && p.pc != Returned(Some(PipeClosed))
    ensures consumed + RestOf(cfg, p) == Content(cfg)
  {
    hide Concat;
    if p.pc.Idle? {
      TakeAndDrop(cfg.chunks, p.pc.k);
    } else if p.pc.PipeWriting? || p.pc.Hashing? {
      var k := p.pc.k;
      TakeAndDrop(cfg.chunks, k);
      ConcatTail(cfg.chunks, k);
      var later := Concat(cfg.chunks[k + 1..]);
      assert (p.hashed + cfg.chunks[k]) + later == p.hashed + (cfg.chunks[k] + later);
      assert p.pc.PipeWriting? ==> consumed + (p.pc.rest + later) == (consumed + p.pc.rest) + later;
    }
  }

  /**
   A save that succeeds while the caller's context lives has written and hashed the
   whole content, and the ETag agreed with the MD5 of the part of it hashed by then.
   */
  lemma SuccessMeansAgreement(cfg: Config, s: State)
    requires Inv(cfg, s) && s.prod.pc == Returned(None) && !s.callerDone
    ensures s.ctx == Some(Done) && s.prod.hashed == s.consumed == Content(cfg)
    ensures s.upl.pc.Finished? && s.upl.error.None?
    ensures s.upl.checked.Some? && s.upl.checked.value <= Content(cfg)
    ensures s.upl.etag == HexEncode(cfg.md5(s.upl.checked.value))
    ensures s.stored.Some? && s.stored.value <= Content(cfg)
  {
  }

  /** What the store has kept stays while the caller lives; a save that returned has returned. */
  lemma {:induction false} StoredStays(cfg: Config, s: State, acts: seq<Action>, t: State)
    requires !s.upl.pc.Putting? && Run(cfg, s, acts) == Some(t)
    ensures !t.callerDone ==> t.stored == s.stored && !s.callerDone
    ensures s.prod.pc.Returned? ==> t.prod == s.prod
    decreases |acts|
  {
    if acts != [] {
      StoredStays(cfg, Step(cfg, s, acts[0]).value, acts[1..], t);
    }
  }

  /**
   The exact condition for a whole object, at the step where the store answers: a
   save that succeeds later has stored its content if and only if the pipe had
   nothing left to carry.
   */
  lemma WholeObjectIff(cfg: Config, s: State, etag: string, acts: seq<Action>, t: State)
    requires Reachable(cfg, s) && Step(cfg, s, Answered(Accepted(etag))).Some?
    requires Run(cfg, Step(cfg, s, Answered(Accepted(etag))).value, acts) == Some(t)
    requires t.prod.pc == Returned(None) && !t.callerDone
    ensures t.stored == Some(Content(cfg)) <==> RestOf(cfg, s.prod) == []
  {
    ReachableInv(cfg, s);
    StoredStays(cfg, Step(cfg, s, Answered(Accepted(etag))).value, acts, t);
    ConsumedAndRest(cfg, s.prod, s.consumed);
    assert RestOf(cfg, s.prod) == [] ==> s.consumed + RestOf(cfg, s.prod) == s.consumed;
  }

  /** The hasher lacks exactly what the pipe has carried of the chunk being written. */
  lemma HasherLag(cfg: Config, s: State)
    requires Reachable(cfg, s) && s.prod.pc != Returned(Some(PipeClosed))
    ensures s.consumed == s.prod.hashed + InFlight(cfg, s.prod)
  {
    ReachableInv(cfg, s);
    ConsumedAndInFlight(cfg, s.prod, s.consumed);
  }

  /** While the ETags are compared, what is hashed and what is stored are prefixes of the content. */
  lemma CheckingPrefixes(cfg: Config, s: State)
    requires Inv(cfg, s) && s.upl.pc.Checking? && s.stored.Some?
    ensures s.prod.pc != Returned(Some(PipeClosed))
    ensures s.consumed == s.prod.hashed + InFlight(cfg, s.prod)
    ensures s.stored.value <= s.consumed <= Content(cfg) && s.prod.hashed <= Content(cfg)
  {
    ConsumedAndInFlight(cfg, s.prod, s.consumed);
    ConsumedAndRest(cfg, s.prod, s.consumed);
    hide DataInv, InFlight, RestOf, Concat;
  }

  /**
   The exact condition for a mismatch, by positions in the content: what is hashed when
   the ETags are compared and what was stored when the store answered are prefixes of
   one content, so the answer of a truthful store passes the check if and only if they
   are equally long, or two different prefixes have one MD5. When nothing was carried
   since the answer that means that no chunk is between pipe and hasher.
   */
  lemma TruthfulAnswerPassesIff(cfg: Config, s: State)
    requires Reachable(cfg, s) && s.upl.pc.Checking?
    requires s.stored.Some? && s.upl.pc.etag == HexEncode(cfg.md5(s.stored.value))
    ensures Step(cfg, s, Check).Some?
    ensures s.prod.hashed <= Content(cfg) && s.stored.value <= Content(cfg)
    ensures Step(cfg, s, Check).value.upl.error.None? <==>
              || |s.prod.hashed| == |s.stored.value|
              || (s.prod.hashed != s.stored.value && cfg.md5(s.prod.hashed) == cfg.md5(s.stored.value))
    ensures s.stored.value == s.consumed ==> (|s.prod.hashed| == |s.stored.value| <==> InFlight(cfg, s.prod) == [])
    ensures s.prod.pc.Waiting? ==> s.prod.hashed == Content(cfg)
  {
    ReachableInv(cfg, s);
    CheckingPrefixes(cfg, s);
    var hashed, stored := s.prod.hashed, s.stored.value;
    if |hashed| == |stored| {
      assert hashed == Content(cfg)[..|hashed|] == stored;
    }
    if HexEncode(cfg.md5(hashed)) == HexEncode(cfg.md5(stored)) {
      HexIsInjective(cfg.md5(hashed), cfg.md5(stored));
    }
    hide InFlight, Concat, HexEncode;
  }

  /** Each error of the upload comes from its own answer, or from the comparison of the ETags. */
  lemma EachErrorHasItsStep(cfg: Config, s: State, a: Action, t: State)
    requires Step(cfg, s, a) == Some(t) && s.upl.error == None
    ensures t.upl.error == Some(RequestFailed) <==> a.Answered? && a.answer.Lost?
    ensures t.upl.error == Some(BadStatus) <==> a.Answered? && a.answer.Status?
    ensures t.upl.error == Some(ETagMismatch) <==> a.Check? && s.upl.pc.etag != HexEncode(cfg.md5(s.prod.hashed))
    ensures a.Answered? ==> (t.upl.pc.Ending? <==> !a.answer.Accepted?)
    ensures ReaderClosed(t.upl) <==> ReaderClosed(s.upl) || a.ClosePipe?
  {
    hide HexEncode;
  }

  /** The store keeps what it has read by its answer, also if the answer is lost, and else nothing. */
  lemma AnswersStore(cfg: Config, s: State, answer: Answer, t: State)
    requires Reachable(cfg, s) && Step(cfg, s, Answered(answer)) == Some(t)
    ensures t.stored == if answer == Lost(true) || answer.Accepted? then Some(s.consumed) else None
  {
    ReachableInv(cfg, s);
  }

  /** What ended the upload's context: the first of deadline, caller and end of the upload. */
  function FirstEnd(acts: seq<Action>): Option<Cause> {
    if acts == [] then None
    else
      match acts[0]
      case DeadlinePasses => Some(Deadline)
      case CallerCancels => Some(CallerGone)
      case Cancel => Some(Done)
      case _ => FirstEnd(acts[1..])
  }

  lemma {:induction false} ContextEndsBy(cfg: Config, s: State, acts: seq<Action>, t: State)
    requires Run(cfg, s, acts) == Some(t) && (s.callerDone ==> s.ctx.Some?)
    ensures t.ctx == if s.ctx.Some? then s.ctx else FirstEnd(acts)
    ensures t.callerDone <==> s.callerDone || CallerCancels in acts
    ensures t.callerDone ==> t.ctx.Some?
    decreases |acts|
  {
    if acts != [] {
      var s1 := Step(cfg, s, acts[0]).value;
      ContextStep(cfg, s, acts[0], s1);
      hide Step;
      ContextEndsBy(cfg, s1, acts[1..], t);
      assert acts == [acts[0]] + acts[1..];
    }
  }

  lemma ContextStep(cfg: Config, s: State, a: Action, t: State)
    requires Step(cfg, s, a) == Some(t) && (s.callerDone ==> s.ctx.Some?)
    ensures t.ctx == if s.ctx.Some? then s.ctx
                     else match a
                          case DeadlinePasses => Some(Deadline)
                          case CallerCancels => Some(CallerGone)
                          case Cancel => Some(Done)
                          case _ => None
    ensures t.callerDone <==> s.callerDone || a == CallerCancels
  {
    hide HexEncode;
  }

  /** What Close reports: the deadline if that ended the context, else exactly the recorded error. */
  lemma CloseReports(cfg: Config, s: State, t: State)
    requires Reachable(cfg, s) && Step(cfg, s, CloseReturns) == Some(t)
    ensures t.prod.pc.Returned? && s.ctx.Some?
    ensures t.prod.pc.error == Some(DeadlineExceeded) <==> s.ctx == Some(Deadline)
    ensures s.ctx != Some(Deadline) ==>
              && (forall e :: t.prod.pc.error == Some(UploadFailed(e)) <==> s.upl.error == Some(e))
              && (t.prod.pc.error == None <==> s.upl.error == None)
    ensures s.ctx == Some(Done) && t.prod.pc.error == None ==>
              s.upl.checked.Some? && s.upl.etag == HexEncode(cfg.md5(s.upl.checked.value))
  {
    ReachableInv(cfg, s);
  }

  /**
   Cleanup deletes whether the upload worked or not, but at most once and only when
   the upload's and the caller's context are both done.
   */
  lemma DeletedOnceCallerIsDone(cfg: Config, s: State, arrives: bool)
    requires Reachable(cfg, s)
    ensures s.clean.Cleaned? ==> s.callerDone && s.ctx.Some? && s.clean.sent == cfg.deleteSet
    ensures s.clean.Cleaned? ==> Step(cfg, s, Delete(arrives)).None? && Step(cfg, s, Look).None?
    ensures s.clean.WaitCaller? && s.callerDone && cfg.deleteSet ==>
              Step(cfg, s, Delete(true)).Some? && Step(cfg, s, Delete(true)).value.stored.None?
  {
    ReachableInv(cfg, s);
  }

  // ----------------------------------------------------------------- progress

  /** Steps for the chunks from k on. */
  function ChunksLeft(chunks: seq<Bytes>, k: nat): nat
    decreases |chunks| - k
  {
    if k >= |chunks| then 0 else 4 + |chunks[k]| + ChunksLeft(chunks, k + 1)
  }

  function ProducerLeft(cfg: Config, p: Producer): nat {
    match p.pc
    case Idle(k) => ChunksLeft(cfg.chunks, k) + 2
    case PipeWriting(k, rest) => |rest| + 3 + ChunksLeft(cfg.chunks, k + 1) + 2
    case Hashing(k) => 2 + ChunksLeft(cfg.chunks, k + 1) + 2
    case Waiting => 1
    case Returned(_) => 0
  }

  function UploaderLeft(u: Uploader): nat {
    match u.pc
    case Putting => 4
    case Checking(_) => 3
    case Ending => 2
    case PipeIsClosed => 1
    case Finished => 0
  }

  function Left(cfg: Config, s: State): nat {
    ProducerLeft(cfg, s.prod) + UploaderLeft(s.upl) + (if s.ctx.None? then 1 else 0) + (if s.callerDone then 0 else 1)
    + match s.clean { case WaitUpload => 2 case WaitCaller => 1 case Cleaned(_) => 0 }
  }

  lemma StepUsesUp(cfg: Config, s: State, a: Action)
    requires Step(cfg, s, a).Some?
    ensures Left(cfg, Step(cfg, s, a).value) < Left(cfg, s)
  {
  }

  /** A step of the save itself: no deadline, no cancellation, no cleanup. */
  predicate Own(a: Action) {
    !a.DeadlinePasses? && !a.CallerCancels? && !a.Look? && !a.Delete?
  }

  /** No byte is left for the pipe, nor a chunk for Write. */
  predicate AllCarried(cfg: Config, p: Producer) {
    match p.pc
    case Idle(k) => k == |cfg.chunks|
    case PipeWriting(k, rest) => rest == [] && k + 1 == |cfg.chunks|
    case Hashing(k) => k + 1 == |cfg.chunks|
    case Waiting => true
    case Returned(error) => error.None?
  }

  /** Nothing has failed, and the store has answered truthfully for the whole body if at all. */
  predicate OnTrack(cfg: Config, s: State) {
    && s.upl.error.None? && !s.callerDone && (s.ctx.None? || s.ctx == Some(Done))
    && (s.prod.pc.Returned? ==> s.prod.pc.error.None?)
    && (!s.upl.pc.Putting? ==>
          AllCarried(cfg, s.prod) && s.stored == Some(Content(cfg)) && s.upl.etag == HexEncode(cfg.md5(Content(cfg))))
  }

  lemma AllCarriedMeansNoRest(cfg: Config, p: Producer)
    requires AllCarried(cfg, p)
    ensures RestOf(cfg, p) == []
  {
  }

  /** Until Close has returned some step is possible, and a save on track can stay on it. */
  lemma CanGoOn(cfg: Config, s: State) returns (a: Action)
    requires Inv(cfg, s) && !s.prod.pc.Returned?
    ensures Own(a) && Step(cfg, s, a).Some?
    ensures OnTrack(cfg, s) ==> OnTrack(cfg, Step(cfg, s, a).value)
  {
    hide HexEncode;
    var p := s.prod;
    match p.pc
    case Idle(k) => a := if k < |cfg.chunks| then StartWrite else Close;
    case PipeWriting(k, rest) =>
      a := if rest == [] then PipeWritten else if ReaderClosed(s.upl) then PipeFails else Transfer(|rest|);
    case Hashing(_) => a := Hash;
    case Waiting =>
      if s.ctx.Some? {
        a := CloseReturns;
      } else {
        match s.upl.pc {
          case Putting => a := Answered(Accepted(HexEncode(cfg.md5(s.consumed))));
          case Checking(_) => a := Check;
          case Ending => a := ClosePipe;
          case PipeIsClosed => a := Cancel;
          case Finished => assert false;
        }
      }
    case Returned(_) => assert false;
  }

  // --------------------------------------------- what the comparison cannot promise

  lemma {:induction false} RunAppend(cfg: Config, s: State, acts: seq<Action>, a: Action)
    requires Run(cfg, s, acts).Some?
    ensures Run(cfg, s, acts + [a]) == Step(cfg, Run(cfg, s, acts).value, a)
    decreases |acts|
  {
    if acts == [] {
      assert [a][1..] == [];
    } else {
      assert (acts + [a])[1..] == acts[1..] + [a];
      RunAppend(cfg, Step(cfg, s, acts[0]).value, acts[1..], a);
    }
  }

  lemma Next(cfg: Config, s: State, a: Action) returns (t: State)
    requires Reachable(cfg, s) && Step(cfg, s, a).Some?
    ensures Reachable(cfg, t) && Step(cfg, s, a) == Some(t)
  {
    t := Step(cfg, s, a).value;
    var acts :| Run(cfg, Init(), acts) == Some(s);
    RunAppend(cfg, Init(), acts, a);
  }

  /** While nothing fails the producer can write chunk after chunk. */
  lemma {:induction false} ChunksGoThrough(cfg: Config, k: nat) returns (s: State)
    requires k <= |cfg.chunks|
    ensures Reachable(cfg, s) && s.prod.pc == Idle(k) && s.upl == Init().upl
    ensures s.ctx.None? && !s.callerDone && s.clean.WaitUpload?
  {
    if k == 0 {
      s := Init();
      assert Run(cfg, s, []) == Some(s);
    } else {
      s := ChunksGoThrough(cfg, k - 1);
      s := Next(cfg, s, StartWrite);
      var chunk := cfg.chunks[k - 1];
      if chunk != [] {
        s := Next(cfg, s, Transfer(|chunk|));
      }
      s := Next(cfg, s, PipeWritten);
      s := Next(cfg, s, Hash);
    }
  }

  lemma TruthfulAnswer(cfg: Config, s: State) returns (t: State)
    requires Reachable(cfg, s) && s.prod.pc.Waiting? && s.upl.pc.Putting? && s.ctx.None? && !s.callerDone
    ensures Reachable(cfg, t) && t.upl.pc.Ending? && t.upl.error.None? && t.prod == s.prod
    ensures t.ctx.None? && !t.callerDone && t.stored == Some(Content(cfg))
  {
    ReachableInv(cfg, s);
    var answered := Next(cfg, s, Answered(Accepted(HexEncode(cfg.md5(s.consumed)))));
    t := Next(cfg, answered, Check);
  }

  /** Every content can be saved: a truthful store makes the save succeed with the whole object. */
  lemma EveryContentCanBeSaved(cfg: Config) returns (s: State)
    ensures Reachable(cfg, s) && s.prod.pc == Returned(None) && !s.callerDone && s.stored == Some(Content(cfg))
  {
    s := ChunksGoThrough(cfg, |cfg.chunks|);
    s := Next(cfg, s, Close);
    s := TruthfulAnswer(cfg, s);
    s := Next(cfg, s, ClosePipe);
    s := Next(cfg, s, Cancel);
    s := Next(cfg, s, CloseReturns);
  }

  /** A first chunk of one byte has gone through the pipe but not yet to the hasher. */
  lemma OneByteRead(cfg: Config) returns (s: State)
    requires cfg.chunks != [] && cfg.chunks[0] == [7]
    ensures Reachable(cfg, s)
    ensures s == Init().(prod := Producer(Hashing(0), []), consumed := [7])
  {
    s := Init();
    assert Run(cfg, s, []) == Some(s);
    s := Next(cfg, s, StartWrite);
    assert [7][1..] == [] && [7][..1] == [7];
    s := Next(cfg, s, Transfer(1));
    s := Next(cfg, s, PipeWritten);
  }

  /**
   A truthful store that knows the length may answer before the last chunk is
   hashed; the ETags then differ although the object is complete.
   */
  lemma CompleteObjectCanMismatch(md5: Bytes -> Bytes) returns (cfg: Config, s: State)
    requires md5([7]) != md5([])
    ensures Reachable(cfg, s) && cfg.md5 == md5
    ensures s.stored == Some(Content(cfg)) && s.upl.etag == HexEncode(md5(Content(cfg)))
    ensures s.upl.error == Some(ETagMismatch)
  {
    hide HexEncode;
    cfg := Config([[7]], true, md5);
    ConcatAppend([], [7]);
    assert Content(cfg) == [7];
    if HexEncode(md5([7])) == HexEncode(md5([])) {
      HexIsInjective(md5([7]), md5([]));
    }
    var read := OneByteRead(cfg);
    var answered := Next(cfg, read, Answered(Accepted(HexEncode(md5([7])))));
    s := Next(cfg, answered, Check);
  }

  /** The store answers, and the ETags are compared, after the first of two chunks. */
  lemma FirstChunkAccepted(cfg: Config) returns (s: State)
    requires cfg.chunks == [[7], [8]]
    ensures Reachable(cfg, s)
    ensures s == State(Producer(Idle(1), [7]), Uploader(Ending, None, HexEncode(cfg.md5([7])), Some([7])),
                       [7], Some([7]), None, false, WaitUpload)
  {
    hide HexEncode;
    s := OneByteRead(cfg);
    s := Next(cfg, s, Hash);
    assert s.prod.hashed == [7];
    s := Next(cfg, s, Answered(Accepted(HexEncode(cfg.md5([7])))));
    s := Next(cfg, s, Check);
  }

  lemma SecondChunkIgnored(cfg: Config) returns (s: State)
    requires cfg.chunks == [[7], [8]]
    ensures Reachable(cfg, s) && s.stored == Some([7]) && s.ctx.None? && !s.callerDone && s.clean.WaitUpload?
    ensures s.prod.pc.Waiting? && s.upl == Uploader(Ending, None, HexEncode(cfg.md5([7])), Some([7]))
  {
    hide HexEncode;
    s := FirstChunkAccepted(cfg);
    s := Next(cfg, s, StartWrite);
    assert [8][1..] == [];
    s := Next(cfg, s, Transfer(1));
    s := Next(cfg, s, PipeWritten);
    s := Next(cfg, s, Hash);
    s := Next(cfg, s, Close);
  }

  lemma TwoBytes(cfg: Config)
    requires cfg.chunks == [[7], [8]]
    ensures Content(cfg) == [7, 8]
  {
    ConcatAppend([], [7]);
    ConcatAppend([[7]], [8]);
    assert [[7]] + [[8]] == [[7], [8]] && [] + [[7]] == [[7]];
    assert Concat([]) + [7] == [7] && [7] + [8] == [7, 8];
  }

  /** A store that answers for a part of the body can be believed: the save succeeds, the object is cut short. */
  lemma EarlyAnswerCutsShort(cfg: Config) returns (s: State)
    requires cfg.chunks == [[7], [8]]
    ensures Reachable(cfg, s) && !s.callerDone && s.clean.WaitUpload?
    ensures s.prod.pc == Returned(None) && s.stored == Some([7]) && Content(cfg) == [7, 8]
    ensures s.upl.error.None? && s.upl.etag == HexEncode(cfg.md5([7])) && s.upl.checked == Some([7])
  {
    hide HexEncode;
    TwoBytes(cfg);
    s := SecondChunkIgnored(cfg);
    s := Next(cfg, s, ClosePipe);
    s := Next(cfg, s, Cancel);
    s := Next(cfg, s, CloseReturns);
  }

  /** A run in which neither caller nor cleanup has stepped in. */
  lemma {:induction false} QuietRun(cfg: Config, s: State, acts: seq<Action>)
    requires Run(cfg, s, acts).Some? && !Run(cfg, s, acts).value.callerDone && Run(cfg, s, acts).value.clean.WaitUpload?
    ensures !s.callerDone && s.clean.WaitUpload?
    ensures forall k :: 0 <= k < |acts| ==> !acts[k].CallerCancels? && !acts[k].Look? && !acts[k].Delete?
    decreases |acts|
  {
    if acts != [] {
      QuietRun(cfg, Step(cfg, s, acts[0]).value, acts[1..]);
      assert forall k :: 0 < k < |acts| ==> acts[k] == acts[1..][k - 1];
    }
  }
}
