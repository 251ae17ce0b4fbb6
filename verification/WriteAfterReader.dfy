/**
 The coupled reader and writer (internal/helper/writeafterreader.go): until the
 reader has returned an error, writes go to a tempfile; afterwards the tempfile is
 flushed to the real writer before anything else is.
 */
module WriteAfterReader {
  import opened Wrappers
  import opened Bytes

  /** `drained` is the reader's recorded error, `sink` all that reached the writer. */
  datatype Writer = Writer(drained: bool, sink: Bytes, temp: Option<Bytes>, writeError: bool)

  function Buffered(w: Writer): Bytes {
    if w.temp.Some? then w.temp.value else []
  }

  /** Flush drops the tempfile whatever happens to the copy. */
  function Flush(w: Writer, copy: Fault): (Writer, bool) {
    if w.temp.None? then (w, true)
    else (w.(temp := None, sink := w.sink + Passed(w.temp.value, copy)), copy.Works?)
  }

  /** Write while the reader is busy. */
  function WriteTemp(w: Writer, data: Bytes, create: bool, io: Fault): (Writer, bool) {
    if w.temp.None? && !create then (w.(writeError := true), false)
    else (w.(temp := Some(Buffered(w) + Passed(data, io)), writeError := !io.Works?), io.Works?)
  }

  /** Write after the reader is drained; a failing direct write is not remembered. */
  function WriteDirect(w: Writer, data: Bytes, copy: Fault, io: Fault): (Writer, bool) {
    var (w', ok) := Flush(w, copy);
    if !ok then (w'.(writeError := true), false)
    else (w'.(sink := w'.sink + Passed(data, io)), io.Works?)
  }

  /** io.EOF, or another error of the wrapped reader. */
  datatype ReadError = EOF | Failed(text: string)

  class BusyReader {
    var error: Option<ReadError>

    constructor ()
      ensures error == None
    {
      error := None;
    }

    /**
     The first error is returned for ever, in the same words, and the wrapped reader is
     not asked again; another error than the end of the stream names the reader.
     */
    method Read(answer: (Bytes, Option<ReadError>)) returns (data: Bytes, err: Option<ReadError>)
      modifies this
      ensures old(error).Some? ==> data == [] && err == error == old(error)
      ensures old(error).None? ==> data == answer.0 && error == err
      ensures old(error).None? && answer.1 in {None, Some(EOF)} ==> err == answer.1
      ensures forall e :: old(error).None? && answer.1 == Some(Failed(e)) ==>
                            err == Some(Failed("busyReader: " + e))
    {
      if error.Some? {
        return [], error;
      }
      data, err := answer.0, answer.1;
      if err.Some? {
        if err.value.Failed? {
          err := Some(Failed("busyReader: " + err.value.text));
        }
        error := err;
      }
    }

    method IsBusy() returns (busy: bool)
      ensures busy == error.None?
    {
      busy := error.None?;
    }
  }

  class CoupledWriter {
    const busyReader: BusyReader
    var sink: Bytes
    var tempfile: Option<Bytes>
    var writeError: bool

    ghost function Contents(): Writer
      reads this, busyReader
    {
      Writer(busyReader.error.Some?, sink, tempfile, writeError)
    }

    constructor (busyReader: BusyReader)
      ensures this.busyReader == busyReader
      ensures Contents() == Writer(busyReader.error.Some?, [], None, false)
    {
      this.busyReader := busyReader;
      sink, tempfile, writeError := [], None, false;
    }

    method FlushAll(copy: Fault) returns (ok: bool)
      modifies this
      ensures (Contents(), ok) == Flush(old(Contents()), copy)
    {
      if tempfile.None? {
        return true;
      }
      var content := tempfile.value;
      tempfile := None;
      sink := sink + Passed(content, copy);
      ok := copy.Works?;
    }

    method TempfileWrite(data: Bytes, create: bool, io: Fault) returns (ok: bool)
      modifies this`tempfile
      ensures tempfile == if old(tempfile).None? && !create then None
                          else Some(Buffered(old(Contents())) + Passed(data, io))
      ensures ok <==> (old(tempfile).Some? || create) && io.Works?
    {
      if tempfile.None? {
        if !create {
          return false;
        }
        tempfile := Some([]);
      }
      tempfile := Some(tempfile.value + Passed(data, io));
      ok := io.Works?;
    }

    method Write(data: Bytes, create: bool, copy: Fault, io: Fault) returns (ok: bool)
      modifies this
      ensures (Contents(), ok) ==
                if old(writeError) then (old(Contents()), false)
                else if busyReader.error.None? then WriteTemp(old(Contents()), data, create, io)
                else WriteDirect(old(Contents()), data, copy, io)
    {
      if writeError {
        return false;
      }
      var busy := busyReader.IsBusy();
      if busy {
        ok := TempfileWrite(data, create, io);
        if !ok {
          writeError := true;
        }
        return;
      }
      ok := FlushAll(copy);
      if !ok {
        writeError := true;
        return;
      }
      sink := sink + Passed(data, io);
      ok := io.Works?;
    }
  }

  // ---------------------------------------------------------------------------
  // Runs
  // ---------------------------------------------------------------------------

  /** A Write has looked at the reader and not acted yet; the reader may be drained
      in between, and the user may flush: the mutex orders the two on the tempfile. */
  datatype Pc = Idle | ToTemp(data: Bytes) | ToSink(data: Bytes)

  /** `offered` is the data of all Write calls in order, `flushed` whether Flush was
      called by the user. */
  datatype State = State(w: Writer, pc: Pc, offered: Bytes, flushed: bool)

  datatype Action =
    | Drain                                              // the reader returns an error
    | BeginWrite(data: Bytes)
    | EndWrite(create: bool, copy: Fault, io: Fault)
    | UserFlush(flush: Fault)

  function Step(s: State, a: Action): Option<State> {
    match a
    case Drain => Some(s.(w := s.w.(drained := true)))
    case BeginWrite(data) =>
      if !s.pc.Idle? then None
      else if s.w.writeError then Some(s.(offered := s.offered + data))
      else Some(s.(pc := if s.w.drained then ToSink(data) else ToTemp(data)))
    case EndWrite(create, copy, io) =>
      (match s.pc
       case Idle => None
       case ToTemp(data) =>
         Some(State(WriteTemp(s.w, data, create, io).0, Idle, s.offered + data, s.flushed))
       case ToSink(data) =>
         Some(State(WriteDirect(s.w, data, copy, io).0, Idle, s.offered + data, s.flushed)))
    case UserFlush(copy) => Some(s.(w := Flush(s.w, copy).0, flushed := true))
  }

  function Run(s: State, acts: seq<Action>): Option<State>
    decreases |acts|
  {
    if acts == [] then Some(s)
    else match Step(s, acts[0])
      case None => None
      case Some(s') => Run(s', acts[1..])
  }

  const INITIAL := State(Writer(false, [], None, false), Idle, [], false)

  predicate Faultless(a: Action) {
    match a
    case EndWrite(create, copy, io) => create && copy.Works? && io.Works?
    case UserFlush(copy) => copy.Works?
    case _ => true
  }

  // ---------------------------------------------------------------------------
  // Without faults: a plain writer with a delay
  // ---------------------------------------------------------------------------

  predicate DelayInv(s: State) {
    && !s.w.writeError
    && s.w.sink + Buffered(s.w) == s.offered
    && (s.pc.ToSink? ==> s.w.drained)
    && (!s.w.drained && !s.flushed ==> s.w.sink == [])
  }

  lemma {:induction false} RunsDelay(s: State, acts: seq<Action>)
    requires DelayInv(s) && Run(s, acts).Some?
    requires forall a | a in acts :: Faultless(a)
    ensures DelayInv(Run(s, acts).value)
    decreases |acts|
  {
    if acts != [] {
      var a, s' := acts[0], Step(s, acts[0]).value;
      assert Faultless(a) && forall b | b in acts[1..] :: b in acts;
      if a.EndWrite? {
        assert s.w.sink + (Buffered(s.w) + s.pc.data) == (s.w.sink + Buffered(s.w)) + s.pc.data;
      }
      RunsDelay(s', acts[1..]);
    }
  }

  /** What a call reports to its caller; the end of the stream and the rest report nothing. */
  function Reports(s: State, a: Action): bool {
    match a
    case BeginWrite(_) => !s.w.writeError
    case EndWrite(create, copy, io) =>
      if s.pc.ToTemp? then WriteTemp(s.w, s.pc.data, create, io).1
      else if s.pc.ToSink? then WriteDirect(s.w, s.pc.data, copy, io).1
      else true
    case UserFlush(copy) => Flush(s.w, copy).1
    case Drain => true
  }

  predicate AllReportSuccess(s: State, acts: seq<Action>)
    requires Run(s, acts).Some?
    decreases |acts|
  {
    acts == [] || (Reports(s, acts[0]) && AllReportSuccess(Step(s, acts[0]).value, acts[1..]))
  }

  /**
   Success can be believed, whatever faults there are: while every Write and Flush has
   reported success, nothing that was written is missing.
   */
  lemma {:induction false} SuccessMeansNothingIsMissing(s: State, acts: seq<Action>)
    requires DelayInv(s) && Run(s, acts).Some? && AllReportSuccess(s, acts)
    ensures DelayInv(Run(s, acts).value)
    decreases |acts|
  {
    if acts != [] {
      var a, s' := acts[0], Step(s, acts[0]).value;
      if a.EndWrite? {
        assert s.w.sink + (Buffered(s.w) + s.pc.data) == (s.w.sink + Buffered(s.w)) + s.pc.data;
      }
      SuccessMeansNothingIsMissing(s', acts[1..]);
    }
  }

  /** And failure is reported only where there is a fault, or was one. */
  lemma FailureMeansAFault(s: State, a: Action)
    requires Step(s, a).Some? && !Reports(s, a)
    ensures !Faultless(a) || s.w.writeError
  {
  }

  /**
   Without I/O faults, after any interleaving of reads, writes and flushes the sink
   and the tempfile together hold everything that was written; nothing reaches the
   sink while the reader is busy unless the user flushes; and a flush, even while a
   Write is under way, makes the sink the whole of what was written before.
   */
  lemma RefinesPlainWriter(acts: seq<Action>)
    requires Run(INITIAL, acts).Some? && forall a | a in acts :: Faultless(a)
    ensures var s := Run(INITIAL, acts).value;
            && s.w.sink + Buffered(s.w) == s.offered
            && (!s.w.drained && !s.flushed ==> s.w.sink == [])
            && Step(s, UserFlush(Works)).value.w.sink == s.offered
            && Step(s, UserFlush(Works)).value.w.temp == None
  {
    RunsDelay(INITIAL, acts);
  }

  /** The data of all Write calls of a run. */
  function Written(acts: seq<Action>): Bytes {
    if acts == [] then []
    else (if acts[0].BeginWrite? then acts[0].data else []) + Written(acts[1..])
  }

  /** The data of the Write that is under way. */
  function UnderWay(s: State): Bytes {
    if s.pc.Idle? then [] else s.pc.data
  }

  /** `offered` is what it is meant to be, the refused calls and those that fail included. */
  lemma {:induction false} OfferedIsWhatWasWritten(s: State, acts: seq<Action>)
    requires Run(s, acts).Some?
    ensures var s' := Run(s, acts).value;
            && s'.offered + UnderWay(s') == s.offered + UnderWay(s) + Written(acts)
            && (s'.w.drained <==> s.w.drained || Drain in acts)
            && (s'.flushed <==> s.flushed || exists f :: UserFlush(f) in acts)
    decreases |acts|
  {
    if acts != [] {
      var s1, a := Step(s, acts[0]).value, acts[0];
      StepOffers(s, a);
      OfferedIsWhatWasWritten(s1, acts[1..]);
      assert acts == [a] + acts[1..];
      var before, now := s.offered + UnderWay(s), if a.BeginWrite? then a.data else [];
      assert before + now + Written(acts[1..]) == before + (now + Written(acts[1..]));
    }
  }

  lemma StepOffers(s: State, a: Action)
    requires Step(s, a).Some?
    ensures var s' := Step(s, a).value;
            && s'.offered + UnderWay(s') == s.offered + UnderWay(s) + (if a.BeginWrite? then a.data else [])
            && (s'.w.drained <==> s.w.drained || a == Drain)
            && (s'.flushed <==> s.flushed || a.UserFlush?)
  {
  }

  /**
   Where a Write without faults goes is decided when it looks at the reader. A drained
   reader lets it through, behind what the tempfile holds; a busy one sends it to the
   tempfile, even if the end of the stream is read before it is done.
   */
  lemma WhereAWriteGoes(s: State, data: Bytes, meanwhile: seq<Action>)
    requires s.pc.Idle? && !s.w.writeError
    requires forall a | a in meanwhile :: a == Drain
    ensures Run(s, [BeginWrite(data)] + meanwhile + [EndWrite(true, Works, Works)]).Some?
    ensures var w := Run(s, [BeginWrite(data)] + meanwhile + [EndWrite(true, Works, Works)]).value.w;
            if s.w.drained then w.sink == s.w.sink + Buffered(s.w) + data && w.temp == None
            else w.sink == s.w.sink && w.temp == Some(Buffered(s.w) + data)
  {
    var begin, end := BeginWrite(data), EndWrite(true, Works, Works);
    var acts := [begin] + meanwhile + [end];
    assert acts[0] == begin && acts[1..] == meanwhile + [end];
    DrainsThenEnd(Step(s, begin).value, meanwhile, end);
  }

  lemma {:induction false} DrainsThenEnd(s: State, meanwhile: seq<Action>, end: Action)
    requires forall a | a in meanwhile :: a == Drain
    ensures var t := if meanwhile == [] then s else s.(w := s.w.(drained := true));
            Run(s, meanwhile + [end]) == Step(t, end)
    decreases |meanwhile|
  {
    var acts := meanwhile + [end];
    if meanwhile == [] {
      assert acts[0] == end && acts[1..] == [];
    } else {
      assert meanwhile[0] in meanwhile && forall a | a in meanwhile[1..] :: a in meanwhile;
      assert acts[0] == meanwhile[0] && acts[1..] == meanwhile[1..] + [end];
      DrainsThenEnd(s.(w := s.w.(drained := true)), meanwhile[1..], end);
    }
  }

  // ---------------------------------------------------------------------------
  // With faults: when the sink stays a prefix
  // ---------------------------------------------------------------------------

  /** Nothing is missing, or something is and no Write can add to it any more. */
  predicate Healthy(s: State) {
    || s.w.sink + Buffered(s.w) == s.offered
    || (s.w.writeError && s.pc.Idle? && s.w.sink + Buffered(s.w) <= s.offered)
  }

  /**
   The call drops bytes and reports an error, but does not remember it: a direct
   write that stops short after its flush has worked, or a failing Flush by the
   user while no Write has failed yet.
   */
  predicate LosesSilently(s: State, a: Action) {
    match a
    case EndWrite(_, copy, io) =>
      s.pc.ToSink? && (s.w.temp.None? || copy.Works?) && Passed(s.pc.data, io) != s.pc.data
    case UserFlush(copy) => !s.w.writeError && Passed(Buffered(s.w), copy) != Buffered(s.w)
    case _ => false
  }

  predicate WellFormed(s: State) {
    (s.pc.ToTemp? || s.pc.ToSink? ==> !s.w.writeError) && (s.pc.ToSink? ==> s.w.drained)
  }

  lemma PassedIsPrefix(data: Bytes, f: Fault)
    ensures Passed(data, f) <= data
    ensures Passed(data, f) != data ==> |Passed(data, f)| < |data| && f.FailsAfter?
  {
  }

  /** A step keeps a healthy state healthy exactly when it does not lose silently. */
  lemma HealthyUnlessLost(s: State, a: Action)
    requires Healthy(s) && WellFormed(s) && Step(s, a).Some?
    ensures WellFormed(Step(s, a).value)
    ensures Healthy(Step(s, a).value) <==> !LosesSilently(s, a)
  {
    var s' := Step(s, a).value;
    match a {
      case EndWrite(create, copy, io) =>
        PassedIsPrefix(s.pc.data, io);
        PassedIsPrefix(Buffered(s.w), copy);
        assert s.w.sink + Buffered(s.w) == s.offered;
        assert s.w.sink + (Buffered(s.w) + Passed(s.pc.data, io)) == s.offered + Passed(s.pc.data, io);
        assert (s.w.sink + Buffered(s.w)) + Passed(s.pc.data, io) == s.offered + Passed(s.pc.data, io);
        assert s.w.sink + Passed(Buffered(s.w), copy) <= s.offered;
      case UserFlush(copy) =>
        PassedIsPrefix(Buffered(s.w), copy);
        assert s.w.sink + Passed(Buffered(s.w), copy) <= s.w.sink + Buffered(s.w);
      case _ =>
    }
  }

  /** No step of the run loses silently. */
  predicate KeepsAll(s: State, acts: seq<Action>)
    requires Run(s, acts).Some?
    decreases |acts|
  {
    acts == [] || (!LosesSilently(s, acts[0]) && KeepsAll(Step(s, acts[0]).value, acts[1..]))
  }

  predicate SinkIsPrefix(s: State) { s.w.sink <= s.offered }

  /**
   Faults included: as long as no call loses silently the sink only ever holds a
   prefix of what was written; in particular after any fault that Write remembers.
   */
  lemma {:induction false} SinkStaysPrefix(s: State, acts: seq<Action>)
    requires Healthy(s) && WellFormed(s) && Run(s, acts).Some? && KeepsAll(s, acts)
    ensures var s' := Run(s, acts).value; Healthy(s') && WellFormed(s') && SinkIsPrefix(s')
    decreases |acts|
  {
    if acts == [] {
      assert s.w.sink <= s.w.sink + Buffered(s.w) <= s.offered;
    } else {
      HealthyUnlessLost(s, acts[0]);
      SinkStaysPrefix(Step(s, acts[0]).value, acts[1..]);
    }
  }

  lemma {:induction false} RemembersTheFault(s: State, acts: seq<Action>)
    requires s.w.writeError && s.pc.Idle? && Healthy(s) && Run(s, acts).Some?
    ensures Run(s, acts).value.w.writeError && SinkIsPrefix(Run(s, acts).value)
    decreases |acts|
  {
    if acts == [] {
      assert s.w.sink <= s.w.sink + Buffered(s.w) <= s.offered;
    } else {
      HealthyUnlessLost(s, acts[0]);
      RemembersTheFault(Step(s, acts[0]).value, acts[1..]);
    }
  }

  /** Every faultless way to go on keeps the sink a prefix. */
  ghost predicate PrefixFromHere(s: State) {
    forall acts | Run(s, acts).Some? && (forall a | a in acts :: Faultless(a)) ::
      SinkIsPrefix(Run(s, acts).value)
  }

  lemma {:induction false} FaultlessKeepsAll(s: State, acts: seq<Action>)
    requires Run(s, acts).Some? && forall a | a in acts :: Faultless(a)
    ensures KeepsAll(s, acts)
    decreases |acts|
  {
    if acts != [] {
      assert Faultless(acts[0]) && forall b | b in acts[1..] :: b in acts;
      FaultlessKeepsAll(Step(s, acts[0]).value, acts[1..]);
    }
  }

  lemma PrefixFromNext(s: State, a: Action)
    requires PrefixFromHere(s) && Step(s, a).Some? && Faultless(a)
    ensures PrefixFromHere(Step(s, a).value)
  {
    var t := Step(s, a).value;
    forall acts | Run(t, acts).Some? && (forall b | b in acts :: Faultless(b))
      ensures SinkIsPrefix(Run(t, acts).value)
    {
      assert ([a] + acts)[1..] == acts;
      assert Run(s, [a] + acts) == Run(t, acts);
      assert forall b | b in [a] + acts :: Faultless(b);
    }
  }

  /** Something is missing, and Write does not know of it. */
  predicate HasHole(s: State) {
    !s.w.writeError && |s.w.sink + Buffered(s.w)| < |s.offered|
  }

  /** One more write then puts a wrong byte into the sink. */
  lemma HoleBreaksThePrefix(s: State)
    requires HasHole(s) && s.pc.Idle?
    ensures !PrefixFromHere(s)
  {
    var held := s.w.sink + Buffered(s.w);
    var wrong: Byte := if s.offered[|held|] == 0 then 1 else 0;
    var write, end, flush := BeginWrite([wrong]), EndWrite(true, Works, Works), UserFlush(Works);
    var s1 := Step(s, write).value;
    var s2 := Step(s1, end).value;
    var s3 := Step(s2, flush).value;
    assert s3.w.sink == held + [wrong] by {
      assert (s.w.sink + Buffered(s.w)) + [wrong] == s.w.sink + (Buffered(s.w) + [wrong]);
    }
    assert s3.w.sink[|held|] != s3.offered[|held|];
    var acts := [write, end, flush];
    assert acts[1..] == [end, flush] && acts[1..][1..] == [flush] && acts[1..][1..][1..] == [];
    assert Run(s2, [flush]) == Some(s3) by { assert [flush][1..] == []; }
    assert Run(s1, [end, flush]) == Some(s3) by { assert [end, flush][1..] == [flush]; }
    assert Run(s, acts) == Some(s3);
    assert forall b | b in acts :: Faultless(b);
    assert !SinkIsPrefix(s3);
  }

  /** After a silent loss the Write under way, if any, can end, and the next one breaks the prefix. */
  lemma SilentLossBreaksThePrefix(s: State, a: Action)
    requires Healthy(s) && WellFormed(s) && Step(s, a).Some? && LosesSilently(s, a)
    ensures !PrefixFromHere(Step(s, a).value)
  {
    var s' := Step(s, a).value;
    LossLeavesAHole(s, a);
    if s'.pc.Idle? {
      HoleBreaksThePrefix(s');
    } else {
      var end := EndWrite(true, Works, Works);
      HoleBreaksThePrefix(Step(s', end).value);
      if PrefixFromHere(s') {
        PrefixFromNext(s', end);
      }
    }
  }

  lemma LossLeavesAHole(s: State, a: Action)
    requires Healthy(s) && WellFormed(s) && Step(s, a).Some? && LosesSilently(s, a)
    ensures HasHole(Step(s, a).value)
  {
    if a.EndWrite? {
      PassedIsPrefix(s.pc.data, a.io);
    } else {
      PassedIsPrefix(Buffered(s.w), a.flush);
    }
  }

  /**
   The exact condition: after a call the sink is sure to stay a prefix of what is
   written if and only if the call did not lose bytes without remembering it.
   */
  lemma PrefixIffNothingLostSilently(s: State, a: Action)
    requires Healthy(s) && WellFormed(s) && Step(s, a).Some?
    ensures PrefixFromHere(Step(s, a).value) <==> !LosesSilently(s, a)
  {
    var s' := Step(s, a).value;
    if LosesSilently(s, a) {
      SilentLossBreaksThePrefix(s, a);
    } else {
      HealthyUnlessLost(s, a);
      forall acts | Run(s', acts).Some? && (forall b | b in acts :: Faultless(b))
        ensures SinkIsPrefix(Run(s', acts).value)
      {
        FaultlessKeepsAll(s', acts);
        SinkStaysPrefix(s', acts);
      }
    }
  }
}
