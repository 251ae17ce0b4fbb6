/**
 What becomes of one archive request in a run, whatever the others and the disk do: who
 gets the cached archive, who fails and what for, and what the client has by then
 (internal/git/archive.go:69-137).
 */
module ArchiveOutcomes {
  import opened Wrappers
  import opened Bytes
  import opened ArchiveCache
  import opened ArchiveRequests

  /** An event of request i: what has to hold when a step is taken. */
  type Event = (State, Action) -> bool

  predicate Meets(ev: Event, s: State, acts: seq<Action>)
    decreases |acts|
  {
    acts != [] && Step(s, acts[0]).Some?
    && (ev(s, acts[0]) || Meets(ev, Step(s, acts[0]).value, acts[1..]))
  }

  /** The request looks for an archive, may use the cache, and there is one. */
  function FindsArchive(i: nat): Event {
    (s: State, a: Action) => a == Look(i) && i < |s.reqs| && s.reqs[i].cacheEnabled && s.cache in s.disk.names
  }

  /** Something that the request needs goes wrong; writing to the tempfile only with the cache. */
  function MeetsAFault(i: nat): Event {
    (s: State, a: Action) =>
      !a.Unlink? && a.i == i < |s.reqs|
      && match a
         case CreateTemp(_, _, ok) => !ok
         case StartCommands(_, ok) => !ok
         case CopyChunk(_, tee, client) => !client.Works? || (s.reqs[i].cacheEnabled && !tee.Works?)
         case EndOfStream(_) => ReadEnd(s.reqs[i].run).Some?
         case _ => false
  }

  /** The archive is with the client, and the cache has had its chance. */
  function HasAllDone(i: nat): Event {
    (s: State, a: Action) =>
      !a.Unlink? && a.i == i < |s.reqs|
      && match a
         case EndOfStream(_) => !s.reqs[i].cacheEnabled && ReadEnd(s.reqs[i].run).None?
         case CloseTemp(_, ok) => !ok
         case LinkTemp(_, _) => true
         case _ => false
  }

  predicate IsHit(r: Request) { r.phase.Serving? || r.phase.Served? }

  predicate HasFailed(r: Request) { r.phase == Removing(false) || r.phase == Done(false) }

  predicate HasSucceeded(r: Request) { r.phase == Removing(true) || r.phase == Done(true) }

  /** With the cache there is a tempfile from its creation on, without there is none. */
  predicate TempFits(r: Request) {
    match r.phase
    case Start => r.temp.None?
    case Serving(_) | Served(_) => r.temp.None? && r.cacheEnabled
    case Missed => r.temp.None? && r.cacheEnabled
    case Opened | Copying(_) => r.temp.Some? <==> r.cacheEnabled
    case Closing | Linking | Removing(_) => r.temp.Some? && r.cacheEnabled
    case Done(ok) => !r.cacheEnabled || ok ==> (r.temp.Some? <==> r.cacheEnabled)
  }

  /** What the client of a request without a hit has received. */
  predicate SentFits(r: Request) {
    match r.phase
    case Start | Missed | Opened => r.sent == []
    case Serving(_) | Served(_) => true
    case Copying(k) => k <= |r.run.chunks| && r.sent == Concat(r.run.chunks[..k])
    case Closing | Linking => r.sent == Output(r.run)
    case Removing(ok) => if ok then r.sent == Output(r.run) else r.sent <= Output(r.run)
    case Done(ok) => if ok then r.sent == Output(r.run) else r.sent <= Output(r.run)
  }

  /** How a request has changed, by what has happened to it. */
  predicate Turns(r: Request, r': Request, looked: bool, found: bool, fault: bool, done: bool, made: bool) {
    && r'.run == r.run && r'.cacheEnabled == r.cacheEnabled && TempFits(r') && SentFits(r')
    && (r'.phase.Start? <==> r.phase.Start? && !looked)
    && (IsHit(r') <==> IsHit(r) || found)
    && (HasFailed(r') <==> HasFailed(r) || fault)
    && (HasSucceeded(r') <==> HasSucceeded(r) || done)
    && (r'.temp.Some? <==> r.temp.Some? || made)
  }

  predicate Makes(a: Action, i: nat) { a.CreateTemp? && a.i == i && a.ok }

  /** Request i after the actions, seen from where it was before. */
  ghost predicate Becomes(s: State, acts: seq<Action>, t: State, i: nat)
    requires i < |s.reqs|
  {
    && |t.reqs| == |s.reqs|
    && Turns(s.reqs[i], t.reqs[i], Look(i) in acts, Meets(FindsArchive(i), s, acts),
             Meets(MeetsAFault(i), s, acts), Meets(HasAllDone(i), s, acts), exists a | a in acts :: Makes(a, i))
  }

  lemma CopiedFits(r: Request, k: nat, tee: Fault, client: Fault)
    requires r.phase == Copying(k) && k < |r.run.chunks| && TempFits(r) && SentFits(r)
    ensures var fault := !client.Works? || (r.cacheEnabled && !tee.Works?);
            Turns(r, Copied(r, k, tee, client), false, false, fault, false, false)
  {
    var chunk := r.run.chunks[k];
    ConcatAppend(r.run.chunks[..k], chunk);
    assert r.run.chunks[..k] + [chunk] == r.run.chunks[..k + 1];
    SentSoFar(r.run, k + 1);
    assert r.sent + chunk <= Output(r.run);
    assert r.sent + Passed(Teed(r, chunk, tee), client) <= r.sent + chunk;
  }

  lemma SentSoFar(run: CommandRun, k: nat)
    requires k <= |run.chunks|
    ensures Concat(run.chunks[..k]) <= Output(run)
  {
    ConcatSplit(run.chunks[..k], run.chunks[k..]);
    assert run.chunks[..k] + run.chunks[k..] == run.chunks;
  }

  lemma OtherTurns(s: State, a: Action, t: State, i: nat)
    requires i < |s.reqs| && TempFits(s.reqs[i]) && SentFits(s.reqs[i]) && Step(s, a) == Some(t)
    requires a.Unlink? || a.i != i
    ensures |t.reqs| == |s.reqs|
    ensures Turns(s.reqs[i], t.reqs[i], a == Look(i), FindsArchive(i)(s, a), MeetsAFault(i)(s, a),
                  HasAllDone(i)(s, a), Makes(a, i))
  {
    hide Concat, TempFits, SentFits;
  }

  lemma EarlyTurns(s: State, a: Action, t: State, i: nat)
    requires i < |s.reqs| && TempFits(s.reqs[i]) && SentFits(s.reqs[i]) && Step(s, a) == Some(t)
    requires (a.Look? || a.Serve? || a.CreateTemp? || a.StartCommands?) && a.i == i
    ensures |t.reqs| == |s.reqs|
    ensures Turns(s.reqs[i], t.reqs[i], a == Look(i), FindsArchive(i)(s, a), MeetsAFault(i)(s, a),
                  HasAllDone(i)(s, a), Makes(a, i))
  {
    assert Concat(s.reqs[i].run.chunks[..0]) == [];
    hide Concat, Passed, ReadEnd;
  }

  lemma EndTurns(s: State, a: Action, t: State, i: nat)
    requires i < |s.reqs| && TempFits(s.reqs[i]) && SentFits(s.reqs[i]) && Step(s, a) == Some(t)
    requires a.EndOfStream? && a.i == i
    ensures |t.reqs| == |s.reqs|
    ensures Turns(s.reqs[i], t.reqs[i], a == Look(i), FindsArchive(i)(s, a), MeetsAFault(i)(s, a),
                  HasAllDone(i)(s, a), Makes(a, i))
  {
    var r := s.reqs[i];
    SentSoFar(r.run, |r.run.chunks|);
    assert r.run.chunks[..|r.run.chunks|] == r.run.chunks;
    hide Concat, ReadEnd;
  }

  lemma LateTurns(s: State, a: Action, t: State, i: nat)
    requires i < |s.reqs| && TempFits(s.reqs[i]) && SentFits(s.reqs[i]) && Step(s, a) == Some(t)
    requires (a.CloseTemp? || a.LinkTemp? || a.RemoveTemp?) && a.i == i
    ensures |t.reqs| == |s.reqs|
    ensures Turns(s.reqs[i], t.reqs[i], a == Look(i), FindsArchive(i)(s, a), MeetsAFault(i)(s, a),
                  HasAllDone(i)(s, a), Makes(a, i))
  {
    hide Concat, ReadEnd, Link, Remove;
  }

  /** One step, of the request or of anybody else. */
  lemma StepTurns(s: State, a: Action, t: State, i: nat)
    requires i < |s.reqs| && TempFits(s.reqs[i]) && SentFits(s.reqs[i]) && Step(s, a) == Some(t)
    ensures |t.reqs| == |s.reqs|
    ensures Turns(s.reqs[i], t.reqs[i], a == Look(i), FindsArchive(i)(s, a), MeetsAFault(i)(s, a),
                  HasAllDone(i)(s, a), Makes(a, i))
  {
    if a.Unlink? || a.i != i {
      OtherTurns(s, a, t, i);
    } else if a.CopyChunk? {
      CopiedFits(s.reqs[i], s.reqs[i].phase.k, a.tee, a.client);
    } else if a.EndOfStream? {
      EndTurns(s, a, t, i);
    } else if a.CloseTemp? || a.LinkTemp? || a.RemoveTemp? {
      LateTurns(s, a, t, i);
    } else {
      EarlyTurns(s, a, t, i);
    }
  }

  lemma {:induction false} RunBecomes(s: State, acts: seq<Action>, t: State, i: nat)
    requires i < |s.reqs| && TempFits(s.reqs[i]) && SentFits(s.reqs[i]) && Run(s, acts) == Some(t)
    ensures Becomes(s, acts, t, i)
    decreases |acts|
  {
    if acts != [] {
      var s1 := Step(s, acts[0]).value;
      StepTurns(s, acts[0], s1, i);
      hide Step, TempFits, SentFits, Makes;
      RunBecomes(s1, acts[1..], t, i);
      assert acts == [acts[0]] + acts[1..];
    }
  }

  /**
   Over every run, clashes and deletions included: a request is served from the cache
   exactly if it found an archive when it looked; it fails exactly if something that it
   needs went wrong; it makes a tempfile only with the cache. The client of a request
   without a hit has all of the output after a success and a prefix after a failure.
   */
  lemma OutcomeOverRuns(s0: State, acts: seq<Action>, s: State, i: nat)
    requires Init(s0) && Run(s0, acts) == Some(s) && i < |s0.reqs|
    ensures |s.reqs| == |s0.reqs|
    ensures var r := s.reqs[i];
            && (IsHit(r) <==> Meets(FindsArchive(i), s0, acts))
            && (HasFailed(r) <==> Meets(MeetsAFault(i), s0, acts))
            && (HasSucceeded(r) <==> Meets(HasAllDone(i), s0, acts))
            && (r.phase.Start? <==> Look(i) !in acts)
            && (r.temp.Some? <==> exists a | a in acts :: Makes(a, i))
            && (r.temp.Some? ==> r.cacheEnabled)
            && (HasSucceeded(r) ==> r.sent == Output(r.run))
            && (!IsHit(r) ==> r.sent <= Output(r.run))
  {
    RunBecomes(s0, acts, s, i);
    var r := s.reqs[i];
    if r.phase.Copying? {
      SentSoFar(r.run, r.phase.k);
    }
  }

  /** Without the cache a request leaves the disk alone. */
  lemma UncachedLeavesTheDisk(s0: State, acts: seq<Action>, s: State, a: Action)
    requires Init(s0) && Run(s0, acts) == Some(s) && Step(s, a).Some?
    requires !a.Unlink? && a.i < |s0.reqs| == |s.reqs| && !s.reqs[a.i].cacheEnabled
    ensures Step(s, a).value.disk == s.disk
  {
    RunBecomes(s0, acts, s, a.i);
  }

  // ------------------------------------------------------------- coming to an end

  /** What a request refers to is there. */
  predicate RefersToInodes(s: State, i: nat) {
    && i < |s.reqs| && Sound(s.disk)
    && (s.reqs[i].phase.Serving? ==> s.reqs[i].phase.ino < |s.disk.inodes|)
    && (s.reqs[i].temp.Some? ==> s.reqs[i].temp.value.ino < |s.disk.inodes|)
  }

  lemma StepRefers(s: State, a: Action, t: State, i: nat)
    requires RefersToInodes(s, i) && Step(s, a) == Some(t)
    ensures RefersToInodes(t, i)
  {
    hide Concat, Passed, ReadEnd;
  }

  lemma {:induction false} RunRefers(s: State, acts: seq<Action>, t: State, i: nat)
    requires RefersToInodes(s, i) && Run(s, acts) == Some(t)
    ensures RefersToInodes(t, i)
    decreases |acts|
  {
    if acts != [] {
      StepRefers(s, acts[0], Step(s, acts[0]).value, i);
      RunRefers(Step(s, acts[0]).value, acts[1..], t, i);
    }
  }

  /** Steps that the request has still to take. */
  function StepsLeft(s: State, i: nat): nat
    requires RefersToInodes(s, i)
  {
    var r := s.reqs[i];
    match r.phase
    case Start => |r.run.chunks| + 9 + if s.cache in s.disk.names then |s.disk.inodes[s.disk.names[s.cache]]| else 0
    case Serving(ino) => if |r.sent| < |s.disk.inodes[ino]| then |s.disk.inodes[ino]| - |r.sent| + 1 else 1
    case Missed => |r.run.chunks| + 6
    case Opened => |r.run.chunks| + 5
    case Copying(k) => if k <= |r.run.chunks| then |r.run.chunks| - k + 4 else 0
    case Closing => 3
    case Linking => 2
    case Removing(_) => 1
    case Done(_) | Served(_) => 0
  }

  lemma {:induction false} LongerThanAll(names: set<Name>) returns (n: nat)
    ensures forall m | m in names :: |m| < n
  {
    if names == {} {
      return 0;
    }
    var m :| m in names;
    n := LongerThanAll(names - {m});
    assert forall x | x in names && x != m :: x in names - {m};
    n := if |m| < n then n else |m| + 1;
  }

  /** A name for a tempfile can always be found. */
  lemma FreeName(s: State) returns (name: Name)
    ensures name != s.cache && name !in s.disk.names
  {
    var n := LongerThanAll(s.disk.names.Keys + {s.cache});
    name := seq(n, _ => 'x');
    assert name in s.disk.names ==> name in s.disk.names.Keys + {s.cache};
  }

  /** A step of request i in which nothing fails. */
  predicate OwnStep(a: Action, i: nat) {
    && !a.Unlink? && a.i == i
    && match a
       case CreateTemp(_, _, ok) => ok
       case StartCommands(_, ok) => ok
       case CopyChunk(_, tee, client) => tee.Works? && client.Works?
       case CloseTemp(_, ok) => ok
       case LinkTemp(_, ok) => ok
       case _ => true
  }

  function NextOwnStep(s: State, i: nat, name: Name): Action
    requires i < |s.reqs|
  {
    var r := s.reqs[i];
    match r.phase
    case Start => Look(i)
    case Serving(ino) => Serve(i, 1)
    case Missed => CreateTemp(i, name, true)
    case Opened => StartCommands(i, true)
    case Copying(k) => if k < |r.run.chunks| then CopyChunk(i, Works, Works) else EndOfStream(i)
    case Closing => CloseTemp(i, true)
    case Linking => LinkTemp(i, true)
    case _ => RemoveTemp(i)
  }

  /** Nobody is ever stuck, and each step brings a request nearer to its end. */
  lemma NobodyIsStuck(s: State, i: nat) returns (a: Action, t: State)
    requires RefersToInodes(s, i) && TempFits(s.reqs[i]) && SentFits(s.reqs[i])
    requires !s.reqs[i].phase.Done? && !s.reqs[i].phase.Served?
    ensures OwnStep(a, i) && Step(s, a) == Some(t)
    ensures RefersToInodes(t, i) && TempFits(t.reqs[i]) && SentFits(t.reqs[i])
    ensures StepsLeft(t, i) < StepsLeft(s, i)
  {
    var name := FreeName(s);
    a := NextOwnStep(s, i, name);
    assert Step(s, a).Some? by { hide Concat, Passed, ReadEnd; }
    t := Step(s, a).value;
    StepTurns(s, a, t, i);
    hide TempFits, SentFits, Concat, Passed, ReadEnd;
    StepRefers(s, a, t, i);
  }

  predicate AllOwn(acts: seq<Action>, i: nat) { forall a | a in acts :: OwnStep(a, i) }

  /** From any point of any run a request can come to its end by its own steps, none of which fails. */
  lemma CanFinish(s0: State, acts: seq<Action>, s: State, i: nat) returns (rest: seq<Action>)
    requires Init(s0) && Run(s0, acts) == Some(s) && i < |s.reqs| == |s0.reqs|
    ensures AllOwn(rest, i) && Run(s, rest).Some? && i < |Run(s, rest).value.reqs|
    ensures Run(s, rest).value.reqs[i].phase.Done? || Run(s, rest).value.reqs[i].phase.Served?
  {
    RunBecomes(s0, acts, s, i);
    RunRefers(s0, acts, s, i);
    rest := CanFinishFrom(s, i);
  }

  lemma {:induction false} CanFinishFrom(s: State, i: nat) returns (rest: seq<Action>)
    requires RefersToInodes(s, i) && TempFits(s.reqs[i]) && SentFits(s.reqs[i])
    ensures AllOwn(rest, i) && Run(s, rest).Some? && i < |Run(s, rest).value.reqs|
    ensures Run(s, rest).value.reqs[i].phase.Done? || Run(s, rest).value.reqs[i].phase.Served?
    decreases StepsLeft(s, i)
  {
    rest := [];
    if !s.reqs[i].phase.Done? && !s.reqs[i].phase.Served? {
      hide Step, TempFits, SentFits, OwnStep;
      var a, t := NobodyIsStuck(s, i);
      rest := CanFinishFrom(t, i);
      assert ([a] + rest)[1..] == rest;
      rest := [a] + rest;
    }
  }
}
