/**
 Any number of archive requests for one ArchivePath, interleaved, while somebody
 else may delete any name at any time (internal/git/archive.go:66-137, 174-183).
 */
module ArchiveRequests {
  import opened Wrappers
  import opened Bytes
  import opened ArchiveCache

  datatype Temp = Temp(name: Name, ino: nat)

  datatype Phase =
    | Start
    | Serving(ino: nat)       // a hit: the cached archive is open
    | Served(ino: nat)
    | Missed
    | Opened                  // tempfile there, commands not started
    | Copying(k: nat)         // k chunks copied
    | Closing
    | Linking
    | Removing(ok: bool)
    | Done(ok: bool)

  /** `sent` is what the client received; `temp` stays recorded after the file is gone. */
  datatype Request = Request(cacheEnabled: bool, run: CommandRun, phase: Phase, temp: Option<Temp>, sent: Bytes)

  /** `makers` only remembers who created each inode. */
  datatype State = State(
    cache: Name,
    disk: Disk,
    makers: seq<nat>,
    reqs: seq<Request>)

  datatype Action =
    | Look(i: nat)
    | Serve(i: nat, n: nat)
    | CreateTemp(i: nat, name: Name, ok: bool)
    | StartCommands(i: nat, ok: bool)
    | CopyChunk(i: nat, tee: Fault, client: Fault)
    | EndOfStream(i: nat)
    | CloseTemp(i: nat, ok: bool)
    | LinkTemp(i: nat, ok: bool)
    | RemoveTemp(i: nat)
    | Unlink(name: Name)      // somebody else

  function With(s: State, i: nat, r: Request): State
    requires i < |s.reqs|
  {
    s.(reqs := s.reqs[i := r])
  }

  /** Return from Inject: the deferred removal runs if there is a tempfile. */
  function Leave(r: Request, ok: bool): Request {
    r.(phase := if r.temp.Some? then Removing(ok) else Done(ok))
  }

  function LookStep(s: State, i: nat): Option<State>
    requires i < |s.reqs|
  {
    var r := s.reqs[i];
    if !r.phase.Start? then None
    else if r.cacheEnabled && s.cache in s.disk.names then
      Some(With(s, i, r.(phase := Serving(s.disk.names[s.cache]))))
    else Some(With(s, i, r.(phase := if r.cacheEnabled then Missed else Opened)))
  }

  /** At the end of the open file serving is over. */
  function ServeStep(s: State, i: nat, n: nat): Option<State>
    requires i < |s.reqs|
  {
    var r := s.reqs[i];
    if !r.phase.Serving? || r.phase.ino >= |s.disk.inodes| then None
    else
      var data := s.disk.inodes[r.phase.ino];
      if |data| <= |r.sent| then Some(With(s, i, r.(phase := Served(r.phase.ino))))
      else if n == 0 || |r.sent| + n > |data| then None
      else Some(With(s, i, r.(sent := r.sent + data[|r.sent|..|r.sent| + n])))
  }

  /** The tempfile has a random suffix, and is created exclusively. */
  function CreateStep(s: State, i: nat, name: Name, ok: bool): Option<State>
    requires i < |s.reqs|
  {
    var r := s.reqs[i];
    if !r.phase.Missed? || name == s.cache || (ok && name in s.disk.names) then None
    else if !ok then Some(With(s, i, r.(phase := Done(false))))
    else
      Some(With(s, i, r.(phase := Opened, temp := Some(Temp(name, |s.disk.inodes|)))).(
           disk := Create(s.disk, name), makers := s.makers + [i]))
  }

  function StartStep(s: State, i: nat, ok: bool): Option<State>
    requires i < |s.reqs|
  {
    var r := s.reqs[i];
    if !r.phase.Opened? then None
    else Some(With(s, i, if ok then r.(phase := Copying(0)) else Leave(r, false)))
  }

  /** The part of a chunk that the tee passes on to the client. */
  function Teed(r: Request, data: Bytes, tee: Fault): Bytes {
    if r.temp.Some? then Passed(data, tee) else data
  }

  function Copied(r: Request, k: nat, tee: Fault, client: Fault): Request
    requires k < |r.run.chunks|
  {
    var r' := r.(sent := r.sent + Passed(Teed(r, r.run.chunks[k], tee), client));
    if (r.temp.Some? ==> tee.Works?) && client.Works? then r'.(phase := Copying(k + 1)) else Leave(r', false)
  }

  function CopyStep(s: State, i: nat, tee: Fault, client: Fault): Option<State>
    requires i < |s.reqs|
  {
    var r := s.reqs[i];
    if !r.phase.Copying? || r.phase.k >= |r.run.chunks| then None
    else
      var k := r.phase.k;
      var s' := With(s, i, Copied(r, k, tee, client));
      if r.temp.None? then Some(s')
      else if r.temp.value.ino >= |s.disk.inodes| then None
      else Some(s'.(disk := Append(s.disk, r.temp.value.ino, Passed(r.run.chunks[k], tee))))
  }

  function EndStep(s: State, i: nat): Option<State>
    requires i < |s.reqs|
  {
    var r := s.reqs[i];
    if !r.phase.Copying? || r.phase.k != |r.run.chunks| then None
    else if ReadEnd(r.run).Some? then Some(With(s, i, Leave(r, false)))
    else Some(With(s, i, if r.temp.Some? then r.(phase := Closing) else Leave(r, true)))
  }

  function CloseStep(s: State, i: nat, ok: bool): Option<State>
    requires i < |s.reqs|
  {
    var r := s.reqs[i];
    if !r.phase.Closing? then None
    else Some(With(s, i, if ok then r.(phase := Linking) else Leave(r, true)))
  }

  /** Besides the outcomes of Link itself, link(2) may fail for reasons of its own. */
  function LinkStep(s: State, i: nat, ok: bool): Option<State>
    requires i < |s.reqs|
  {
    var r := s.reqs[i];
    if !r.phase.Linking? || r.temp.None? then None
    else
      var s' := With(s, i, Leave(r, true));
      Some(if ok then s'.(disk := Link(s.disk, r.temp.value.name, s.cache).0) else s')
  }

  function RemoveStep(s: State, i: nat): Option<State>
    requires i < |s.reqs|
  {
    var r := s.reqs[i];
    if !r.phase.Removing? || r.temp.None? then None
    else Some(With(s, i, r.(phase := Done(r.phase.ok))).(disk := Remove(s.disk, r.temp.value.name)))
  }

  function Step(s: State, a: Action): Option<State> {
    if a.Unlink? then Some(s.(disk := Remove(s.disk, a.name)))
    else if a.i >= |s.reqs| then None
    else
      match a
      case Look(i) => LookStep(s, i)
      case Serve(i, n) => ServeStep(s, i, n)
      case CreateTemp(i, name, ok) => CreateStep(s, i, name, ok)
      case StartCommands(i, ok) => StartStep(s, i, ok)
      case CopyChunk(i, tee, client) => CopyStep(s, i, tee, client)
      case EndOfStream(i) => EndStep(s, i)
      case CloseTemp(i, ok) => CloseStep(s, i, ok)
      case LinkTemp(i, ok) => LinkStep(s, i, ok)
      case RemoveTemp(i) => RemoveStep(s, i)
  }

  function Run(s: State, acts: seq<Action>): Option<State>
    decreases |acts|
  {
    if acts == [] then Some(s)
    else
      match Step(s, acts[0])
      case None => None
      case Some(s') => Run(s', acts[1..])
  }

  predicate Init(s: State) {
    && s.disk == Disk([], map[]) && s.makers == []
    && forall i :: 0 <= i < |s.reqs| ==> s.reqs[i].phase.Start? && s.reqs[i].temp.None? && s.reqs[i].sent == []
  }

  /** A request that can still come to link(2): its tempfile is there or was, its commands
      do not fail, and it has not linked or given up. */
  predicate MayLink(r: Request) {
    r.temp.Some? && Clean(r.run) && (r.phase.Opened? || r.phase.Copying? || r.phase.Closing? || r.phase.Linking?)
  }

  /** The request may link whatever has this name. */
  predicate Claims(r: Request, name: Name) {
    MayLink(r) && r.temp.value.name == name
  }

  /** A tempfile is not created under a name that a request may still link. */
  predicate Fresh(s: State, a: Action) {
    a.CreateTemp? && a.ok ==> forall j :: 0 <= j < |s.reqs| ==> !Claims(s.reqs[j], a.name)
  }

  predicate NoClash(s: State, acts: seq<Action>)
    decreases |acts|
  {
    acts != [] && Step(s, acts[0]).Some? ==> Fresh(s, acts[0]) && NoClash(Step(s, acts[0]).value, acts[1..])
  }

  ghost predicate Reachable(s0: State, s: State) {
    exists acts :: Init(s0) && NoClash(s0, acts) && Run(s0, acts) == Some(s)
  }

  // ---------------------------------------------------------------- invariant

  /** No write to the tempfile can follow. */
  predicate PastWriting(p: Phase) {
    p.Closing? || p.Linking? || p.Removing? || p.Done?
  }

  /** The inode holds the full output of a request whose reader came to a clean end. */
  predicate Complete(s: State, ino: nat) {
    && ino < |s.disk.inodes| && ino < |s.makers| && s.makers[ino] < |s.reqs|
    && var r := s.reqs[s.makers[ino]];
       Clean(r.run) && s.disk.inodes[ino] == Output(r.run) && PastWriting(r.phase)
  }

  predicate InodeInv(s: State) {
    && |s.makers| == |s.disk.inodes|
    && forall k :: 0 <= k < |s.makers| ==>
         s.makers[k] < |s.reqs| && s.reqs[s.makers[k]].temp.Some? && s.reqs[s.makers[k]].temp.value.ino == k
  }

  predicate TempInv(s: State, r: Request, i: nat) {
    r.temp.Some? ==>
      && var t := r.temp.value;
      && t.ino < |s.makers| && s.makers[t.ino] == i && r.cacheEnabled
      && t.name != s.cache
      && (t.name in s.disk.names && MayLink(r) ==> s.disk.names[t.name] == t.ino)
  }

  /** Every name but the cached one is the tempfile of a request still under way. */
  predicate NameInv(s: State) {
    && Sound(s.disk)
    && (s.cache in s.disk.names ==> Complete(s, s.disk.names[s.cache]))
    && forall n :: n in s.disk.names && n != s.cache ==>
         && s.disk.names[n] < |s.makers| && s.makers[s.disk.names[n]] < |s.reqs|
         && s.reqs[s.makers[s.disk.names[n]]].temp == Some(Temp(n, s.disk.names[n]))
         && !s.reqs[s.makers[s.disk.names[n]]].phase.Done?
  }

  /** The tempfile of the request holds exactly `data`. */
  predicate Holds(s: State, r: Request, data: Bytes) {
    r.temp.Some? && r.temp.value.ino < |s.disk.inodes| && s.disk.inodes[r.temp.value.ino] == data
  }

  predicate PhaseInv(s: State, r: Request) {
    match r.phase
    case Start => r.temp.None? && r.sent == []
    case Missed => r.temp.None? && r.sent == [] && r.cacheEnabled
    case Serving(ino) => r.temp.None? && Complete(s, ino) && r.sent <= s.disk.inodes[ino]
    case Served(ino) => r.temp.None? && Complete(s, ino) && r.sent == s.disk.inodes[ino]
    case Opened => r.sent == [] && (r.cacheEnabled ==> Holds(s, r, []))
    case Copying(k) =>
      && k <= |r.run.chunks| && r.sent == Concat(r.run.chunks[..k])
      && (r.cacheEnabled ==> Holds(s, r, Concat(r.run.chunks[..k])))
    case Closing => r.sent == Output(r.run) && Clean(r.run) && Holds(s, r, Output(r.run))
    case Linking => r.sent == Output(r.run) && Clean(r.run) && Holds(s, r, Output(r.run))
    case Removing(ok) => r.temp.Some? && (ok ==> r.sent == Output(r.run) && Clean(r.run))
    case Done(ok) => ok ==> r.sent == Output(r.run) && Clean(r.run)
  }

  predicate ReqInv(s: State) {
    forall i :: 0 <= i < |s.reqs| ==> TempInv(s, s.reqs[i], i) && PhaseInv(s, s.reqs[i])
  }

  predicate Inv(s: State) {
    InodeInv(s) && NameInv(s) && ReqInv(s)
  }

  /** Nothing that is complete is ever touched again. */
  predicate Kept(s: State, t: State) {
    && t.cache == s.cache && |t.reqs| == |s.reqs|
    && (forall i :: 0 <= i < |s.reqs| ==>
          t.reqs[i].run == s.reqs[i].run && t.reqs[i].cacheEnabled == s.reqs[i].cacheEnabled)
    && (forall ino :: 0 <= ino < |s.makers| && Complete(s, ino) ==>
          Complete(t, ino) && t.disk.inodes[ino] == s.disk.inodes[ino])
  }

  // ------------------------------------------------------ steps of one request

  /** A step of request i that creates no inode and writes at most to its own tempfile. */
  predicate Local(s: State, i: nat, t: State) {
    && i < |s.reqs| && |t.reqs| == |s.reqs| && t.reqs == s.reqs[i := t.reqs[i]]
    && t.cache == s.cache && t.makers == s.makers
    && |t.disk.inodes| == |s.disk.inodes|
    && var r, r' := s.reqs[i], t.reqs[i];
    && r'.run == r.run && r'.cacheEnabled == r.cacheEnabled && r'.temp == r.temp
    && (PastWriting(r.phase) ==> PastWriting(r'.phase) && t.disk.inodes == s.disk.inodes)
    && forall k :: 0 <= k < |s.disk.inodes| && t.disk.inodes[k] != s.disk.inodes[k] ==>
         r.temp.Some? && r.temp.value.ino == k
  }

  lemma LocalKeepsComplete(s: State, i: nat, t: State, ino: nat)
    requires Inv(s) && Local(s, i, t) && Complete(s, ino)
    ensures Complete(t, ino) && t.disk.inodes[ino] == s.disk.inodes[ino]
  {
    var m := s.makers[ino];
    assert s.reqs[m].temp.Some? && s.reqs[m].temp.value.ino == ino;
    assert TempInv(s, s.reqs[i], i);
  }

  lemma LocalKept(s: State, i: nat, t: State)
    requires Inv(s) && Local(s, i, t)
    ensures Kept(s, t) && InodeInv(t)
  {
    forall ino | 0 <= ino < |s.makers| && Complete(s, ino)
      ensures Complete(t, ino) && t.disk.inodes[ino] == s.disk.inodes[ino]
    {
      LocalKeepsComplete(s, i, t, ino);
    }
    forall k | 0 <= k < |t.makers|
      ensures t.makers[k] < |t.reqs| && t.reqs[t.makers[k]].temp.Some? && t.reqs[t.makers[k]].temp.value.ino == k
    {
      assert s.reqs[s.makers[k]].temp.Some?;
    }
  }

  lemma OtherPhase(s: State, i: nat, t: State, j: nat)
    requires Inv(s) && Local(s, i, t) && j < |s.reqs| && j != i
    ensures PhaseInv(t, t.reqs[j])
  {
    var r := s.reqs[j];
    assert TempInv(s, r, j) && PhaseInv(s, r) && TempInv(s, s.reqs[i], i);
    assert t.reqs[j] == r;
    if r.temp.Some? {
      assert t.disk.inodes[r.temp.value.ino] == s.disk.inodes[r.temp.value.ino];
    }
    if r.phase.Serving? || r.phase.Served? {
      LocalKeepsComplete(s, i, t, r.phase.ino);
    }
  }

  /** Request i keeps its claim to a name. */
  predicate SameClaim(s: State, i: nat, t: State) {
    && Local(s, i, t) && (s.reqs[i].temp.Some? ==> (t.reqs[i].phase.Done? <==> s.reqs[i].phase.Done?))
    && (MayLink(t.reqs[i]) ==> MayLink(s.reqs[i]))
  }

  lemma QuietNames(s: State, i: nat, t: State)
    requires Inv(s) && SameClaim(s, i, t) && t.disk.names == s.disk.names
    ensures NameInv(t)
  {
    if s.cache in s.disk.names {
      LocalKeepsComplete(s, i, t, s.disk.names[s.cache]);
    }
    hide Complete;
  }

  /** Steps that leave the directory alone. */
  lemma QuietStep(s: State, i: nat, t: State)
    requires Inv(s) && SameClaim(s, i, t) && t.disk.names == s.disk.names
    requires PhaseInv(t, t.reqs[i])
    ensures Inv(t) && Kept(s, t)
  {
    LocalKept(s, i, t);
    QuietNames(s, i, t);
    forall j | 0 <= j < |t.reqs|
      ensures TempInv(t, t.reqs[j], j) && PhaseInv(t, t.reqs[j])
    {
      assert TempInv(s, s.reqs[j], j);
      if j != i {
        OtherPhase(s, i, t, j);
      }
      hide Complete, PhaseInv, NameInv, InodeInv;
    }
  }

  lemma LookKeeps(s: State, i: nat, t: State)
    requires Inv(s) && i < |s.reqs| && LookStep(s, i) == Some(t)
    ensures Inv(t) && Kept(s, t)
  {
    assert PhaseInv(s, s.reqs[i]);
    QuietStep(s, i, t);
  }

  lemma ServeKeeps(s: State, i: nat, n: nat, t: State)
    requires Inv(s) && i < |s.reqs| && ServeStep(s, i, n) == Some(t)
    ensures Inv(t) && Kept(s, t)
  {
    assert PhaseInv(s, s.reqs[i]);
    LocalKeepsComplete(s, i, t, s.reqs[i].phase.ino);
    QuietStep(s, i, t);
  }

  lemma StartKeeps(s: State, i: nat, ok: bool, t: State)
    requires Inv(s) && i < |s.reqs| && StartStep(s, i, ok) == Some(t)
    ensures Inv(t) && Kept(s, t)
  {
    assert PhaseInv(s, s.reqs[i]);
    QuietStep(s, i, t);
  }

  lemma CopyKeeps(s: State, i: nat, tee: Fault, client: Fault, t: State)
    requires Inv(s) && i < |s.reqs| && CopyStep(s, i, tee, client) == Some(t)
    ensures Inv(t) && Kept(s, t)
  {
    hide Complete, NameInv, InodeInv;
    var r := s.reqs[i];
    assert PhaseInv(s, r) && TempInv(s, r, i);
    var k := r.phase.k;
    ConcatAppend(r.run.chunks[..k], r.run.chunks[k]);
    assert r.run.chunks[..k + 1] == r.run.chunks[..k] + [r.run.chunks[k]];
    QuietStep(s, i, t);
  }

  lemma EndKeeps(s: State, i: nat, t: State)
    requires Inv(s) && i < |s.reqs| && EndStep(s, i) == Some(t)
    ensures Inv(t) && Kept(s, t)
  {
    var r := s.reqs[i];
    assert PhaseInv(s, r) && TempInv(s, r, i);
    assert r.run.chunks[..r.phase.k] == r.run.chunks;
    EndIsClean(r.run);
    QuietStep(s, i, t);
  }

  lemma CloseKeeps(s: State, i: nat, ok: bool, t: State)
    requires Inv(s) && i < |s.reqs| && CloseStep(s, i, ok) == Some(t)
    ensures Inv(t) && Kept(s, t)
  {
    assert PhaseInv(s, s.reqs[i]);
    QuietStep(s, i, t);
  }

  /** The name that link(2) publishes still denotes the request's own, complete tempfile. */
  lemma LinkKeeps(s: State, i: nat, ok: bool, t: State)
    requires Inv(s) && i < |s.reqs| && LinkStep(s, i, ok) == Some(t)
    ensures Inv(t) && Kept(s, t)
  {
    var r := s.reqs[i];
    assert PhaseInv(s, r) && TempInv(s, r, i);
    var u := t.(disk := s.disk);
    QuietStep(s, i, u);
    assert Complete(u, r.temp.value.ino);
    DirectoryStep(u, t);
  }

  lemma RemoveKeeps(s: State, i: nat, t: State)
    requires Inv(s) && i < |s.reqs| && RemoveStep(s, i) == Some(t)
    ensures Inv(t) && Kept(s, t)
  {
    var r := s.reqs[i];
    assert PhaseInv(s, r) && TempInv(s, r, i);
    var u := s.(disk := Remove(s.disk, r.temp.value.name));
    DirectoryStep(s, u);
    QuietRemoval(u, i, t);
  }

  /** Only the directory changes: names go, or the cached name comes to denote a complete inode. */
  lemma DirectoryStep(s: State, t: State)
    requires Inv(s) && t == s.(disk := s.disk.(names := t.disk.names))
    requires forall n :: n in t.disk.names && n != s.cache ==> n in s.disk.names && t.disk.names[n] == s.disk.names[n]
    requires s.cache in t.disk.names ==> Complete(s, t.disk.names[s.cache])
    ensures Inv(t) && Kept(s, t)
  {
    assert forall ino: nat :: Complete(s, ino) ==> Complete(t, ino);
    forall j | 0 <= j < |t.reqs|
      ensures TempInv(t, t.reqs[j], j) && PhaseInv(t, t.reqs[j])
    {
      assert TempInv(s, s.reqs[j], j) && PhaseInv(s, s.reqs[j]);
    }
  }

  lemma QuietRemoval(s: State, i: nat, t: State)
    requires Inv(s) && i < |s.reqs| && s.reqs[i].phase.Removing?
    requires t == With(s, i, s.reqs[i].(phase := Done(s.reqs[i].phase.ok)))
    requires s.reqs[i].temp.Some? && s.reqs[i].temp.value.name !in s.disk.names
    ensures Inv(t) && Kept(s, t)
  {
    LocalKept(s, i, t);
    assert PhaseInv(s, s.reqs[i]);
    assert NameInv(t) by {
      if s.cache in s.disk.names {
        LocalKeepsComplete(s, i, t, s.disk.names[s.cache]);
      }
    }
    forall j | 0 <= j < |t.reqs|
      ensures TempInv(t, t.reqs[j], j) && PhaseInv(t, t.reqs[j])
    {
      assert TempInv(s, s.reqs[j], j);
      if j != i {
        OtherPhase(s, i, t, j);
      }
    }
  }

  lemma UnlinkKeeps(s: State, name: Name)
    requires Inv(s)
    ensures Inv(s.(disk := Remove(s.disk, name))) && Kept(s, s.(disk := Remove(s.disk, name)))
  {
    DirectoryStep(s, s.(disk := Remove(s.disk, name)));
  }

  lemma CreatedInodeIsNew(s: State, i: nat, name: Name, t: State)
    requires Inv(s) && i < |s.reqs| && CreateStep(s, i, name, true) == Some(t)
    ensures Kept(s, t) && InodeInv(t)
  {
    assert PhaseInv(s, s.reqs[i]);
    forall k | 0 <= k < |s.makers|
      ensures s.makers[k] != i && t.disk.inodes[k] == s.disk.inodes[k] && t.makers[k] == s.makers[k]
    {
      assert s.reqs[s.makers[k]].temp.Some?;
    }
    assert t.reqs[i].temp == Some(Temp(name, |s.disk.inodes|));
  }

  lemma CreatedKeepsNames(s: State, i: nat, name: Name, t: State)
    requires Inv(s) && i < |s.reqs| && CreateStep(s, i, name, true) == Some(t)
    requires Fresh(s, CreateTemp(i, name, true))
    ensures NameInv(t)
  {
    CreatedInodeIsNew(s, i, name, t);
    forall n | n in t.disk.names && n != t.cache
      ensures && t.disk.names[n] < |t.makers| && t.makers[t.disk.names[n]] < |t.reqs|
              && t.reqs[t.makers[t.disk.names[n]]].temp == Some(Temp(n, t.disk.names[n]))
              && !t.reqs[t.makers[t.disk.names[n]]].phase.Done?
    {
      if n != name {
        var k := s.disk.names[n];
        assert t.makers[k] == s.makers[k];
        assert s.reqs[s.makers[k]].temp == Some(Temp(n, k));
        assert PhaseInv(s, s.reqs[i]);
      }
    }
    assert t.cache in t.disk.names ==> Complete(s, t.disk.names[t.cache]);
  }

  lemma CreatedKeepsRequest(s: State, i: nat, name: Name, t: State, j: nat)
    requires Inv(s) && i < |s.reqs| && CreateStep(s, i, name, true) == Some(t)
    requires Fresh(s, CreateTemp(i, name, true)) && j < |t.reqs|
    ensures TempInv(t, t.reqs[j], j) && PhaseInv(t, t.reqs[j])
  {
    CreatedInodeIsNew(s, i, name, t);
    assert TempInv(s, s.reqs[j], j) && PhaseInv(s, s.reqs[j]);
    var r := s.reqs[j];
    if r.phase.Serving? || r.phase.Served? {
      assert Complete(s, r.phase.ino);
    }
  }

  /** A new tempfile: nobody else will link its name, though one that has given up may remove it. */
  lemma CreateKeeps(s: State, i: nat, name: Name, ok: bool, t: State)
    requires Inv(s) && i < |s.reqs| && CreateStep(s, i, name, ok) == Some(t)
    requires Fresh(s, CreateTemp(i, name, ok))
    ensures Inv(t) && Kept(s, t)
  {
    if ok {
      CreatedInodeIsNew(s, i, name, t);
      CreatedKeepsNames(s, i, name, t);
      forall j | 0 <= j < |t.reqs|
        ensures TempInv(t, t.reqs[j], j) && PhaseInv(t, t.reqs[j])
      {
        CreatedKeepsRequest(s, i, name, t, j);
      }
    } else {
      assert PhaseInv(s, s.reqs[i]);
      QuietStep(s, i, t);
    }
  }

  // ------------------------------------------------------------------ all runs

  lemma StepKeepsInv(s: State, a: Action, t: State)
    requires Inv(s) && Fresh(s, a) && Step(s, a) == Some(t)
    ensures Inv(t) && Kept(s, t)
  {
    match a
    case Look(i) => LookKeeps(s, i, t);
    case Serve(i, n) => ServeKeeps(s, i, n, t);
    case CreateTemp(i, name, ok) => CreateKeeps(s, i, name, ok, t);
    case StartCommands(i, ok) => StartKeeps(s, i, ok, t);
    case CopyChunk(i, tee, client) => CopyKeeps(s, i, tee, client, t);
    case EndOfStream(i) => EndKeeps(s, i, t);
    case CloseTemp(i, ok) => CloseKeeps(s, i, ok, t);
    case LinkTemp(i, ok) => LinkKeeps(s, i, ok, t);
    case RemoveTemp(i) => RemoveKeeps(s, i, t);
    case Unlink(name) => UnlinkKeeps(s, name);
  }

  /** Over every run: the invariant stays, and complete files, open or published, keep their content. */
  lemma {:induction false} RunKeepsInv(s: State, acts: seq<Action>, t: State)
    requires Inv(s) && NoClash(s, acts) && Run(s, acts) == Some(t)
    ensures Inv(t) && Kept(s, t)
    decreases |acts|
  {
    if acts != [] {
      var s' := Step(s, acts[0]).value;
      StepKeepsInv(s, acts[0], s');
      RunKeepsInv(s', acts[1..], t);
      KeptIsTransitive(s, s', t);
    }
  }

  lemma KeptIsTransitive(s: State, u: State, t: State)
    requires |s.makers| == |s.disk.inodes| && |u.makers| == |u.disk.inodes| && Kept(s, u) && Kept(u, t)
    ensures Kept(s, t)
  {
    forall ino | 0 <= ino < |s.makers| && Complete(s, ino)
      ensures Complete(t, ino) && t.disk.inodes[ino] == s.disk.inodes[ino]
    {
      assert Complete(u, ino);
    }
  }

  lemma ReachableInv(s0: State, s: State)
    requires Reachable(s0, s)
    ensures Inv(s)
  {
    var acts :| Init(s0) && NoClash(s0, acts) && Run(s0, acts) == Some(s);
    assert Inv(s0);
    RunKeepsInv(s0, acts, s);
  }

  /** Whenever the cached name exists it denotes the full output of a request that ended cleanly. */
  lemma PublishedIsComplete(s0: State, s: State)
    requires Reachable(s0, s) && s.cache in s.disk.names
    ensures s.disk.names[s.cache] < |s.disk.inodes|
    ensures exists m :: 0 <= m < |s.reqs| && Clean(s.reqs[m].run) && PastWriting(s.reqs[m].phase)
                        && s.disk.inodes[s.disk.names[s.cache]] == Output(s.reqs[m].run)
  {
    ReachableInv(s0, s);
    assert Complete(s, s.disk.names[s.cache]);
  }

  /** The tempfile of a request whose git or compress command failed is never the cached archive. */
  lemma FailedRunIsNeverPublished(s0: State, s: State, i: nat)
    requires Reachable(s0, s) && i < |s.reqs| && !Clean(s.reqs[i].run)
    requires s.cache in s.disk.names && s.reqs[i].temp.Some?
    ensures s.disk.names[s.cache] != s.reqs[i].temp.value.ino
  {
    ReachableInv(s0, s);
    assert TempInv(s, s.reqs[i], i) && Complete(s, s.disk.names[s.cache]);
  }

  /**
   Unless its tempfile was deleted, a request that links leaves an archive under the
   name: its own if there was none.
   */
  lemma LinkPublishes(s0: State, s: State, i: nat, t: State)
    requires Reachable(s0, s) && i < |s.reqs| && Step(s, LinkTemp(i, true)) == Some(t)
    requires s.reqs[i].temp.Some? && s.reqs[i].temp.value.name in s.disk.names
    ensures t.cache == s.cache && t.cache in t.disk.names && t.disk.names[t.cache] < |t.disk.inodes|
    ensures s.cache !in s.disk.names ==> t.disk.inodes[t.disk.names[t.cache]] == Output(s.reqs[i].run)
    ensures s.cache in s.disk.names ==> t.disk == s.disk
  {
    ReachableInv(s0, s);
    assert TempInv(s, s.reqs[i], i) && PhaseInv(s, s.reqs[i]);
  }

  lemma StepKeepsPublished(s: State, a: Action, t: State)
    requires Inv(s) && Step(s, a) == Some(t) && s.cache in s.disk.names && a != Unlink(s.cache)
    ensures t.cache == s.cache && t.cache in t.disk.names && t.disk.names[t.cache] == s.disk.names[s.cache]
  {
    if !a.Unlink? {
      assert TempInv(s, s.reqs[a.i], a.i);
    }
  }

  /** The archive is written once: unless it is deleted, name, inode and content stay the same for ever. */
  lemma {:induction false} PublishedNeverChanges(s: State, acts: seq<Action>, t: State)
    requires Inv(s) && s.cache in s.disk.names
    requires NoClash(s, acts) && Run(s, acts) == Some(t) && Unlink(s.cache) !in acts
    ensures s.disk.names[s.cache] < |s.disk.inodes|
    ensures s.cache in t.disk.names && t.disk.names[s.cache] == s.disk.names[s.cache] < |t.disk.inodes|
    ensures t.disk.inodes[t.disk.names[s.cache]] == s.disk.inodes[s.disk.names[s.cache]]
    decreases |acts|
  {
    if acts != [] {
      var s' := Step(s, acts[0]).value;
      assert acts[0] in acts;
      StepKeepsInv(s, acts[0], s');
      StepKeepsPublished(s, acts[0], s');
      assert Complete(s, s.disk.names[s.cache]);
      PublishedNeverChanges(s', acts[1..], t);
    }
  }

  /**
   What clients get: a hit that is served to its end, even of a file deleted
   meanwhile, is the full output of a clean run; so is a miss that went well, of its own run.
   */
  lemma ClientsGetFullArchives(s0: State, s: State, i: nat)
    requires Reachable(s0, s) && i < |s.reqs|
    ensures s.reqs[i].phase.Served? ==>
              exists m :: 0 <= m < |s.reqs| && Clean(s.reqs[m].run) && s.reqs[i].sent == Output(s.reqs[m].run)
    ensures s.reqs[i].phase == Done(true) ==> Clean(s.reqs[i].run) && s.reqs[i].sent == Output(s.reqs[i].run)
  {
    ReachableInv(s0, s);
    assert PhaseInv(s, s.reqs[i]);
  }

  /** When every request has returned, no tempfile is left. */
  lemma NothingLeftBehind(s0: State, s: State)
    requires Reachable(s0, s) && forall i :: 0 <= i < |s.reqs| ==> s.reqs[i].phase.Done? || s.reqs[i].phase.Served?
    ensures s.disk.names.Keys <= {s.cache}
  {
    ReachableInv(s0, s);
    forall i | 0 <= i < |s.reqs| && s.reqs[i].temp.Some?
      ensures s.reqs[i].phase.Done?
    {
      assert PhaseInv(s, s.reqs[i]);
    }
  }

  // ------------------------------------------------------------- unique names

  /** Tempfile names are unique over the run: the assumption stated at archive.go:89-92. */
  predicate UniqueNames(used: set<Name>, acts: seq<Action>)
    decreases |acts|
  {
    acts == [] ||
    if acts[0].CreateTemp? then acts[0].name !in used && UniqueNames(used + {acts[0].name}, acts[1..])
    else UniqueNames(used, acts[1..])
  }

  predicate ClaimedAreUsed(s: State, used: set<Name>) {
    forall j :: 0 <= j < |s.reqs| && s.reqs[j].temp.Some? ==> s.reqs[j].temp.value.name in used
  }

  lemma StepClaims(s: State, a: Action, t: State, used: set<Name>)
    requires Step(s, a) == Some(t) && ClaimedAreUsed(s, used)
    ensures ClaimedAreUsed(t, if a.CreateTemp? then used + {a.name} else used)
  {
  }

  /** Names that are unique over the run never clash. */
  lemma {:induction false} UniqueNamesSuffice(s: State, used: set<Name>, acts: seq<Action>)
    requires ClaimedAreUsed(s, used) && UniqueNames(used, acts)
    ensures NoClash(s, acts)
    decreases |acts|
  {
    if acts != [] && Step(s, acts[0]).Some? {
      var t := Step(s, acts[0]).value;
      StepClaims(s, acts[0], t, used);
      UniqueNamesSuffice(t, if acts[0].CreateTemp? then used + {acts[0].name} else used, acts[1..]);
    }
  }

  /** Nobody else deletes a tempfile. */
  predicate TempsAreLeftAlone(cache: Name, acts: seq<Action>) {
    forall k :: 0 <= k < |acts| && acts[k].Unlink? ==> acts[k].name == cache
  }

  /** Every tempfile of a request under way is there, and its own. */
  predicate ClaimedAreThere(s: State) {
    forall j :: 0 <= j < |s.reqs| && s.reqs[j].temp.Some? && !s.reqs[j].phase.Done? ==>
      && s.reqs[j].temp.value.name in s.disk.names
      && s.disk.names[s.reqs[j].temp.value.name] == s.reqs[j].temp.value.ino
  }

  /** What a step takes out of the directory. */
  function TakenOut(s: State, a: Action): set<Name> {
    if a.Unlink? then {a.name}
    else if a.RemoveTemp? && a.i < |s.reqs| && s.reqs[a.i].temp.Some? then {s.reqs[a.i].temp.value.name}
    else {}
  }

  lemma StepNames(s: State, a: Action, t: State)
    requires Step(s, a) == Some(t)
    ensures |t.reqs| == |s.reqs|
    ensures forall n | n in s.disk.names && n !in TakenOut(s, a) ::
              n in t.disk.names && t.disk.names[n] == s.disk.names[n]
    ensures !a.Unlink? ==> a.i < |s.reqs| && !s.reqs[a.i].phase.Done?
    ensures forall j :: 0 <= j < |t.reqs| && (a.Unlink? || j != a.i) ==> t.reqs[j] == s.reqs[j]
    ensures !a.Unlink? && !a.CreateTemp? ==> t.reqs[a.i].temp == s.reqs[a.i].temp
    ensures a.RemoveTemp? ==> t.reqs[a.i].phase.Done?
    ensures a.CreateTemp? && a.ok ==>
              a.name !in s.disk.names && t.reqs[a.i].temp.Some?
              && a.name in t.disk.names && t.reqs[a.i].temp.value == Temp(a.name, t.disk.names[a.name])
    ensures a.CreateTemp? && !a.ok ==> t.reqs[a.i].phase.Done?
  {
  }

  lemma StepKeepsTemps(s: State, a: Action, t: State)
    requires Inv(s) && ClaimedAreThere(s) && Step(s, a) == Some(t) && (a.Unlink? ==> a.name == s.cache)
    ensures Fresh(s, a) && ClaimedAreThere(t)
  {
    StepNames(s, a, t);
    hide Step, Complete, PhaseInv, NameInv, InodeInv;
    forall j | 0 <= j < |t.reqs| && t.reqs[j].temp.Some? && !t.reqs[j].phase.Done?
      ensures t.reqs[j].temp.value.name in t.disk.names
      ensures t.disk.names[t.reqs[j].temp.value.name] == t.reqs[j].temp.value.ino
    {
      assert TempInv(s, s.reqs[j], j);
      if !a.Unlink? {
        assert TempInv(s, s.reqs[a.i], a.i);
      }
    }
  }

  /**
   Exclusive creation, which is all that TempFile gives, is enough as long as nobody
   else deletes tempfiles: only then can a name be drawn again that is still in use.
   */
  lemma {:induction false} ExclusiveCreationSuffices(s: State, acts: seq<Action>)
    requires Inv(s) && ClaimedAreThere(s) && TempsAreLeftAlone(s.cache, acts)
    ensures NoClash(s, acts)
    decreases |acts|
  {
    if acts != [] {
      if Step(s, acts[0]).Some? {
        var t := Step(s, acts[0]).value;
        StepKeepsTemps(s, acts[0], t);
        StepKeepsInv(s, acts[0], t);
        assert forall k :: 0 <= k < |acts[1..]| ==> acts[1..][k] == acts[k + 1];
        ExclusiveCreationSuffices(t, acts[1..]);
      }
    }
  }

  /** Either condition makes every state that a run comes to reachable without a clash. */
  lemma RunsWithoutClash(s0: State, acts: seq<Action>, s: State)
    requires Init(s0) && Run(s0, acts) == Some(s)
    requires UniqueNames({}, acts) || TempsAreLeftAlone(s0.cache, acts)
    ensures Reachable(s0, s)
  {
    if UniqueNames({}, acts) {
      UniqueNamesSuffice(s0, {}, acts);
    } else {
      assert Inv(s0);
      ExclusiveCreationSuffices(s0, acts);
    }
  }

  // ------------------------------------------------------ when a clash does harm

  /** The cached name denotes a full archive, if anything. */
  predicate Published(s: State) { s.cache in s.disk.names ==> Complete(s, s.disk.names[s.cache]) }

  /** Something else can come under the cached name without another clash. */
  ghost predicate CanDoHarm(s: State) {
    exists acts, t :: NoClash(s, acts) && Run(s, acts) == Some(t) && !Published(t)
  }

  /** Steps that the request has still to take up to link(2). */
  function ToLink(r: Request): nat {
    match r.phase
    case Opened => |r.run.chunks| + 4
    case Copying(k) => if k <= |r.run.chunks| then |r.run.chunks| - k + 3 else 3
    case Closing => 2
    case Linking => 1
    case _ => 0
  }

  /** Where request i stands, and that it is not the only one to know its name. */
  predicate OnTheWay(s: State, i: nat, name: Name) {
    && i < |s.reqs| && Claims(s.reqs[i], name) && name in s.disk.names && name != s.cache
    && s.reqs[i].temp.value.ino < |s.disk.inodes|
    && (s.reqs[i].phase.Copying? ==> s.reqs[i].phase.k <= |s.reqs[i].run.chunks|)
  }

  /** The next step of request i on its way to link(2). */
  function NextStep(r: Request, i: nat): Action {
    match r.phase
    case Opened => StartCommands(i, true)
    case Copying(k) => if k < |r.run.chunks| then CopyChunk(i, Works, Works) else EndOfStream(i)
    case _ => CloseTemp(i, true)
  }

  lemma OneStepOn(s: State, i: nat, name: Name) returns (a: Action, t: State)
    requires OnTheWay(s, i, name) && !s.reqs[i].phase.Linking?
    ensures Step(s, a) == Some(t) && !a.CreateTemp? && OnTheWay(t, i, name)
    ensures t.cache == s.cache && t.makers == s.makers && t.disk.names == s.disk.names
    ensures |t.reqs| == |s.reqs| && forall j :: 0 <= j < |s.reqs| && j != i ==> t.reqs[j] == s.reqs[j]
    ensures ToLink(t.reqs[i]) < ToLink(s.reqs[i])
  {
    EndIsClean(s.reqs[i].run);
    a := NextStep(s.reqs[i], i);
    t := Step(s, a).value;
  }

  /** A request that may link a name can go on and publish whatever has the name by now. */
  lemma {:induction false} CanPublish(s: State, i: nat, name: Name) returns (acts: seq<Action>, t: State)
    requires OnTheWay(s, i, name)
    ensures NoClash(s, acts) && Run(s, acts) == Some(t)
    ensures t.cache in t.disk.names && t.disk.names[t.cache] == s.disk.names[name] && t.makers == s.makers
    ensures |t.reqs| == |s.reqs| && forall j :: 0 <= j < |s.reqs| && j != i ==> t.reqs[j] == s.reqs[j]
    decreases ToLink(s.reqs[i]), s.cache in s.disk.names
  {
    var a, u;
    if !s.reqs[i].phase.Linking? {
      a, u := OneStepOn(s, i, name);
      acts, t := CanPublish(u, i, name);
    } else if s.cache in s.disk.names {
      a := Unlink(s.cache);
      u := Step(s, a).value;
      acts, t := CanPublish(u, i, name);
    } else {
      a := LinkTemp(i, true);
      u := Step(s, a).value;
      acts, t := [], u;
    }
    assert ([a] + acts)[1..] == acts;
    acts := [a] + acts;
  }

  /**
   The exact condition for a creation to do harm: while nothing else clashes, something
   other than a full archive can come under the cached name after it if and only if the
   new tempfile takes the name of a request that may still link it: one that is about to
   start its commands, copies, closes or links, and whose commands do not fail. A request
   that only removes its tempfile, or will, does no harm.
   */
  lemma ClashIsHarmfulIff(s: State, a: Action, t: State)
    requires Inv(s) && a.CreateTemp? && a.ok && Step(s, a) == Some(t)
    ensures CanDoHarm(t) <==> exists i :: 0 <= i < |s.reqs| && Claims(s.reqs[i], a.name)
  {
    if i :| 0 <= i < |s.reqs| && Claims(s.reqs[i], a.name) {
      assert TempInv(s, s.reqs[i], i) && PhaseInv(s, s.reqs[i]) && PhaseInv(s, s.reqs[a.i]);
      assert OnTheWay(t, i, a.name);
      var acts, u := CanPublish(t, i, a.name);
      assert u.makers[u.disk.names[u.cache]] == a.i && u.reqs[a.i].phase.Opened?;
      assert !Published(u);
    } else {
      assert Fresh(s, a);
      StepKeepsInv(s, a, t);
      forall acts, u | NoClash(t, acts) && Run(t, acts) == Some(u)
        ensures Published(u)
      {
        RunKeepsInv(t, acts, u);
      }
    }
  }

  // ---------------------------------------------------- why names must not clash

  const CACHE: Name := "a.tar"
  const TEMP: Name := "a.tar1"

  function TwoRequests(): State {
    State(CACHE, Disk([], map[]), [], [Zero(Start, None, []), One(Start, None, [])])
  }

  /** Reachable when nothing is assumed about tempfile names. */
  ghost predicate Reaches(s0: State, s: State) {
    exists acts :: Init(s0) && Run(s0, acts) == Some(s)
  }

  lemma {:induction false} RunAppend(s: State, acts: seq<Action>, a: Action)
    requires Run(s, acts).Some?
    ensures Run(s, acts + [a]) == Step(Run(s, acts).value, a)
    decreases |acts|
  {
    if acts == [] {
      assert Run(s, [a]) == Step(s, a) by { assert [a][1..] == []; }
    } else {
      assert (acts + [a])[1..] == acts[1..] + [a];
      RunAppend(Step(s, acts[0]).value, acts[1..], a);
    }
  }

  predicate Same(s: State, t: State) {
    && s.cache == t.cache && s.disk.inodes == t.disk.inodes && s.disk.names == t.disk.names
    && s.makers == t.makers && s.reqs == t.reqs
  }

  lemma Then(s: State, a: Action, t: State)
    requires Reaches(TwoRequests(), s) && Step(s, a).Some? && Same(Step(s, a).value, t)
    ensures Reaches(TwoRequests(), t)
  {
    var acts :| Init(TwoRequests()) && Run(TwoRequests(), acts) == Some(s);
    RunAppend(TwoRequests(), acts, a);
  }

  function Zero(phase: Phase, temp: Option<Temp>, sent: Bytes): Request {
    Request(true, CommandRun([[1]], None, [None]), phase, temp, sent)
  }

  function One(phase: Phase, temp: Option<Temp>, sent: Bytes): Request {
    Request(true, CommandRun([[2], [3]], None, [None]), phase, temp, sent)
  }

  function At(inodes: seq<Bytes>, names: map<Name, nat>, makers: seq<nat>, zero: Request, one: Request): State {
    State(CACHE, Disk(inodes, names), makers, [zero, one])
  }

  function Stalled(): State {
    At([[1]], map[TEMP := 0], [0], Zero(Linking, Some(Temp(TEMP, 0)), [1]), One(Start, None, []))
  }

  function HalfCopied(): State {
    At([[1], [2]], map[TEMP := 1], [0, 1],
       Zero(Linking, Some(Temp(TEMP, 0)), [1]), One(Copying(1), Some(Temp(TEMP, 1)), [2]))
  }

  /** The first request creates its tempfile. */
  lemma ZeroOpens()
    ensures Reaches(TwoRequests(), At([[]], map[TEMP := 0], [0], Zero(Opened, Some(Temp(TEMP, 0)), []),
                                      One(Start, None, [])))
  {
    var s := TwoRequests();
    assert Run(s, []) == Some(s);
    var missed := s.(reqs := [Zero(Missed, None, []), One(Start, None, [])]);
    Then(s, Look(0), missed);
    Then(missed, CreateTemp(0, TEMP, true),
         At([[]], map[TEMP := 0], [0], Zero(Opened, Some(Temp(TEMP, 0)), []), One(Start, None, [])));
  }

  lemma ZeroCopies()
    ensures Reaches(TwoRequests(), At([[1]], map[TEMP := 0], [0], Zero(Copying(1), Some(Temp(TEMP, 0)), [1]),
                                      One(Start, None, [])))
  {
    hide Reaches;
    ZeroOpens();
    var temp, one := Some(Temp(TEMP, 0)), One(Start, None, []);
    var before := At([[]], map[TEMP := 0], [0], Zero(Opened, temp, []), one);
    var copying := At([[]], map[TEMP := 0], [0], Zero(Copying(0), temp, []), one);
    var copied := At([[1]], map[TEMP := 0], [0], Zero(Copying(1), temp, [1]), one);
    Then(before, StartCommands(0, true), copying);
    assert copying.disk.inodes[0] + [1] == [1];
    assert Append(copying.disk, 0, [1]).inodes == [[1]];
    assert Copied(copying.reqs[0], 0, Works, Works) == copied.reqs[0];
    Then(copying, CopyChunk(0, Works, Works), copied);
  }

  /** It stalls just before link(2). */
  lemma ZeroStalls()
    ensures Reaches(TwoRequests(), Stalled())
  {
    hide Reaches;
    ZeroCopies();
    var temp, one := Some(Temp(TEMP, 0)), One(Start, None, []);
    var copied := At([[1]], map[TEMP := 0], [0], Zero(Copying(1), temp, [1]), one);
    var closing := At([[1]], map[TEMP := 0], [0], Zero(Closing, temp, [1]), one);
    Then(copied, EndOfStream(0), closing);
    Then(closing, CloseTemp(0, true), Stalled());
  }

  /** Its tempfile is deleted, and the second request draws the same name. */
  lemma OneOpens()
    ensures Reaches(TwoRequests(), At([[1], []], map[TEMP := 1], [0, 1], Stalled().reqs[0],
                                      One(Opened, Some(Temp(TEMP, 1)), [])))
  {
    hide Reaches;
    ZeroStalls();
    var unlinked := At([[1]], map[], [0], Stalled().reqs[0], One(Start, None, []));
    var missed := At([[1]], map[], [0], Stalled().reqs[0], One(Missed, None, []));
    Then(Stalled(), Unlink(TEMP), unlinked);
    Then(unlinked, Look(1), missed);
    Then(missed, CreateTemp(1, TEMP, true),
         At([[1], []], map[TEMP := 1], [0, 1], Stalled().reqs[0], One(Opened, Some(Temp(TEMP, 1)), [])));
  }

  lemma OneCopies()
    ensures Reaches(TwoRequests(), HalfCopied())
  {
    hide Reaches;
    OneOpens();
    var temp, zero := Some(Temp(TEMP, 1)), Stalled().reqs[0];
    var before := At([[1], []], map[TEMP := 1], [0, 1], zero, One(Opened, temp, []));
    var copying := At([[1], []], map[TEMP := 1], [0, 1], zero, One(Copying(0), temp, []));
    Then(before, StartCommands(1, true), copying);
    assert copying.disk.inodes[1] + [2] == [2];
    assert Append(copying.disk, 1, [2]).inodes == [[1], [2]];
    assert Copied(copying.reqs[1], 0, Works, Works) == HalfCopied().reqs[1];
    Then(copying, CopyChunk(1, Works, Works), HalfCopied());
  }

  /**
   Exclusive creation alone is not enough: when somebody deletes a tempfile and its
   name is drawn again, the first request publishes the other's unfinished file.
   */
  lemma ReusedNamePublishesHalfAnArchive() returns (s: State)
    ensures Reaches(TwoRequests(), s) && |s.reqs| == 2
    ensures CACHE in s.disk.names && s.disk.names[CACHE] < |s.disk.inodes|
    ensures forall m :: 0 <= m < 2 ==> s.disk.inodes[s.disk.names[CACHE]] != Output(s.reqs[m].run)
  {
    OneCopies();
    s := Step(HalfCopied(), LinkTemp(0, true)).value;
    Then(HalfCopied(), LinkTemp(0, true), s);
    assert s.disk.inodes[s.disk.names[CACHE]] == [2];
    assert Concat([[1]]) == [1] by { ConcatAppend([], [1]); }
    assert Concat([[2], [3]]) == [2, 3] by { ConcatAppend([], [2]); ConcatAppend([[2]], [3]); }
  }
}
