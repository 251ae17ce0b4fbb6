/**
 The admission queue that bounds how many CI requests run and wait at once
 (internal/queueing/queue.go, internal/queueing/requests.go).

 Two buffered channels hold the state. A request pushes a time stamp on
 waitingCh to claim a slot and a token on busyCh to run; Release gives the slot
 back before the token. Every channel operation of every request is one step of
 the system below, so a run is an arbitrary interleaving of any number of
 requests.
 */
module AdmissionQueue {
  import opened Wrappers

  type Time = nat

  /** `limit` requests may run, `queueLimit` more may wait. */
  datatype Config = Config(limit: nat, queueLimit: nat) {
    function Slots(): nat { limit + queueLimit }
  }

  datatype Outcome = Served | TooManyRequests | QueueingTimedout

  /** Where one request is between its arrival and its response. */
  datatype Pc =
    | Idle                    // has not called Acquire
    | Claimed                 // stamp pushed, fast path not tried yet
    | Blocked                 // parked in the second select
    | TimedOut                // the timer won, the deferred receive is still due
    | Running                 // token pushed, the handler runs
    | Releasing               // Release has taken a stamp but not yet a token
    | Done(outcome: Outcome)

  // ---------------------------------------------------------------------------
  // The two channels
  // ---------------------------------------------------------------------------

  /** The buffered contents: stamps oldest first, and a number of tokens. */
  datatype Channels = Channels(waiting: seq<Time>, busy: nat)

  predicate CanClaim(cfg: Config, ch: Channels) { |ch.waiting| < cfg.limit + cfg.queueLimit }

  function Claim(ch: Channels, now: Time): Channels {
    ch.(waiting := ch.waiting + [now])
  }

  predicate CanEnter(cfg: Config, ch: Channels) { ch.busy < cfg.limit }

  function Enter(ch: Channels): Channels { ch.(busy := ch.busy + 1) }

  function DropStamp(ch: Channels): Channels
    requires ch.waiting != []
  {
    ch.(waiting := ch.waiting[1..])
  }

  function DropToken(ch: Channels): Channels
    requires ch.busy > 0
  {
    ch.(busy := ch.busy - 1)
  }

  /** The shared object. Each method but the last two is one channel operation. */
  class Queue {
    const cfg: Config
    var waitingCh: seq<Time>
    var busyCh: nat

    ghost function Contents(): Channels
      reads this
    {
      Channels(waitingCh, busyCh)
    }

    constructor (limit: nat, queueLimit: nat)
      ensures cfg == Config(limit, queueLimit) && Contents() == Channels([], 0)
    {
      cfg := Config(limit, queueLimit);
      waitingCh, busyCh := [], 0;
    }

    method ClaimSlot(now: Time) returns (ok: bool)
      modifies this
      ensures ok == CanClaim(cfg, old(Contents()))
      ensures Contents() == if ok then Claim(old(Contents()), now) else old(Contents())
    {
      ok := |waitingCh| < cfg.limit + cfg.queueLimit;
      if ok {
        waitingCh := waitingCh + [now];
      }
    }

    method TryEnter() returns (ok: bool)
      modifies this
      ensures ok == CanEnter(cfg, old(Contents()))
      ensures Contents() == if ok then Enter(old(Contents())) else old(Contents())
    {
      ok := busyCh < cfg.limit;
      if ok {
        busyCh := busyCh + 1;
      }
    }

    method ReceiveStamp() returns (waitStarted: Time)
      requires waitingCh != []
      modifies this
      ensures waitStarted == old(waitingCh)[0]
      ensures Contents() == DropStamp(old(Contents()))
    {
      waitStarted := waitingCh[0];
      waitingCh := waitingCh[1..];
    }

    method ReceiveToken()
      requires busyCh > 0
      modifies this
      ensures Contents() == DropToken(old(Contents()))
    {
      busyCh := busyCh - 1;
    }

    /**
     Acquire when no other request takes a step meanwhile: the second select can
     then only be left by the timer, and the stamp that the deferred receive
     takes back is the oldest one, not the caller's own.
     */
    method Acquire(now: Time) returns (err: Option<Outcome>)
      modifies this
      ensures err == Some(TooManyRequests) <==> |old(waitingCh)| >= cfg.Slots()
      ensures err == None <==> |old(waitingCh)| < cfg.Slots() && old(busyCh) < cfg.limit
      ensures err in {None, Some(TooManyRequests), Some(QueueingTimedout)}
      ensures err == None ==> Contents() == Enter(Claim(old(Contents()), now))
      ensures err == Some(TooManyRequests) ==> Contents() == old(Contents())
      ensures err == Some(QueueingTimedout) ==>
                Contents() == DropStamp(Claim(old(Contents()), now))
    {
      var ok := ClaimSlot(now);
      if !ok {
        return Some(TooManyRequests);
      }
      ok := TryEnter();
      if ok {
        return None;
      }
      var _ := ReceiveStamp();
      return Some(QueueingTimedout);
    }

    /** Release gives the slot back first, the token second. */
    method Release()
      requires waitingCh != [] && busyCh > 0
      modifies this
      ensures Contents() == DropToken(DropStamp(old(Contents())))
    {
      var _ := ReceiveStamp();
      ReceiveToken();
    }
  }

  // ---------------------------------------------------------------------------
  // The system of all requests
  // ---------------------------------------------------------------------------

  /**
   `claims` and `observed` record the stamps ever sent on and received from
   waitingCh, `owners` and `takers` who sent and received them; request r is at `pcs[r]`.
   */
  datatype State = State(
    ch: Channels,
    pcs: seq<Pc>,
    claims: seq<Time>,
    observed: seq<Time>,
    owners: seq<nat>,
    takers: seq<nat>)

  datatype Action =
    | Arrive(r: nat, now: Time)   // first select of Acquire
    | TryFast(r: nat)             // second select, with a default branch
    | Unblock(r: nat)             // third select, token branch
    | Expire(r: nat)              // third select, timer branch
    | Abandon(r: nat)             // deferred receive after the time-out
    | ReleaseStamp(r: nat)        // handler has returned; first receive of Release
    | ReleaseToken(r: nat)        // second receive of Release

  function Move(s: State, r: nat, ch: Channels, pc: Pc): State
    requires r < |s.pcs|
  {
    s.(ch := ch, pcs := s.pcs[r := pc])
  }

  function TakeStamp(s: State, r: nat, pc: Pc): State
    requires r < |s.pcs| && s.ch.waiting != []
  {
    Move(s, r, DropStamp(s.ch), pc).(observed := s.observed + [s.ch.waiting[0]], takers := s.takers + [r])
  }

  /** One step of one request; None when the step is not possible (or blocks). */
  function Step(cfg: Config, s: State, a: Action): Option<State> {
    if a.r >= |s.pcs| then None
    else
      var pc := s.pcs[a.r];
      match a
      case Arrive(r, now) =>
        if !pc.Idle? then None
        else if CanClaim(cfg, s.ch) then
          Some(Move(s, r, Claim(s.ch, now), Claimed).(claims := s.claims + [now], owners := s.owners + [r]))
        else Some(Move(s, r, s.ch, Done(TooManyRequests)))
      case TryFast(r) =>
        if !pc.Claimed? then None
        else if CanEnter(cfg, s.ch) then Some(Move(s, r, Enter(s.ch), Running))
        else Some(Move(s, r, s.ch, Blocked))
      case Unblock(r) => if pc.Blocked? && CanEnter(cfg, s.ch) then Some(Move(s, r, Enter(s.ch), Running)) else None
      case Expire(r) => if pc.Blocked? then Some(Move(s, r, s.ch, TimedOut)) else None
      case Abandon(r) =>
        if pc.TimedOut? && s.ch.waiting != [] then Some(TakeStamp(s, r, Done(QueueingTimedout))) else None
      case ReleaseStamp(r) =>
        if pc.Running? && s.ch.waiting != [] then Some(TakeStamp(s, r, Releasing)) else None
      case ReleaseToken(r) =>
        if pc.Releasing? && s.ch.busy > 0 then Some(Move(s, r, DropToken(s.ch), Done(Served))) else None
  }

  function Run(cfg: Config, s: State, acts: seq<Action>): Option<State>
    decreases |acts|
  {
    if acts == [] then Some(s)
    else match Step(cfg, s, acts[0])
      case None => None
      case Some(s') => Run(cfg, s', acts[1..])
  }

  /** Any number of requests, none of which has arrived. */
  predicate Initial(s: State) {
    && s.ch == Channels([], 0) && s.claims == s.observed == [] && s.owners == s.takers == []
    && forall r :: 0 <= r < |s.pcs| ==> s.pcs[r].Idle?
  }

  ghost predicate Reachable(cfg: Config, s: State) {
    exists s0, acts :: Initial(s0) && Run(cfg, s0, acts) == Some(s)
  }

  // ---------------------------------------------------------------------------
  // Counting requests
  // ---------------------------------------------------------------------------

  function Total(weight: Pc -> nat, pcs: seq<Pc>): nat {
    if pcs == [] then 0 else weight(pcs[0]) + Total(weight, pcs[1..])
  }

  function HoldsSlot(pc: Pc): nat {
    if pc in {Claimed, Blocked, TimedOut, Running} then 1 else 0
  }

  function HoldsToken(pc: Pc): nat { if pc in {Running, Releasing} then 1 else 0 }

  function IsRunning(pc: Pc): nat { if pc == Running then 1 else 0 }

  /** Holds a slot but does not run: waiting in the sense of the queue limit. */
  function IsWaiting(pc: Pc): nat { if pc in {Claimed, Blocked, TimedOut} then 1 else 0 }

  /** Number of own steps a request still has to take, at most. */
  function StepsLeft(pc: Pc): nat {
    match pc
    case Idle => 5
    case Claimed => 4
    case Blocked => 3
    case Running => 2
    case TimedOut | Releasing => 1
    case Done(_) => 0
  }

  lemma {:induction false} TotalUpdate(weight: Pc -> nat, pcs: seq<Pc>, r: nat, pc: Pc)
    requires r < |pcs|
    ensures Total(weight, pcs[r := pc]) == Total(weight, pcs) - weight(pcs[r]) + weight(pc)
    ensures weight(pcs[r]) <= Total(weight, pcs)
  {
    if r == 0 {
      assert pcs[r := pc][1..] == pcs[1..];
    } else {
      assert pcs[r := pc][1..] == pcs[1..][r - 1 := pc];
      TotalUpdate(weight, pcs[1..], r - 1, pc);
    }
  }

  lemma {:induction false} TotalZero(weight: Pc -> nat, pcs: seq<Pc>)
    requires forall pc | pc in pcs :: weight(pc) == 0
    ensures Total(weight, pcs) == 0
  {
    if pcs != [] {
      assert forall pc | pc in pcs[1..] :: pc in pcs;
      TotalZero(weight, pcs[1..]);
    }
  }

  lemma {:induction false} TotalPositive(weight: Pc -> nat, pcs: seq<Pc>) returns (r: nat)
    requires Total(weight, pcs) > 0
    ensures r < |pcs| && weight(pcs[r]) > 0
  {
    if weight(pcs[0]) > 0 {
      r := 0;
    } else {
      r := TotalPositive(weight, pcs[1..]);
      r := r + 1;
    }
  }

  lemma {:induction false} SlotsSplit(pcs: seq<Pc>)
    ensures Total(HoldsSlot, pcs) == Total(IsWaiting, pcs) + Total(IsRunning, pcs)
    ensures Total(IsRunning, pcs) <= Total(HoldsToken, pcs)
  {
    if pcs != [] {
      SlotsSplit(pcs[1..]);
    }
  }

  // ---------------------------------------------------------------------------
  // The counting invariant and what follows from it
  // ---------------------------------------------------------------------------

  ghost predicate Inv(cfg: Config, s: State) {
    && |s.ch.waiting| == Total(HoldsSlot, s.pcs) <= cfg.Slots()
    && s.ch.busy == Total(HoldsToken, s.pcs) <= cfg.limit
    && s.claims == s.observed + s.ch.waiting
  }

  lemma StepKeepsInv(cfg: Config, s: State, a: Action)
    requires Inv(cfg, s) && Step(cfg, s, a).Some?
    ensures Inv(cfg, Step(cfg, s, a).value)
  {
    var s' := Step(cfg, s, a).value;
    TotalUpdate(HoldsSlot, s.pcs, a.r, s'.pcs[a.r]);
    TotalUpdate(HoldsToken, s.pcs, a.r, s'.pcs[a.r]);
  }

  lemma {:induction false} RunKeepsInv(cfg: Config, s: State, acts: seq<Action>)
    requires Inv(cfg, s) && Run(cfg, s, acts).Some?
    ensures Inv(cfg, Run(cfg, s, acts).value)
    decreases |acts|
  {
    if acts != [] {
      StepKeepsInv(cfg, s, acts[0]);
      RunKeepsInv(cfg, Step(cfg, s, acts[0]).value, acts[1..]);
    }
  }

  /** In every reachable state the channel lengths count the requests. */
  lemma CountingInvariant(cfg: Config, s: State)
    requires Reachable(cfg, s)
    ensures |s.ch.waiting| == Total(HoldsSlot, s.pcs) <= cfg.Slots()
    ensures s.ch.busy == Total(HoldsToken, s.pcs) <= cfg.limit
    ensures s.claims == s.observed + s.ch.waiting
  {
    var s0, acts :| Initial(s0) && Run(cfg, s0, acts) == Some(s);
    TotalZero(HoldsSlot, s0.pcs);
    TotalZero(HoldsToken, s0.pcs);
    RunKeepsInv(cfg, s0, acts);
  }

  /**
   At most `limit` handlers run, and the requests that wait never exceed
   queueLimit + (limit - running), even while another request is between the two
   receives of Release.
   */
  lemma Bounds(cfg: Config, s: State)
    requires Reachable(cfg, s)
    ensures Total(IsRunning, s.pcs) <= cfg.limit
    ensures Total(IsWaiting, s.pcs) <= cfg.queueLimit + (cfg.limit - Total(IsRunning, s.pcs))
  {
    CountingInvariant(cfg, s);
    SlotsSplit(s.pcs);
  }

  /** No receive of the error path or of Release ever blocks. */
  lemma ReceivesFindAnElement(cfg: Config, s: State, r: nat)
    requires Reachable(cfg, s) && r < |s.pcs|
    ensures s.pcs[r] == TimedOut ==> Step(cfg, s, Abandon(r)).Some?
    ensures s.pcs[r] == Running ==> Step(cfg, s, ReleaseStamp(r)).Some?
    ensures s.pcs[r] == Releasing ==> Step(cfg, s, ReleaseToken(r)).Some?
  {
    CountingInvariant(cfg, s);
    TotalUpdate(HoldsSlot, s.pcs, r, s.pcs[r]);
    TotalUpdate(HoldsToken, s.pcs, r, s.pcs[r]);
  }

  /**
   A request is refused exactly when limit + queueLimit others hold a slot; the
   requests half-way through Release are not among them, so at that moment the
   waiting room is filled to its bound.
   */
  lemma RefusedExactlyWhenFull(cfg: Config, s: State, r: nat, now: Time)
    requires Reachable(cfg, s) && r < |s.pcs| && s.pcs[r] == Idle
    ensures var s' := Step(cfg, s, Arrive(r, now));
            && s'.Some?
            && (s'.value.pcs[r] == Done(TooManyRequests)
                <==> Total(HoldsSlot, s.pcs) == cfg.Slots())
            && (s'.value.pcs[r] == Done(TooManyRequests)
                <==> Total(IsWaiting, s.pcs)
                     == cfg.queueLimit + (cfg.limit - Total(IsRunning, s.pcs)))
            && (s'.value.pcs[r] != Done(TooManyRequests) ==> s'.value.pcs[r] == Claimed)
  {
    CountingInvariant(cfg, s);
    SlotsSplit(s.pcs);
  }

  /** The k-th stamp taken back is the k-th stamp pushed: waiting times are those
      of the slots, first in first out. */
  lemma StampsAreFifo(cfg: Config, s: State)
    requires Reachable(cfg, s)
    ensures forall k :: 0 <= k < |s.observed| ==> k < |s.claims| && s.observed[k] == s.claims[k]
  {
    CountingInvariant(cfg, s);
  }

  // ---------------------------------------------------------------------------
  // Whose stamp it is
  // ---------------------------------------------------------------------------

  /** Each request sends and takes back at most one stamp, and holds a slot in between. */
  predicate StampInv(s: State) {
    && |s.owners| == |s.claims| && |s.takers| == |s.observed|
    && (forall j, k :: 0 <= j < k < |s.owners| ==> s.owners[j] != s.owners[k])
    && (forall k :: 0 <= k < |s.owners| ==> s.owners[k] < |s.pcs| && !s.pcs[s.owners[k]].Idle?)
    && (forall r :: 0 <= r < |s.pcs| && HoldsSlot(s.pcs[r]) == 1 ==> r in s.owners)
  }

  lemma StepKeepsStamps(cfg: Config, s: State, a: Action)
    requires StampInv(s) && Step(cfg, s, a).Some?
    ensures StampInv(Step(cfg, s, a).value)
  {
    hide DropStamp, DropToken, Claim, Enter, CanClaim, CanEnter;
  }

  lemma {:induction false} RunKeepsStamps(cfg: Config, s: State, acts: seq<Action>)
    requires StampInv(s) && Run(cfg, s, acts).Some?
    ensures StampInv(Run(cfg, s, acts).value)
    decreases |acts|
  {
    if acts != [] {
      StepKeepsStamps(cfg, s, acts[0]);
      RunKeepsStamps(cfg, Step(cfg, s, acts[0]).value, acts[1..]);
    }
  }

  /** Request r has sent the k-th stamp, and no other. */
  predicate SentStamp(s: State, r: nat, k: nat) {
    k < |s.owners| && s.owners[k] == r && forall j :: 0 <= j < |s.owners| && s.owners[j] == r ==> j == k
  }

  /**
   A request that takes a stamp back, after a time-out or after its handler, has sent
   exactly one: the k-th. It observes that one if and only if as many stamps have been
   taken back before it as had been sent before its own, that is, if its slot is the
   oldest in the channel. Otherwise it observes the stamp of another request.
   */
  lemma OwnStampIff(cfg: Config, s: State, a: Action)
    requires Reachable(cfg, s) && (a.Abandon? || a.ReleaseStamp?) && Step(cfg, s, a).Some?
    ensures exists k :: SentStamp(s, a.r, k)
    ensures |s.takers| < |s.owners| == |s.claims|
    ensures Step(cfg, s, a).value.observed == s.observed + [s.claims[|s.takers|]]
    ensures forall k :: SentStamp(s, a.r, k) ==> (s.owners[|s.takers|] == a.r <==> |s.takers| == k)
  {
    CountingInvariant(cfg, s);
    var s0, acts :| Initial(s0) && Run(cfg, s0, acts) == Some(s);
    RunKeepsStamps(cfg, s0, acts);
    var k :| 0 <= k < |s.owners| && s.owners[k] == a.r;
    assert SentStamp(s, a.r, k);
  }

  /** Two requests run, and the later one is done first. */
  function Overtaking(): seq<Action> {
    [Arrive(0, 1), TryFast(0), Arrive(1, 2), TryFast(1), ReleaseStamp(1)]
  }

  lemma Onwards(cfg: Config, s: State, a: Action, rest: seq<Action>, t: State)
    requires Step(cfg, s, a).Some? && Step(cfg, s, a).value.ch == t.ch && Step(cfg, s, a).value.pcs == t.pcs
    requires Step(cfg, s, a).value.claims == t.claims && Step(cfg, s, a).value.observed == t.observed
    requires Step(cfg, s, a).value.owners == t.owners && Step(cfg, s, a).value.takers == t.takers
    ensures Run(cfg, s, [a] + rest) == Run(cfg, t, rest)
  {
    assert ([a] + rest)[1..] == rest;
  }

  /** It observes the stamp of the other. */
  lemma OvertakerTakesTheOldestStamp()
    ensures var s0 := State(Channels([], 0), [Idle, Idle], [], [], [], []);
            var s := Run(Config(2, 0), s0, Overtaking());
            Initial(s0) && s.Some? && s.value.takers == [1] && s.value.owners == [0, 1] && s.value.observed == [1]
  {
    var cfg := Config(2, 0);
    var s0 := State(Channels([], 0), [Idle, Idle], [], [], [], []);
    var s1 := State(Channels([1], 0), [Claimed, Idle], [1], [], [0], []);
    var s2 := State(Channels([1], 1), [Running, Idle], [1], [], [0], []);
    var s3 := State(Channels([1, 2], 1), [Running, Claimed], [1, 2], [], [0, 1], []);
    var s4 := State(Channels([1, 2], 2), [Running, Running], [1, 2], [], [0, 1], []);
    var s5 := State(Channels([2], 2), [Running, Releasing], [1, 2], [1], [0, 1], [1]);
    Onwards(cfg, s4, ReleaseStamp(1), [], s5);
    Onwards(cfg, s3, TryFast(1), [ReleaseStamp(1)], s4);
    Onwards(cfg, s2, Arrive(1, 2), [TryFast(1), ReleaseStamp(1)], s3);
    Onwards(cfg, s1, TryFast(0), [Arrive(1, 2), TryFast(1), ReleaseStamp(1)], s2);
    Onwards(cfg, s0, Arrive(0, 1), [TryFast(0), Arrive(1, 2), TryFast(1), ReleaseStamp(1)], s1);
  }

  // ---------------------------------------------------------------------------
  // Which answer a request gets
  // ---------------------------------------------------------------------------

  /** Some step of the run is taken from a state with the property. */
  predicate Meets(cfg: Config, s: State, acts: seq<Action>, p: (State, Action) -> bool)
    decreases |acts|
  {
    acts != [] &&
    (p(s, acts[0]) || (Step(cfg, s, acts[0]).Some? && Meets(cfg, Step(cfg, s, acts[0]).value, acts[1..], p)))
  }

  /** The request arrives and every slot is claimed. */
  function FindsNoSlot(cfg: Config, r: nat): (State, Action) -> bool {
    (t: State, a: Action) => a.Arrive? && a.r == r && |t.ch.waiting| == cfg.limit + cfg.queueLimit
  }

  /** The request tries the fast path and every token is taken. */
  function FindsNoToken(cfg: Config, r: nat): (State, Action) -> bool {
    (t: State, a: Action) => a == TryFast(r) && t.ch.busy == cfg.limit
  }

  /** The handler of the request returns. */
  function IsServed(r: nat): (State, Action) -> bool {
    (t: State, a: Action) => a == ReleaseStamp(r) && r < |t.pcs| && t.pcs[r] == Running
  }

  predicate GaveUp(pc: Pc) { pc == TimedOut || pc == Done(QueueingTimedout) }

  predicate WasServed(pc: Pc) { pc == Releasing || pc == Done(Served) }

  lemma StepFixesOutcome(cfg: Config, s: State, a: Action, t: State, r: nat)
    requires Inv(cfg, s) && Step(cfg, s, a) == Some(t) && r < |s.pcs|
    ensures r < |t.pcs|
    ensures GaveUp(t.pcs[r]) <==> GaveUp(s.pcs[r]) || a == Expire(r)
    ensures t.pcs[r] == Done(TooManyRequests) <==> s.pcs[r] == Done(TooManyRequests) || FindsNoSlot(cfg, r)(s, a)
    ensures WasServed(t.pcs[r]) <==> WasServed(s.pcs[r]) || IsServed(r)(s, a)
    ensures t.pcs[r] == Blocked ==> s.pcs[r] == Blocked || FindsNoToken(cfg, r)(s, a)
    ensures a == Expire(r) ==> s.pcs[r] == Blocked
    ensures s.pcs[r] == Blocked ==> t.pcs[r] == Blocked || a == Expire(r) || (a == Unblock(r) && t.pcs[r] == Running)
  {
  }

  /**
   Over any run, for any request: it gives up if and only if its own timer fires, which
   can only happen after it has found every token taken; it is refused if and only if it
   has arrived when every slot was claimed; and it is served if and only if its handler
   has run to its end.
   */
  lemma {:induction false} OutcomeOverRuns(cfg: Config, s: State, acts: seq<Action>, t: State, r: nat)
    requires Inv(cfg, s) && Run(cfg, s, acts) == Some(t) && r < |s.pcs|
    ensures r < |t.pcs|
    ensures GaveUp(t.pcs[r]) <==> GaveUp(s.pcs[r]) || Expire(r) in acts
    ensures t.pcs[r] == Done(TooManyRequests) <==>
              s.pcs[r] == Done(TooManyRequests) || Meets(cfg, s, acts, FindsNoSlot(cfg, r))
    ensures WasServed(t.pcs[r]) <==> WasServed(s.pcs[r]) || Meets(cfg, s, acts, IsServed(r))
    ensures Expire(r) in acts || t.pcs[r] == Blocked ==>
              s.pcs[r] == Blocked || Meets(cfg, s, acts, FindsNoToken(cfg, r))
    decreases |acts|
  {
    if acts != [] {
      var s' := Step(cfg, s, acts[0]).value;
      assert acts == [acts[0]] + acts[1..];
      StepKeepsInv(cfg, s, acts[0]);
      StepFixesOutcome(cfg, s, acts[0], s', r);
      hide Step, Inv;
      OutcomeOverRuns(cfg, s', acts[1..], t, r);
    }
  }

  /** The same for runs from the start: every answer has exactly its own cause. */
  lemma AnswersHaveTheirCause(cfg: Config, s0: State, acts: seq<Action>, s: State, r: nat)
    requires Initial(s0) && Run(cfg, s0, acts) == Some(s) && r < |s0.pcs|
    ensures r < |s.pcs|
    ensures s.pcs[r] == TimedOut || s.pcs[r] == Done(QueueingTimedout) <==> Expire(r) in acts
    ensures Expire(r) in acts || s.pcs[r] == Blocked ==> Meets(cfg, s0, acts, FindsNoToken(cfg, r))
    ensures s.pcs[r] == Done(TooManyRequests) <==> Meets(cfg, s0, acts, FindsNoSlot(cfg, r))
    ensures s.pcs[r] == Releasing || s.pcs[r] == Done(Served) <==> Meets(cfg, s0, acts, IsServed(r))
  {
    InitialInv(cfg, s0);
    OutcomeOverRuns(cfg, s0, acts, s, r);
  }

  lemma InitialInv(cfg: Config, s: State)
    requires Initial(s)
    ensures Inv(cfg, s)
  {
    TotalZero(HoldsSlot, s.pcs);
    TotalZero(HoldsToken, s.pcs);
  }

  // ---------------------------------------------------------------------------
  // Progress
  // ---------------------------------------------------------------------------

  ghost predicate AllDone(s: State) { forall pc | pc in s.pcs :: pc.Done? }

  /** Every step uses up one of the steps its request has left. */
  lemma StepUsesUpSteps(cfg: Config, s: State, a: Action)
    requires Step(cfg, s, a).Some?
    ensures Total(StepsLeft, Step(cfg, s, a).value.pcs) < Total(StepsLeft, s.pcs)
  {
    TotalUpdate(StepsLeft, s.pcs, a.r, Step(cfg, s, a).value.pcs[a.r]);
  }

  lemma {:induction false} RunsAreBounded(cfg: Config, s: State, acts: seq<Action>)
    requires Run(cfg, s, acts).Some?
    ensures |acts| + Total(StepsLeft, Run(cfg, s, acts).value.pcs) <= Total(StepsLeft, s.pcs)
    decreases |acts|
  {
    if acts != [] {
      StepUsesUpSteps(cfg, s, acts[0]);
      RunsAreBounded(cfg, Step(cfg, s, acts[0]).value, acts[1..]);
    }
  }

  /**
   No reachable state is stuck: while a request is unfinished some step is
   possible, and none that relies on the timer is needed. (QueueRequests builds
   no queue at all for limit 0.)
   */
  lemma NoDeadlock(cfg: Config, s: State) returns (a: Action)
    requires cfg.limit > 0 && Inv(cfg, s) && !AllDone(s)
    ensures Step(cfg, s, a).Some? && !a.Expire?
  {
    var i :| 0 <= i < |s.pcs| && !s.pcs[i].Done?;
    TotalUpdate(HoldsSlot, s.pcs, i, s.pcs[i]);
    TotalUpdate(HoldsToken, s.pcs, i, s.pcs[i]);
    match s.pcs[i]
    case Idle => a := Arrive(i, 0);
    case Claimed => a := TryFast(i);
    case TimedOut => a := Abandon(i);
    case Running => a := ReleaseStamp(i);
    case Releasing => a := ReleaseToken(i);
    case Blocked =>
      if CanEnter(cfg, s.ch) {
        a := Unblock(i);
      } else {
        var j := TotalPositive(HoldsToken, s.pcs);
        TotalUpdate(HoldsSlot, s.pcs, j, s.pcs[j]);
        a := if s.pcs[j] == Running then ReleaseStamp(j) else ReleaseToken(j);
      }
  }

  /** The answer that a request can still get when no timer fires. */
  predicate EndsWith(pc: Pc, o: Outcome) {
    match pc
    case Idle => o == Served || o == TooManyRequests
    case Claimed | Blocked | Running | Releasing => o == Served
    case TimedOut => o == QueueingTimedout
    case Done(o') => o == o'
  }

  /**
   From every reachable state all requests can be brought to their response without any
   timer firing, and then everyone is served who was not refused and had not given up: a
   request waits as long as it has to.
   */
  lemma {:induction false} CanFinish(cfg: Config, s: State) returns (acts: seq<Action>)
    requires cfg.limit > 0 && Inv(cfg, s)
    ensures Run(cfg, s, acts).Some? && AllDone(Run(cfg, s, acts).value)
    ensures var t := Run(cfg, s, acts).value;
            |t.pcs| == |s.pcs|
            && forall r | 0 <= r < |s.pcs| :: t.pcs[r].Done? && EndsWith(s.pcs[r], t.pcs[r].outcome)
    ensures forall a | a in acts :: !a.Expire?
    decreases Total(StepsLeft, s.pcs)
  {
    if AllDone(s) {
      acts := [];
      assert forall r | 0 <= r < |s.pcs| :: s.pcs[r] in s.pcs;
    } else {
      var a := NoDeadlock(cfg, s);
      StepKeepsInv(cfg, s, a);
      StepUsesUpSteps(cfg, s, a);
      StepWithoutTimer(cfg, s, a);
      hide Step, Inv, AllDone;
      var rest := CanFinish(cfg, Step(cfg, s, a).value);
      acts := [a] + rest;
      assert acts[1..] == rest;
    }
  }

  lemma StepWithoutTimer(cfg: Config, s: State, a: Action)
    requires Step(cfg, s, a).Some? && !a.Expire?
    ensures var t := Step(cfg, s, a).value;
            |t.pcs| == |s.pcs|
            && forall r, o | 0 <= r < |s.pcs| && EndsWith(t.pcs[r], o) :: EndsWith(s.pcs[r], o)
  {
  }

  /** Whoever arrives finds its slot and its token while fewer than `limit` are in. */
  lemma NobodyWaitsForNothing(cfg: Config, s: State, r: nat)
    requires Reachable(cfg, s) && r < |s.pcs| && s.pcs[r] == Claimed
    ensures Step(cfg, s, TryFast(r)).Some?
    ensures Step(cfg, s, TryFast(r)).value.pcs[r] == Running <==> Total(HoldsToken, s.pcs) < cfg.limit
    ensures Step(cfg, s, TryFast(r)).value.pcs[r] == Blocked <==> Total(HoldsToken, s.pcs) == cfg.limit
  {
    CountingInvariant(cfg, s);
  }

  /** No run of n requests has more than 5n steps. */
  lemma RunsEnd(cfg: Config, s0: State, acts: seq<Action>)
    requires Initial(s0) && Run(cfg, s0, acts).Some?
    ensures |acts| <= 5 * |s0.pcs|
  {
    TotalIdle(s0.pcs);
    RunsAreBounded(cfg, s0, acts);
  }

  /**
   A run that cannot be continued has answered every request and left both
   channels empty.
   */
  lemma {:induction false} MaximalRunsDrainTheQueue(cfg: Config, s: State)
    requires cfg.limit > 0 && Reachable(cfg, s)
    ensures (forall a :: Step(cfg, s, a) == None) <==> AllDone(s)
    ensures AllDone(s) ==> s.ch == Channels([], 0) && s.observed == s.claims
  {
    CountingInvariant(cfg, s);
    if AllDone(s) {
      TotalZero(HoldsSlot, s.pcs);
      TotalZero(HoldsToken, s.pcs);
      forall a ensures Step(cfg, s, a) == None {
        if a.r < |s.pcs| {
          assert s.pcs[a.r].Done?;
        }
      }
    } else {
      var a := NoDeadlock(cfg, s);
    }
  }

  lemma {:induction false} TotalIdle(pcs: seq<Pc>)
    requires forall r :: 0 <= r < |pcs| ==> pcs[r].Idle?
    ensures Total(StepsLeft, pcs) == 5 * |pcs|
  {
    if pcs != [] {
      TotalIdle(pcs[1..]);
    }
  }
}
