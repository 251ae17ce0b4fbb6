/**
 The stop channel of a terminal session (internal/terminal/proxy.go:21-56,
 auth_checker.go:33-47, terminal.go:23-40, 121-131): two copy loops and a number of
 other stoppers each send at most one error, and Serve receives a single one.
 */
module StopChannel {
  import opened Wrappers

  /** Waiting is a copy loop that Serve has not started. */
  datatype Pc = Waiting | Running | Sending | Finished(sent: bool)

  datatype Serve = NotStarted | Receiving | Got(first: nat) | Returned(first: nat)

  /** Senders 0 and 1 are the copy loops. An error is the index of its sender; `log` has all that were sent. */
  datatype State = State(capacity: nat, senders: seq<Pc>, buffer: seq<nat>, serve: Serve, log: seq<nat>)

  datatype Action =
    | StartServe        // starts both copy loops
    | Fail(i: nat)      // the sender has an error to send
    | Quit(i: nat)      // the checker is closed, or there is no session limit
    | Send(i: nat)
    | Receive
    | Return            // after the deferred end-of-terminal message

  const LOOPS: nat := 2

  /** NewProxy(stoppers) makes a channel of stoppers + 2; here the capacity is free. */
  function Init(stoppers: nat, capacity: nat): State {
    State(capacity, seq(stoppers + LOOPS, i => if i < LOOPS then Waiting else Running), [], NotStarted, [])
  }

  function Start(senders: seq<Pc>): seq<Pc> {
    seq(|senders|, i requires 0 <= i < |senders| => if senders[i].Waiting? then Running else senders[i])
  }

  function Step(s: State, a: Action): Option<State> {
    match a
    case StartServe =>
      if s.serve.NotStarted? then Some(s.(serve := Receiving, senders := Start(s.senders))) else None
    case Fail(i) =>
      if i < |s.senders| && s.senders[i].Running? then Some(s.(senders := s.senders[i := Sending])) else None
    case Quit(i) =>
      if LOOPS <= i < |s.senders| && s.senders[i].Running? then
        Some(s.(senders := s.senders[i := Finished(false)]))
      else None
    case Send(i) =>
      if i < |s.senders| && s.senders[i].Sending? && |s.buffer| < s.capacity then
        Some(s.(senders := s.senders[i := Finished(true)], buffer := s.buffer + [i], log := s.log + [i]))
      else None
    case Receive =>
      if s.serve.Receiving? && s.buffer != [] then
        Some(s.(serve := Got(s.buffer[0]), buffer := s.buffer[1..]))
      else None
    case Return =>
      if s.serve.Got? then Some(s.(serve := Returned(s.serve.first))) else None
  }

  function Run(s: State, acts: seq<Action>): Option<State>
    decreases |acts|
  {
    if acts == [] then Some(s)
    else
      match Step(s, acts[0])
      case None => None
      case Some(t) => Run(t, acts[1..])
  }

  ghost predicate Reachable(stoppers: nat, capacity: nat, s: State) {
    exists acts :: Run(Init(stoppers, capacity), acts) == Some(s)
  }

  // ---------------------------------------------------------------- invariant

  function Sent(senders: seq<Pc>): (n: nat)
    ensures n <= |senders|
  {
    if senders == [] then 0 else Sent(senders[1..]) + if senders[0] == Finished(true) then 1 else 0
  }

  lemma {:induction false} SentUpdate(senders: seq<Pc>, i: nat, pc: Pc)
    requires i < |senders|
    ensures Sent(senders[i := pc]) ==
            Sent(senders) + (if pc == Finished(true) then 1 else 0) - (if senders[i] == Finished(true) then 1 else 0)
  {
    if i > 0 {
      assert senders[i := pc][1..] == senders[1..][i - 1 := pc];
      SentUpdate(senders[1..], i - 1, pc);
    }
  }

  lemma {:induction false} SentNotAll(senders: seq<Pc>, i: nat)
    requires i < |senders| && senders[i] != Finished(true)
    ensures Sent(senders) < |senders|
  {
    if i > 0 {
      SentNotAll(senders[1..], i - 1);
    }
  }

  lemma {:induction false} SentStart(senders: seq<Pc>)
    ensures Sent(Start(senders)) == Sent(senders)
  {
    if senders != [] {
      assert Start(senders)[1..] == Start(senders[1..]);
      SentStart(senders[1..]);
    }
  }

  lemma {:induction false} SentNone(senders: seq<Pc>)
    requires forall i :: 0 <= i < |senders| ==> senders[i] != Finished(true)
    ensures Sent(senders) == 0
  {
    if senders != [] {
      SentNone(senders[1..]);
    }
  }

  function Received(s: State): seq<nat> {
    match s.serve
    case Got(first) => [first]
    case Returned(first) => [first]
    case _ => []
  }

  /** Errors are neither lost nor reordered, and nobody sends twice. */
  predicate Inv(s: State, stoppers: nat) {
    && |s.senders| == stoppers + LOOPS
    && s.log == Received(s) + s.buffer
    && |s.log| == Sent(s.senders)
    && (forall k :: 0 <= k < |s.log| ==> s.log[k] < |s.senders| && s.senders[s.log[k]] == Finished(true))
    && (forall j, k :: 0 <= j < k < |s.log| ==> s.log[j] != s.log[k])
    && (forall i :: 0 <= i < |s.senders| ==> (s.senders[i].Waiting? <==> i < LOOPS && s.serve.NotStarted?))
  }

  lemma SendKeepsInv(s: State, i: nat, t: State, stoppers: nat)
    requires Inv(s, stoppers) && Step(s, Send(i)) == Some(t)
    ensures Inv(t, stoppers) && t.capacity == s.capacity
  {
    hide Sent;
    SentUpdate(s.senders, i, Finished(true));
    assert t.log == Received(t) + t.buffer;
    assert i !in s.log;
  }

  lemma StepKeepsInv(s: State, a: Action, t: State, stoppers: nat)
    requires Inv(s, stoppers) && Step(s, a) == Some(t)
    ensures Inv(t, stoppers) && t.capacity == s.capacity
  {
    hide Sent;
    match a
    case StartServe => SentStart(s.senders);
    case Fail(i) => SentUpdate(s.senders, i, Sending);
    case Quit(i) => SentUpdate(s.senders, i, Finished(false));
    case Send(i) => SendKeepsInv(s, i, t, stoppers);
    case Receive => assert t.log == Received(t) + t.buffer;
    case Return =>
  }

  lemma {:induction false} RunKeepsInv(s: State, acts: seq<Action>, t: State, stoppers: nat)
    requires Inv(s, stoppers) && Run(s, acts) == Some(t)
    ensures Inv(t, stoppers) && t.capacity == s.capacity
    decreases |acts|
  {
    if acts != [] {
      StepKeepsInv(s, acts[0], Step(s, acts[0]).value, stoppers);
      RunKeepsInv(Step(s, acts[0]).value, acts[1..], t, stoppers);
    }
  }

  lemma ReachableInv(stoppers: nat, capacity: nat, s: State)
    requires Reachable(stoppers, capacity, s)
    ensures Inv(s, stoppers) && s.capacity == capacity
  {
    var acts :| Run(Init(stoppers, capacity), acts) == Some(s);
    SentNone(Init(stoppers, capacity).senders);
    RunKeepsInv(Init(stoppers, capacity), acts, s, stoppers);
  }

  // ----------------------------------------------------------------- theorems

  predicate Blocked(s: State, i: nat) {
    i < |s.senders| && s.senders[i].Sending? && Step(s, Send(i)).None?
  }

  /** The channel of NewProxy never blocks a sender, whether or not Serve runs or has returned. */
  lemma SendNeverBlocks(stoppers: nat, s: State, i: nat)
    requires Reachable(stoppers, stoppers + LOOPS, s)
    ensures !Blocked(s, i)
  {
    ReachableInv(stoppers, stoppers + LOOPS, s);
    if i < |s.senders| && s.senders[i].Sending? {
      SentNotAll(s.senders, i);
    }
  }

  /** Serve returns the first error that was sent; it cannot return before there is one. */
  lemma ServeReturnsTheFirstError(stoppers: nat, capacity: nat, s: State)
    requires Reachable(stoppers, capacity, s)
    ensures s.serve.Returned? ==>
              s.log != [] && s.serve.first == s.log[0] < |s.senders| && s.senders[s.log[0]] == Finished(true)
    ensures s.serve.Receiving? && s.log != [] ==> Step(s, Receive).Some?
  {
    ReachableInv(stoppers, capacity, s);
  }

  /** Each sender sends at most one error. */
  lemma NobodySendsTwice(stoppers: nat, capacity: nat, s: State, j: nat, k: nat)
    requires Reachable(stoppers, capacity, s) && j < k < |s.log|
    ensures s.log[j] != s.log[k]
  {
    ReachableInv(stoppers, capacity, s);
  }

  /** Only steps of sender i. */
  predicate OwnSteps(acts: seq<Action>, i: nat) {
    forall k :: 0 <= k < |acts| ==> acts[k] == Fail(i) || acts[k] == Send(i)
  }

  predicate Finishes(s: State, acts: seq<Action>, i: nat) {
    Run(s, acts).Some? && i < |Run(s, acts).value.senders| && Run(s, acts).value.senders[i].Finished?
  }

  /** Whatever the others do, a started sender can end by its own steps: no goroutine leaks. */
  lemma SenderCanFinish(stoppers: nat, s: State, i: nat)
    requires Reachable(stoppers, stoppers + LOOPS, s) && i < |s.senders| && !s.senders[i].Waiting?
    ensures exists acts :: OwnSteps(acts, i) && Finishes(s, acts, i)
  {
    var acts: seq<Action> := [];
    var t := s;
    if t.senders[i].Running? {
      RunAppend(s, acts, Fail(i));
      t := Extend(stoppers, stoppers + LOOPS, t, Fail(i));
      acts := acts + [Fail(i)];
    }
    if t.senders[i].Sending? {
      SendNeverBlocks(stoppers, t, i);
      RunAppend(s, acts, Send(i));
      acts := acts + [Send(i)];
    }
    assert OwnSteps(acts, i) && Finishes(s, acts, i);
  }

  lemma {:induction false} RunAppend(s: State, acts: seq<Action>, a: Action)
    requires Run(s, acts).Some?
    ensures Run(s, acts + [a]) == Step(Run(s, acts).value, a)
    decreases |acts|
  {
    if acts == [] {
      assert [a][1..] == [];
    } else {
      assert (acts + [a])[1..] == acts[1..] + [a];
      RunAppend(Step(s, acts[0]).value, acts[1..], a);
    }
  }

  lemma Extend(stoppers: nat, capacity: nat, s: State, a: Action) returns (t: State)
    requires Reachable(stoppers, capacity, s) && Step(s, a).Some?
    ensures Reachable(stoppers, capacity, t) && Step(s, a) == Some(t)
  {
    t := Step(s, a).value;
    var acts :| Run(Init(stoppers, capacity), acts) == Some(s);
    RunAppend(Init(stoppers, capacity), acts, a);
  }

  /** All senders fail before Serve receives: the first n have sent. */
  lemma {:induction false} AllSendAtOnce(stoppers: nat, capacity: nat, n: nat) returns (s: State)
    requires n <= capacity && n <= stoppers + LOOPS
    ensures Reachable(stoppers, capacity, s) && |s.senders| == stoppers + LOOPS
    ensures |s.buffer| == n && s.capacity == capacity
    ensures forall i :: n <= i < |s.senders| ==> s.senders[i].Running?
  {
    if n == 0 {
      s := Init(stoppers, capacity);
      assert Run(s, []) == Some(s);
      s := Extend(stoppers, capacity, s, StartServe);
    } else {
      s := AllSendAtOnce(stoppers, capacity, n - 1);
      s := Extend(stoppers, capacity, s, Fail(n - 1));
      s := Extend(stoppers, capacity, s, Send(n - 1));
    }
  }

  /** The size is exact: stoppers + 2 is the least capacity at which no send ever has to wait. */
  lemma CapacityIsExact(stoppers: nat, capacity: nat)
    ensures (forall s, i: nat :: Reachable(stoppers, capacity, s) ==> !Blocked(s, i)) <==> stoppers + LOOPS <= capacity
  {
    if stoppers + LOOPS <= capacity {
      forall s, i: nat | Reachable(stoppers, capacity, s)
        ensures !Blocked(s, i)
      {
        ReachableInv(stoppers, capacity, s);
        if i < |s.senders| && s.senders[i].Sending? {
          SentNotAll(s.senders, i);
        }
      }
    } else {
      var s := AllSendAtOnce(stoppers, capacity, capacity);
      s := Extend(stoppers, capacity, s, Fail(capacity));
      assert Blocked(s, capacity);
    }
  }

  // -------------------------------------------------- what a run leaves behind

  predicate HasFailed(pc: Pc) { pc.Sending? || pc == Finished(true) }

  /** Where the goroutines of t are after the actions, seen from where those of s were. */
  ghost predicate Left(s: State, acts: seq<Action>, t: State) {
    && |t.senders| == |s.senders|
    && (forall i :: 0 <= i < |s.senders| ==>
          && (t.senders[i] == Finished(true) <==> s.senders[i] == Finished(true) || Send(i) in acts)
          && (t.senders[i] == Finished(false) <==> s.senders[i] == Finished(false) || Quit(i) in acts)
          && (HasFailed(t.senders[i]) <==> HasFailed(s.senders[i]) || Fail(i) in acts)
          && (t.senders[i].Waiting? <==> s.senders[i].Waiting? && StartServe !in acts))
    && (t.serve.NotStarted? <==> s.serve.NotStarted? && StartServe !in acts)
    && (t.serve.Got? || t.serve.Returned? <==> s.serve.Got? || s.serve.Returned? || Receive in acts)
    && (t.serve.Returned? <==> s.serve.Returned? || Return in acts)
  }

  lemma StepLeaves(s: State, a: Action, t: State)
    requires Step(s, a) == Some(t)
    ensures Left(s, [a], t)
  {
  }

  /**
   A goroutine has sent exactly if its send is in the run, and has ended without one
   exactly if it quit; Serve has started, received and returned exactly by its own steps.
   */
  lemma {:induction false} RunLeaves(s: State, acts: seq<Action>, t: State)
    requires Run(s, acts) == Some(t)
    ensures Left(s, acts, t)
    decreases |acts|
  {
    if acts != [] {
      var s1 := Step(s, acts[0]).value;
      StepLeaves(s, acts[0], s1);
      RunLeaves(s1, acts[1..], t);
      assert acts == [acts[0]] + acts[1..];
    }
  }

  /** A stopper may quit exactly as long as it has neither quit nor an error to send; a copy loop never. */
  lemma QuitsIff(stoppers: nat, capacity: nat, acts: seq<Action>, s: State, i: nat)
    requires Run(Init(stoppers, capacity), acts) == Some(s)
    ensures Step(s, Quit(i)).Some? <==>
            LOOPS <= i < stoppers + LOOPS && Fail(i) !in acts && Quit(i) !in acts
  {
    RunLeaves(Init(stoppers, capacity), acts, s);
  }

  /** Once an error has been sent, Serve returns that one by its own steps. */
  lemma ServeCanReturn(stoppers: nat, capacity: nat, s: State)
    requires Reachable(stoppers, capacity, s) && !s.serve.NotStarted? && s.log != []
    ensures exists acts :: (forall a | a in acts :: a == Receive || a == Return)
                           && Run(s, acts).Some? && Run(s, acts).value.serve == Returned(s.log[0])
  {
    ReachableInv(stoppers, capacity, s);
    var acts: seq<Action> := [];
    var t := s;
    if t.serve.Receiving? {
      RunAppend(s, acts, Receive);
      acts, t := acts + [Receive], Step(t, Receive).value;
    }
    if t.serve.Got? {
      RunAppend(s, acts, Return);
      acts, t := acts + [Return], Step(t, Return).value;
    }
    assert Run(s, acts) == Some(t) && forall a | a in acts :: a == Receive || a == Return;
  }

  // -------------------------------------------------------------- auth checker

  class StopCh {
    const capacity: nat
    var buffer: seq<string>

    constructor (stoppers: nat)
      ensures capacity == stoppers + 2 && buffer == []
    {
      capacity, buffer := stoppers + 2, [];
    }

    method Push(e: string)
      requires |buffer| < capacity
      modifies this
      ensures buffer == old(buffer) + [e]
    {
      buffer := buffer + [e];
    }
  }

  const ERR_AUTH_CHANGED := "connection closed: authentication changed or endpoint unavailable"

  /** The settings are compared as a whole; None is a failed authorization request. */
  class AuthChecker<Settings(==)> {
    const template: Settings
    const stopCh: StopCh
    var count: nat

    constructor (template: Settings, stopCh: StopCh)
      ensures this.template == template && this.stopCh == stopCh && count == 0
    {
      this.template, this.stopCh, count := template, stopCh, 0;
    }

    /**
     One answer per tick until the checker is closed. The first one that differs is
     the only one reported; the count is that of the answers before it.
     */
    method Loop(answers: seq<Option<Settings>>)
      requires |stopCh.buffer| < stopCh.capacity
      modifies this`count, stopCh
      ensures old(count) <= count <= old(count) + |answers|
      ensures forall k :: 0 <= k < count - old(count) ==> answers[k] == Some(template)
      ensures count - old(count) < |answers| ==>
                answers[count - old(count)] != Some(template)
                && stopCh.buffer == old(stopCh.buffer) + [ERR_AUTH_CHANGED]
      ensures count - old(count) == |answers| ==> stopCh.buffer == old(stopCh.buffer)
    {
      for k := 0 to |answers|
        invariant count == old(count) + k && stopCh.buffer == old(stopCh.buffer)
        invariant forall j :: 0 <= j < k ==> answers[j] == Some(template)
      {
        if answers[k] != Some(template) {
          stopCh.Push(ERR_AUTH_CHANGED);
          return;
        }
        count := count + 1;
      }
    }
  }
}
