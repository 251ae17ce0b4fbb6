/**
 WatchKey calls, the publisher and the subscription as one system of steps
 (internal/redis/keywatcher.go:58-84, 122-204). The mutex makes each critical
 section of module KeyWatcher one step; everything else may come in between.
 */
module WatchKey {
  import opened Wrappers
  import opened KeyWatcher

  datatype Status = Timeout | AlreadyChanged | SeenChange | NoChange

  /** The status and whether an error comes with it. */
  datatype Outcome = Outcome(status: Status, failed: bool)

  datatype Get = NotYet | GetFailed | Found(value: Value)

  datatype Pc = Start | Registered | Selecting | Unregistering(res: Outcome) | Returned(res: Outcome)

  /** One call of WatchKey; its channel is its index. */
  datatype Call = Call(
    key: Key,
    value: Value,
    pc: Pc,
    regAt: nat,            // notifications processed before addKeyChan
    endAt: nat,            // notifications processed before delKeyChan
    get: Get,
    got: Option<Value>)    // received from the channel

  datatype State = State(
    reg: Registry,
    calls: seq<Call>,
    log: seq<Msg>,           // notifications processed
    redis: map<Key, Value>,
    unpublished: seq<Msg>,   // set in Redis, not published yet
    queue: seq<string>,      // published, not received yet
    lost: bool)              // a connection loss has dropped notifications

  datatype Action =
    | Register(i: nat)
    | GetKey(i: nat, ok: bool)
    | Receive(i: nat)
    | Expire(i: nat)
    | Unregister(i: nat)
    | SetKey(m: Msg)
    | DropKey(key: Key)
    | Publish(j: nat)
    | Deliver
    | Disconnect

  /** The result after the select, as a function of what the channel delivered. */
  function Received(expected: Value, value: Value): Outcome {
    if value == "" then Outcome(NoChange, true)
    else if value == expected then Outcome(NoChange, false)
    else Outcome(SeenChange, false)
  }

  function GetOutcome(c: Call, get: Get): Pc {
    match get
    case NotYet => c.pc
    case GetFailed => Unregistering(Outcome(NoChange, true))
    case Found(v) => if v != c.value then Unregistering(Outcome(AlreadyChanged, false)) else Selecting
  }

  function Update(s: State, i: nat, c: Call): State
    requires i < |s.calls|
  {
    s.(calls := s.calls[i := c])
  }

  function CallStep(s: State, i: nat, a: Action): Option<State>
    requires i < |s.calls|
  {
    var c := s.calls[i];
    match a
    case Register(_) =>
      if !c.pc.Start? then None
      else
        var reg := s.reg.(buffers := s.reg.buffers[i := []]);
        Some(Update(s, i, c.(pc := Registered, regAt := |s.log|)).(reg := Add(reg, c.key, i)))
    case GetKey(_, ok) =>
      if !c.pc.Registered? then None
      else
        var get := if ok && c.key in s.redis then Found(s.redis[c.key]) else GetFailed;
        Some(Update(s, i, c.(get := get, pc := GetOutcome(c, get))))
    case Receive(_) =>
      if !c.pc.Selecting? || i !in s.reg.buffers || s.reg.buffers[i] == [] then None
      else
        var v := s.reg.buffers[i][0];
        Some(Update(s, i, c.(got := Some(v), pc := Unregistering(Received(c.value, v)))).(
             reg := s.reg.(buffers := s.reg.buffers[i := s.reg.buffers[i][1..]])))
    case Expire(_) =>
      if !c.pc.Selecting? then None
      else Some(Update(s, i, c.(pc := Unregistering(Outcome(Timeout, false)))))
    case Unregister(_) =>
      if !c.pc.Unregistering? then None
      else Some(Update(s, i, c.(pc := Returned(c.pc.res), endAt := |s.log|)).(reg := Del(s.reg, c.key, i)))
    case _ => None
  }

  function DeliverStep(s: State): Option<State>
    requires s.queue != []
  {
    var s' := s.(queue := s.queue[1..]);
    match Parse(s.queue[0])
    case None => Some(s')   // invalid notification, logged only
    case Some(m) =>
      if !SlotsFree(s.reg, Listeners(s.reg, m.key)) then None
      else Some(s'.(reg := Notify(s.reg, m.key, m.value), log := s.log + [m]))
  }

  function Step(s: State, a: Action): Option<State> {
    match a
    case Register(i) => if i < |s.calls| then CallStep(s, i, a) else None
    case GetKey(i, _) => if i < |s.calls| then CallStep(s, i, a) else None
    case Receive(i) => if i < |s.calls| then CallStep(s, i, a) else None
    case Expire(i) => if i < |s.calls| then CallStep(s, i, a) else None
    case Unregister(i) => if i < |s.calls| then CallStep(s, i, a) else None
    case SetKey(m) =>
      Some(s.(redis := s.redis[m.key := m.value], unpublished := s.unpublished + [m]))
    case DropKey(key) => Some(s.(redis := s.redis - {key}))
    case Publish(j) =>
      if j >= |s.unpublished| then None
      else Some(s.(queue := s.queue + [Format(s.unpublished[j])],
                   unpublished := s.unpublished[..j] + s.unpublished[j + 1..]))
    case Deliver => if s.queue == [] then None else DeliverStep(s)
    case Disconnect => Some(s.(queue := [], lost := true))
  }

  function Run(s: State, acts: seq<Action>): Option<State>
    decreases |acts|
  {
    if acts == [] then Some(s)
    else match Step(s, acts[0])
      case None => None
      case Some(s') => Run(s', acts[1..])
  }

  predicate Fresh(c: Call) { c.pc == Start && c.get == NotYet && c.got == None }

  /** Calls that have not started, nothing registered, anything in Redis. */
  predicate Initial(s: State) {
    && s.reg == Registry(map[], map[], 0) && s.log == [] && !s.lost
    && s.unpublished == [] && s.queue == []
    && forall i | 0 <= i < |s.calls| :: Fresh(s.calls[i])
  }

  ghost predicate Reachable(s: State) {
    exists s0, acts :: Initial(s0) && Run(s0, acts) == Some(s)
  }

  // ---------------------------------------------------------------------------
  // The invariant
  // ---------------------------------------------------------------------------

  /** The first notification for the key at or after position `at`. */
  function First(log: seq<Msg>, at: nat, key: Key): Option<Value>
    decreases |log| - at
  {
    if at >= |log| then None
    else if log[at].key == key then Some(log[at].value)
    else First(log, at + 1, key)
  }

  lemma {:induction false} FirstAppend(log: seq<Msg>, at: nat, key: Key, m: Msg)
    requires at <= |log|
    ensures First(log + [m], at, key) ==
              if First(log, at, key).Some? then First(log, at, key)
              else if m.key == key then Some(m.value) else None
    decreases |log| - at
  {
    if at < |log| && log[at].key != key {
      FirstAppend(log, at + 1, key, m);
    }
  }

  predicate Active(c: Call) { c.pc.Registered? || c.pc.Selecting? || c.pc.Unregistering? }

  /** Registered and not notified yet. */
  predicate Waits(c: Call, log: seq<Msg>) { Active(c) && First(log, c.regAt, c.key).None? }

  function WaitSet(calls: seq<Call>, log: seq<Msg>): set<Chan> {
    set i | 0 <= i < |calls| && Waits(calls[i], log)
  }

  function Keys(calls: seq<Call>): seq<Key> {
    seq(|calls|, i requires 0 <= i < |calls| => calls[i].key)
  }

  /** One list of the map: not empty, no channel twice, all waiting for this key. */
  predicate ListOk(list: seq<Chan>, key: Key, keys: seq<Key>, waiting: set<Chan>) {
    && list != [] && NoDuplicates(list)
    && forall c | c in list :: c in waiting && c < |keys| && keys[c] == key
  }

  /** The map lists exactly the waiting calls, each once and under its own key. */
  predicate RegistryInv(reg: Registry, keys: seq<Key>, waiting: set<Chan>) {
    && (forall c | c in waiting :: c < |keys| && c in Listeners(reg, keys[c]))
    && (forall key | key in reg.watchers :: ListOk(reg.watchers[key], key, keys, waiting))
    && reg.gauge == |waiting|
  }

  /** What the call has been told: taken from the channel or still in it. */
  function Told(c: Call, buffer: seq<Value>): Option<Value> {
    if c.got.Some? then c.got else if buffer == [] then None else Some(buffer[0])
  }

  function Result(c: Call): Outcome {
    match c.get
    case NotYet => Outcome(NoChange, true)
    case GetFailed => Outcome(NoChange, true)
    case Found(v) =>
      if v != c.value then Outcome(AlreadyChanged, false)
      else if c.got.None? then Outcome(Timeout, false)
      else Received(c.value, c.got.value)
  }

  predicate CallInv(buffers: map<Chan, seq<Value>>, log: seq<Msg>, i: Chan, c: Call) {
    && (c.pc.Start? ==> Fresh(c))
    && (!c.pc.Start? ==>
          && i in buffers && |buffers[i]| <= 1
          && (c.got.Some? ==> buffers[i] == [])
          && c.regAt <= |log|)
    && (Active(c) ==> Told(c, buffers[i]) == First(log, c.regAt, c.key))
    && (c.pc.Registered? ==> c.get == NotYet && c.got == None)
    && (c.pc.Selecting? ==> c.get == Found(c.value) && c.got == None)
    && (c.pc.Unregistering? || c.pc.Returned? ==> c.get != NotYet && c.pc.res == Result(c))
    && (c.pc.Returned? ==>
          && c.regAt <= c.endAt <= |log|
          && Told(c, buffers[i]) == First(log[..c.endAt], c.regAt, c.key))
  }

  predicate CallsInv(buffers: map<Chan, seq<Value>>, log: seq<Msg>, calls: seq<Call>) {
    forall i | 0 <= i < |calls| :: CallInv(buffers, log, i, calls[i])
  }

  predicate Inv(s: State) {
    && RegistryInv(s.reg, Keys(s.calls), WaitSet(s.calls, s.log))
    && CallsInv(s.reg.buffers, s.log, s.calls)
  }

  lemma InitialInv(s: State)
    requires Initial(s)
    ensures Inv(s)
  {
    assert WaitSet(s.calls, s.log) == {};
  }

  // ---------------------------------------------------------------------------
  // Steps of a call
  // ---------------------------------------------------------------------------

  lemma {:induction false} WithoutMembers(list: seq<Chan>, c: Chan)
    requires NoDuplicates(list)
    ensures NoDuplicates(Without(list, c))
    ensures forall x :: x in Without(list, c) <==> x in list && x != c
  {
    if list != [] {
      assert list == [list[0]] + list[1..];
      if list[0] == c {
        assert c !in list[1..];
      } else {
        WithoutMembers(list[1..], c);
        assert list[0] !in list[1..];
        forall i, j | 0 <= i < j < |Without(list, c)|
          ensures Without(list, c)[i] != Without(list, c)[j]
        {
          assert Without(list, c)[j] == Without(list[1..], c)[j - 1];
        }
      }
    }
  }

  lemma AddKeepsRegistry(reg: Registry, keys: seq<Key>, waiting: set<Chan>, i: nat)
    requires RegistryInv(reg, keys, waiting) && i < |keys| && i !in waiting
    ensures RegistryInv(Add(reg, keys[i], i), keys, waiting + {i})
  {
    var reg' := Add(reg, keys[i], i);
    forall key | key in reg'.watchers ensures ListOk(reg'.watchers[key], key, keys, waiting + {i}) {
      if key in reg.watchers {
        assert ListOk(reg.watchers[key], key, keys, waiting);
      }
    }
  }

  lemma DelKeepsLists(reg: Registry, keys: seq<Key>, waiting: set<Chan>, i: nat)
    requires RegistryInv(reg, keys, waiting) && i < |keys|
    ensures forall key | key in Del(reg, keys[i], i).watchers ::
              ListOk(Del(reg, keys[i], i).watchers[key], key, keys, waiting - {i})
  {
    var list := Listeners(reg, keys[i]);
    assert keys[i] in reg.watchers ==> ListOk(list, keys[i], keys, waiting);
    WithoutMembers(list, i);
    hide Without, NoDuplicates;
    forall key | key in Del(reg, keys[i], i).watchers
      ensures ListOk(Del(reg, keys[i], i).watchers[key], key, keys, waiting - {i})
    {
      assert ListOk(reg.watchers[key], key, keys, waiting);
    }
  }

  lemma ListedIffWaiting(reg: Registry, keys: seq<Key>, waiting: set<Chan>, i: nat)
    requires RegistryInv(reg, keys, waiting) && i < |keys|
    ensures i in Listeners(reg, keys[i]) <==> i in waiting
    ensures NoDuplicates(Listeners(reg, keys[i]))
  {
    assert keys[i] in reg.watchers ==> ListOk(Listeners(reg, keys[i]), keys[i], keys, waiting);
  }

  lemma DelKeepsOthers(reg: Registry, keys: seq<Key>, waiting: set<Chan>, i: nat, c: nat)
    requires RegistryInv(reg, keys, waiting) && i < |keys| && c in waiting && c != i
    ensures c < |keys| && c in Listeners(Del(reg, keys[i], i), keys[c])
  {
    ListedIffWaiting(reg, keys, waiting, i);
    ListedIffWaiting(reg, keys, waiting, c);
    WithoutMembers(Listeners(reg, keys[i]), i);
    hide Without, NoDuplicates, RegistryInv;
  }

  lemma DelKeepsRegistry(reg: Registry, keys: seq<Key>, waiting: set<Chan>, i: nat)
    requires RegistryInv(reg, keys, waiting) && i < |keys|
    ensures RegistryInv(Del(reg, keys[i], i), keys, waiting - {i})
  {
    ListedIffWaiting(reg, keys, waiting, i);
    DelKeepsLists(reg, keys, waiting, i);
    forall c | c in waiting - {i} ensures c < |keys| && c in Listeners(Del(reg, keys[i], i), keys[c]) {
      DelKeepsOthers(reg, keys, waiting, i, c);
    }
    DelCounts(reg, keys[i], i);
    hide Without, NoDuplicates, ListOk, Del;
  }

  lemma DelCounts(reg: Registry, key: Key, i: nat)
    ensures Del(reg, key, i).gauge == reg.gauge - if i in Listeners(reg, key) then 1 else 0
  {
  }

  /** The channels listed for a key are the calls that wait for it. */
  lemma ListenersAreWaiting(reg: Registry, keys: seq<Key>, waiting: set<Chan>, key: Key)
    requires RegistryInv(reg, keys, waiting)
    ensures Members(Listeners(reg, key)) == set c | c in waiting && keys[c] == key
    ensures NoDuplicates(Listeners(reg, key))
  {
    var list := Listeners(reg, key);
    assert key in reg.watchers ==> ListOk(list, key, keys, waiting);
    forall c | c in waiting && keys[c] == key ensures c in list {
      assert c in Listeners(reg, keys[c]);
    }
  }

  lemma WaitingLeft(reg: Registry, keys: seq<Key>, waiting: set<Chan>, key: Key)
    requires RegistryInv(reg, keys, waiting)
    ensures |set c | c in waiting && keys[c] != key| == |waiting| - |Listeners(reg, key)|
  {
    var rest := set c | c in waiting && keys[c] != key;
    ListenersAreWaiting(reg, keys, waiting, key);
    MembersCount(Listeners(reg, key));
    assert Members(Listeners(reg, key)) == waiting - rest;
  }

  /** Notifying a key ends exactly the waits for it. */
  lemma NotifyKeepsRegistry(reg: Registry, keys: seq<Key>, waiting: set<Chan>, key: Key, value: Value)
    requires RegistryInv(reg, keys, waiting)
    ensures RegistryInv(Notify(reg, key, value), keys, set c | c in waiting && keys[c] != key)
  {
    hide SendAll, NoDuplicates;
    var rest := set c | c in waiting && keys[c] != key;
    var reg' := Notify(reg, key, value);
    WaitingLeft(reg, keys, waiting, key);
    forall k | k in reg'.watchers ensures ListOk(reg'.watchers[k], k, keys, rest) {
      assert ListOk(reg.watchers[k], k, keys, waiting);
    }
    forall c | c in rest ensures c in Listeners(reg', keys[c]) {
      assert c in Listeners(reg, keys[c]);
    }
  }

  function Members(list: seq<Chan>): set<Chan> { set c | c in list }

  lemma {:induction false} MembersCount(list: seq<Chan>)
    requires NoDuplicates(list)
    ensures |Members(list)| == |list|
  {
    if list != [] {
      MembersCount(list[1..]);
      assert list == [list[0]] + list[1..] && list[0] !in list[1..];
      assert Members(list) == Members(list[1..]) + {list[0]};
    }
  }

  /** How one call's step changes the set of waiting calls; keys never change. */
  lemma CallUpdate(s: State, i: nat, c: Call)
    requires i < |s.calls| && c.key == s.calls[i].key
    ensures WaitSet(s.calls[i := c], s.log) ==
              if Waits(c, s.log) then WaitSet(s.calls, s.log) + {i} else WaitSet(s.calls, s.log) - {i}
    ensures Keys(s.calls[i := c]) == Keys(s.calls)
  {
  }

  /** A step of call i touches its own channel only. */
  lemma CallsUpdate(buffers: map<Chan, seq<Value>>, buffers': map<Chan, seq<Value>>, log: seq<Msg>,
                    calls: seq<Call>, i: nat, c: Call)
    requires CallsInv(buffers, log, calls) && i < |calls| && CallInv(buffers', log, i, c)
    requires forall j | j in buffers && j != i :: j in buffers' && buffers'[j] == buffers[j]
    ensures CallsInv(buffers', log, calls[i := c])
  {
    var calls' := calls[i := c];
    forall j | 0 <= j < |calls'| ensures CallInv(buffers', log, j, calls'[j]) {
      assert CallInv(buffers, log, j, calls[j]);
    }
  }

  lemma RegisterKeepsCalls(s: State, i: nat)
    requires CallsInv(s.reg.buffers, s.log, s.calls) && i < |s.calls| && Step(s, Register(i)).Some?
    ensures var s' := Step(s, Register(i)).value;
            CallsInv(s'.reg.buffers, s'.log, s'.calls) && Waits(s'.calls[i], s'.log) && !Waits(s.calls[i], s.log)
  {
    var s' := Step(s, Register(i)).value;
    assert First(s.log, |s.log|, s.calls[i].key) == None;
    assert CallInv(s.reg.buffers, s.log, i, s.calls[i]);
    CallsUpdate(s.reg.buffers, s'.reg.buffers, s.log, s.calls, i, s'.calls[i]);
  }

  lemma RegisterKeepsInv(s: State, i: nat)
    requires Inv(s) && i < |s.calls| && Step(s, Register(i)).Some?
    ensures Inv(Step(s, Register(i)).value)
  {
    hide CallInv, ListOk, CallsInv, Waits;
    var s' := Step(s, Register(i)).value;
    RegisterKeepsCalls(s, i);
    CallUpdate(s, i, s'.calls[i]);
    AddKeepsRegistry(s.reg.(buffers := s'.reg.buffers), Keys(s.calls), WaitSet(s.calls, s.log), i);
  }

  /** One step of a call, seen from that call alone. */
  lemma CallStepKeepsCall(s: State, i: nat, a: Action)
    requires i < |s.calls| && CallInv(s.reg.buffers, s.log, i, s.calls[i])
    requires a.Unregister? || a.GetKey? || a.Receive? || a.Expire?
    requires CallStep(s, i, a).Some?
    ensures var s' := CallStep(s, i, a).value;
            && s'.calls == s.calls[i := s'.calls[i]] && s'.log == s.log
            && s'.calls[i].key == s.calls[i].key
            && CallInv(s'.reg.buffers, s.log, i, s'.calls[i])
            && (forall j | j in s.reg.buffers && j != i ::
                  j in s'.reg.buffers && s'.reg.buffers[j] == s.reg.buffers[j])
            && (if a.Unregister? then !Waits(s'.calls[i], s.log) && s'.reg == Del(s.reg, s.calls[i].key, i)
                else Waits(s'.calls[i], s.log) == Waits(s.calls[i], s.log)
                     && s'.reg == s.reg.(buffers := s'.reg.buffers))
  {
    assert s.log[..|s.log|] == s.log;
  }

  lemma CallStepKeepsInv(s: State, i: nat, a: Action)
    requires Inv(s) && i < |s.calls| && CallStep(s, i, a).Some?
    requires a.Unregister? || a.GetKey? || a.Receive? || a.Expire?
    ensures Inv(CallStep(s, i, a).value)
  {
    assert CallInv(s.reg.buffers, s.log, i, s.calls[i]);
    CallStepKeepsCall(s, i, a);
    var s' := CallStep(s, i, a).value;
    CallUpdate(s, i, s'.calls[i]);
    CallsUpdate(s.reg.buffers, s'.reg.buffers, s.log, s.calls, i, s'.calls[i]);
    var keys, w := Keys(s.calls), WaitSet(s.calls, s.log);
    if a.Unregister? {
      DelKeepsRegistry(s.reg, keys, w, i);
    } else {
      assert WaitSet(s'.calls, s.log) == w;
      RegistryFrame(s.reg, s'.reg, keys, w);
    }
  }

  lemma RegistryFrame(reg: Registry, reg': Registry, keys: seq<Key>, waiting: set<Chan>)
    requires RegistryInv(reg, keys, waiting) && reg' == reg.(buffers := reg'.buffers)
    ensures RegistryInv(reg', keys, waiting)
  {
    assert forall key :: Listeners(reg', key) == Listeners(reg, key);
  }

  // ---------------------------------------------------------------------------
  // Notifications
  // ---------------------------------------------------------------------------

  /** The send made under the mutex never blocks. */
  lemma NotifyNeverBlocks(s: State, key: Key)
    requires Inv(s)
    ensures SlotsFree(s.reg, Listeners(s.reg, key))
  {
    var list := Listeners(s.reg, key);
    if key in s.reg.watchers {
      assert ListOk(list, key, Keys(s.calls), WaitSet(s.calls, s.log));
      forall c | c in list ensures c in s.reg.buffers && s.reg.buffers[c] == [] {
        assert CallInv(s.reg.buffers, s.log, c, s.calls[c]);
      }
    }
  }

  lemma NotifyKeepsCalls(s: State, m: Msg)
    requires Inv(s)
    ensures CallsInv(Notify(s.reg, m.key, m.value).buffers, s.log + [m], s.calls)
  {
    var list := Listeners(s.reg, m.key);
    var reg' := Notify(s.reg, m.key, m.value);
    var log' := s.log + [m];
    assert m.key in s.reg.watchers ==> ListOk(list, m.key, Keys(s.calls), WaitSet(s.calls, s.log));
    forall i | 0 <= i < |s.calls| ensures CallInv(reg'.buffers, log', i, s.calls[i]) {
      var c := s.calls[i];
      assert CallInv(s.reg.buffers, s.log, i, c);
      if c.regAt <= |s.log| {
        FirstAppend(s.log, c.regAt, c.key, m);
      }
      assert i in list <==> Waits(c, s.log) && c.key == m.key by {
        if Waits(c, s.log) && c.key == m.key {
          assert i in WaitSet(s.calls, s.log);
        }
      }
      if c.pc.Returned? {
        assert log'[..c.endAt] == s.log[..c.endAt];
      }
    }
  }

  lemma NotifyWaitSet(s: State, m: Msg)
    requires Inv(s)
    ensures WaitSet(s.calls, s.log + [m])
            == set c | c in WaitSet(s.calls, s.log) && Keys(s.calls)[c] != m.key
  {
    forall i | 0 <= i < |s.calls| && Active(s.calls[i])
      ensures Waits(s.calls[i], s.log + [m]) <==> Waits(s.calls[i], s.log) && s.calls[i].key != m.key
    {
      assert CallInv(s.reg.buffers, s.log, i, s.calls[i]);
      FirstAppend(s.log, s.calls[i].regAt, s.calls[i].key, m);
    }
  }

  lemma NotifyKeepsInv(s: State, m: Msg)
    requires Inv(s)
    ensures Inv(s.(reg := Notify(s.reg, m.key, m.value), log := s.log + [m]))
  {
    NotifyKeepsCalls(s, m);
    NotifyWaitSet(s, m);
    NotifyKeepsRegistry(s.reg, Keys(s.calls), WaitSet(s.calls, s.log), m.key, m.value);
  }

  lemma StepKeepsInv(s: State, a: Action)
    requires Inv(s) && Step(s, a).Some?
    ensures Inv(Step(s, a).value)
  {
    match a {
      case Register(i) => RegisterKeepsInv(s, i);
      case Unregister(i) => CallStepKeepsInv(s, i, a);
      case GetKey(i, _) => CallStepKeepsInv(s, i, a);
      case Receive(i) => CallStepKeepsInv(s, i, a);
      case Expire(i) => CallStepKeepsInv(s, i, a);
      case Deliver =>
        if Parse(s.queue[0]).Some? {
          NotifyKeepsInv(s, Parse(s.queue[0]).value);
        }
      case _ =>
    }
  }

  lemma {:induction false} RunKeepsInv(s: State, acts: seq<Action>)
    requires Inv(s) && Run(s, acts).Some?
    ensures Inv(Run(s, acts).value)
    decreases |acts|
  {
    if acts != [] {
      StepKeepsInv(s, acts[0]);
      RunKeepsInv(Step(s, acts[0]).value, acts[1..]);
    }
  }

  lemma ReachableInv(s: State)
    requires Reachable(s)
    ensures Inv(s)
  {
    var s0, acts :| Initial(s0) && Run(s0, acts) == Some(s);
    InitialInv(s0);
    RunKeepsInv(s0, acts);
  }

  // ---------------------------------------------------------------------------
  // What callers can rely on
  // ---------------------------------------------------------------------------

  /**
   In every reachable state a waiting call is listed once, under its own key, with
   an empty channel; nothing else is listed; no list is empty; the gauge counts the
   waiting calls; and no notification can block while the mutex is held.
   */
  lemma GlobalInvariant(s: State)
    requires Reachable(s)
    ensures forall c | 0 <= c < |s.calls| && Waits(s.calls[c], s.log) ::
              && multiset(Listeners(s.reg, s.calls[c].key))[c] == 1
              && c in s.reg.buffers && s.reg.buffers[c] == []
    ensures forall key, c | c in Listeners(s.reg, key) ::
              c < |s.calls| && Waits(s.calls[c], s.log) && s.calls[c].key == key
    ensures forall key | key in s.reg.watchers :: s.reg.watchers[key] != []
    ensures s.reg.gauge == |WaitSet(s.calls, s.log)|
    ensures forall key :: SlotsFree(s.reg, Listeners(s.reg, key))
    ensures s.queue != [] ==> Step(s, Deliver).Some?
  {
    ReachableInv(s);
    forall key ensures SlotsFree(s.reg, Listeners(s.reg, key)) {
      NotifyNeverBlocks(s, key);
    }
    forall c | 0 <= c < |s.calls| && Waits(s.calls[c], s.log)
      ensures multiset(Listeners(s.reg, s.calls[c].key))[c] == 1
      ensures c in s.reg.buffers && s.reg.buffers[c] == []
    {
      assert c in WaitSet(s.calls, s.log) && c in Listeners(s.reg, Keys(s.calls)[c]);
      OnceInList(Listeners(s.reg, s.calls[c].key), c);
      assert CallInv(s.reg.buffers, s.log, c, s.calls[c]);
    }
    forall key, c | c in Listeners(s.reg, key)
      ensures c < |s.calls| && Waits(s.calls[c], s.log) && s.calls[c].key == key
    {
      assert ListOk(s.reg.watchers[key], key, Keys(s.calls), WaitSet(s.calls, s.log));
    }
    forall key | key in s.reg.watchers ensures s.reg.watchers[key] != [] {
      assert ListOk(s.reg.watchers[key], key, Keys(s.calls), WaitSet(s.calls, s.log));
    }
  }

  lemma {:induction false} OnceInList(list: seq<Chan>, c: Chan)
    requires NoDuplicates(list)
    ensures multiset(list)[c] == if c in list then 1 else 0
  {
    if list != [] {
      assert list == [list[0]] + list[1..];
      OnceInList(list[1..], c);
      assert list[0] !in list[1..];
    }
  }

  /**
   The result of a returned call, exactly, from what its GET found and what it has
   received, which is nothing or the first notification for its key processed between
   its registration and its removal. A call that returned is not listed any more.
   */
  lemma ResultFixed(s: State, i: nat)
    requires Reachable(s) && i < |s.calls| && s.calls[i].pc.Returned?
    ensures s.calls[i].regAt <= s.calls[i].endAt <= |s.log|
    ensures var c := s.calls[i];
            && (c.got.Some? ==> c.got == First(s.log[..c.endAt], c.regAt, c.key))
            && (c.pc.res == Outcome(AlreadyChanged, false) <==> c.get.Found? && c.get.value != c.value)
            && (c.pc.res == Outcome(SeenChange, false) <==>
                  c.get == Found(c.value) && c.got.Some? && c.got.value != "" && c.got.value != c.value)
            && (c.pc.res == Outcome(NoChange, false) <==>
                  c.get == Found(c.value) && c.got == Some(c.value) && c.value != "")
            && (c.pc.res == Outcome(NoChange, true) <==>
                  c.get == GetFailed || (c.get == Found(c.value) && c.got == Some("")))
            && (c.pc.res == Outcome(Timeout, false) <==> c.get == Found(c.value) && c.got == None)
    ensures forall key :: i !in Listeners(s.reg, key)
  {
    ReachableInv(s);
    assert CallInv(s.reg.buffers, s.log, i, s.calls[i]);
    forall key ensures i !in Listeners(s.reg, key) {
      if key in s.reg.watchers {
        assert ListOk(s.reg.watchers[key], key, Keys(s.calls), WaitSet(s.calls, s.log));
      }
    }
  }

  predicate TimesOut(pc: Pc) { (pc.Unregistering? || pc.Returned?) && pc.res.status == Timeout }

  /** Which way a call leaves its GET and its select. */
  lemma LeavesFor(s: State, i: nat, a: Action, t: State)
    requires i < |s.calls| && Step(s, a) == Some(t)
    ensures |t.calls| == |s.calls|
    ensures TimesOut(t.calls[i].pc) <==> TimesOut(s.calls[i].pc) || a == Expire(i)
    ensures a.GetKey? && a.i == i ==>
              var c := s.calls[i];
              && (forall v :: t.calls[i].get == Found(v) <==> a.ok && c.key in s.redis && s.redis[c.key] == v)
              && (t.calls[i].get == GetFailed <==> !a.ok || c.key !in s.redis)
              && (t.calls[i].pc == Selecting <==> a.ok && c.key in s.redis && s.redis[c.key] == c.value)
    ensures a == Receive(i) ==>
              i in s.reg.buffers && s.reg.buffers[i] != [] && t.calls[i].got == Some(s.reg.buffers[i][0])
  {
    hide Add, Del, Notify, Parse, SlotsFree;
  }

  /** A call times out if and only if its own timer fires. */
  lemma {:induction false} TimesOutIff(s: State, acts: seq<Action>, t: State, i: nat)
    requires i < |s.calls| && Run(s, acts) == Some(t)
    ensures |t.calls| == |s.calls|
    ensures TimesOut(t.calls[i].pc) <==> TimesOut(s.calls[i].pc) || Expire(i) in acts
    decreases |acts|
  {
    if acts != [] {
      var s' := Step(s, acts[0]).value;
      assert acts == [acts[0]] + acts[1..];
      LeavesFor(s, i, acts[0], s');
      TimesOutIff(s', acts[1..], t, i);
    }
  }

  // ---------------------------------------------------------------------------
  // No lost wakeup
  // ---------------------------------------------------------------------------

  predicate About(data: string, key: Key) { Parse(data).Some? && Parse(data).value.key == key }

  /** A notification for the key is still on its way. */
  predicate Pending(s: State, key: Key) {
    || (exists m | m in s.unpublished :: m.key == key)
    || (exists d | d in s.queue :: About(d, key))
  }

  /** In the select, not notified, and Redis holds another value by now. */
  predicate Stale(s: State, c: Call) {
    && c.pc.Selecting? && Waits(c, s.log) && '=' !in c.key
    && c.key in s.redis && s.redis[c.key] != c.value
  }

  predicate WakeInv(s: State) {
    !s.lost ==> forall i | 0 <= i < |s.calls| && Stale(s, s.calls[i]) :: Pending(s, s.calls[i].key)
  }

  lemma PublishKeepsPending(s: State, j: nat, key: Key)
    requires j < |s.unpublished| && Pending(s, key) && '=' !in key
    ensures Pending(Step(s, Publish(j)).value, key)
  {
    var s' := Step(s, Publish(j)).value;
    if m :| m in s.unpublished && m.key == key {
      if m == s.unpublished[j] {
        ParseUndoesFormat(m);
        assert Format(m) in s'.queue && About(Format(m), key);
      } else {
        assert s.unpublished == s.unpublished[..j] + [s.unpublished[j]] + s.unpublished[j + 1..];
        assert m in s'.unpublished;
      }
    } else {
      var d :| d in s.queue && About(d, key);
      assert d in s'.queue;
    }
  }

  /** After a delivery the notification is still on its way or the call is told. */
  lemma DeliverKeepsPending(s: State, i: nat)
    requires Inv(s) && i < |s.calls| && Waits(s.calls[i], s.log) && Pending(s, s.calls[i].key)
    requires Step(s, Deliver).Some?
    ensures var s' := Step(s, Deliver).value;
            s'.calls == s.calls && (Pending(s', s.calls[i].key) || !Waits(s.calls[i], s'.log))
  {
    var s' := Step(s, Deliver).value;
    var c := s.calls[i];
    assert CallInv(s.reg.buffers, s.log, i, c);
    assert s.queue == [s.queue[0]] + s.queue[1..];
    if About(s.queue[0], c.key) {
      FirstAppend(s.log, c.regAt, c.key, Parse(s.queue[0]).value);
    } else if m :| m in s.unpublished && m.key == c.key {
      assert m in s'.unpublished;
    } else {
      var d :| d in s.queue && About(d, c.key);
      assert d in s'.queue;
    }
  }

  lemma WaitsStays(s: State, m: Msg, c: Call)
    requires c.regAt <= |s.log| && Waits(c, s.log + [m])
    ensures Waits(c, s.log)
  {
    FirstAppend(s.log, c.regAt, c.key, m);
  }

  lemma StepKeepsWake(s: State, a: Action)
    requires Inv(s) && WakeInv(s) && Step(s, a).Some?
    ensures WakeInv(Step(s, a).value)
  {
    hide RegistryInv, ListOk, NoDuplicates;
    var s' := Step(s, a).value;
    if !s'.lost {
      forall i | 0 <= i < |s'.calls| && Stale(s', s'.calls[i]) ensures Pending(s', s'.calls[i].key) {
        var c, c' := s.calls[i], s'.calls[i];
        assert CallInv(s.reg.buffers, s.log, i, c);
        match a {
          case Publish(j) => PublishKeepsPending(s, j, c.key);
          case SetKey(m) =>
            if m.key == c.key {
              assert m in s'.unpublished;
            } else {
              assert Stale(s, c);
              PendingGrows(s, s', c.key);
            }
          case Deliver =>
            if Parse(s.queue[0]).Some? {
              WaitsStays(s, Parse(s.queue[0]).value, c);
            }
            assert Stale(s, c);
            DeliverKeepsPending(s, i);
          case DropKey(_) =>
            assert Stale(s, c);
            PendingGrows(s, s', c.key);
          case Disconnect =>
          case _ =>
            assert c' == c || c.pc.Registered? || c.pc.Start?;
            if c' == c {
              assert Stale(s, c);
              PendingGrows(s, s', c.key);
            }
        }
      }
    }
  }

  lemma PendingGrows(s: State, s': State, key: Key)
    requires Pending(s, key) && s.queue == s'.queue
    requires forall m | m in s.unpublished :: m in s'.unpublished
    ensures Pending(s', key)
  {
    if m :| m in s.unpublished && m.key == key {
      assert m in s'.unpublished;
    } else {
      var d :| d in s.queue && About(d, key);
      assert d in s'.queue;
    }
  }

  lemma {:induction false} RunKeepsWake(s: State, acts: seq<Action>)
    requires Inv(s) && WakeInv(s) && Run(s, acts).Some?
    ensures WakeInv(Run(s, acts).value)
    decreases |acts|
  {
    if acts != [] {
      StepKeepsInv(s, acts[0]);
      StepKeepsWake(s, acts[0]);
      RunKeepsWake(Step(s, acts[0]).value, acts[1..]);
    }
  }

  /**
   Registration precedes the GET, so a call that has seen its own value, has not
   been notified and is outdated by now always has a notification on its way,
   unless a connection loss has dropped some.
   */
  lemma NoLostWakeup(s: State, i: nat)
    requires Reachable(s) && !s.lost && i < |s.calls| && Stale(s, s.calls[i])
    ensures Pending(s, s.calls[i].key)
  {
    var s0, acts :| Initial(s0) && Run(s0, acts) == Some(s);
    InitialInv(s0);
    RunKeepsWake(s0, acts);
  }

  /** A connection loss takes what was published: the condition of NoLostWakeup is needed. */
  lemma LossDropsTheWakeup(s: State, i: nat)
    requires i < |s.calls| && Stale(s, s.calls[i]) && forall m | m in s.unpublished :: m.key != s.calls[i].key
    ensures Step(s, Disconnect).Some?
    ensures var t := Step(s, Disconnect).value;
            t.lost && t.calls == s.calls && Stale(t, t.calls[i]) && !Pending(t, t.calls[i].key)
  {
  }

  /** The last command of the run about a key. */
  function LastWrite(acts: seq<Action>, key: Key): Option<Action> {
    if acts == [] then None
    else
      var a := acts[|acts| - 1];
      if (a.SetKey? && a.m.key == key) || a == DropKey(key) then Some(a) else LastWrite(acts[..|acts| - 1], key)
  }

  /** Redis holds what was set last. */
  lemma {:induction false} RedisHoldsTheLast(s: State, acts: seq<Action>, t: State, key: Key)
    requires Run(s, acts) == Some(t)
    ensures match LastWrite(acts, key)
            case None => (key in t.redis <==> key in s.redis) && (key in t.redis ==> t.redis[key] == s.redis[key])
            case Some(SetKey(m)) => key in t.redis && t.redis[key] == m.value
            case Some(_) => key !in t.redis
    decreases |acts|
  {
    if acts != [] {
      var n := |acts| - 1;
      assert acts == acts[..n] + [acts[n]];
      RunSplit(s, acts[..n], acts[n]);
      var u := Run(s, acts[..n]).value;
      RedisAfter(u, acts[n], t, key);
      RedisHoldsTheLast(s, acts[..n], u, key);
      hide Step, Run;
    }
  }

  lemma RedisAfter(s: State, a: Action, t: State, key: Key)
    requires Step(s, a) == Some(t)
    ensures a.SetKey? && a.m.key == key ==> key in t.redis && t.redis[key] == a.m.value
    ensures a == DropKey(key) ==> key !in t.redis
    ensures !(a.SetKey? && a.m.key == key) && a != DropKey(key) ==>
              (key in t.redis <==> key in s.redis) && (key in t.redis ==> t.redis[key] == s.redis[key])
  {
    hide CallStep, DeliverStep;
    if a.Register? || a.Unregister? || a.GetKey? || a.Receive? || a.Expire? {
      CallLeavesRedis(s, a.i, a);
    } else if a.Deliver? {
      DeliveryLeavesRedis(s);
    }
  }

  lemma CallLeavesRedis(s: State, i: nat, a: Action)
    requires i < |s.calls| && CallStep(s, i, a).Some?
    ensures CallStep(s, i, a).value.redis == s.redis
  {
  }

  lemma DeliveryLeavesRedis(s: State)
    requires s.queue != [] && DeliverStep(s).Some?
    ensures DeliverStep(s).value.redis == s.redis
  {
  }

  lemma {:induction false} RunSplit(s: State, acts: seq<Action>, a: Action)
    requires Run(s, acts + [a]).Some?
    ensures Run(s, acts).Some? && Step(Run(s, acts).value, a) == Run(s, acts + [a])
    decreases |acts|
  {
    if acts == [] {
      assert [a][1..] == [] && acts + [a] == [a];
    } else {
      assert (acts + [a])[1..] == acts[1..] + [a];
      RunSplit(Step(s, acts[0]).value, acts[1..], a);
    }
  }

  /** Publishing and delivering what is on its way wakes the call, whatever else is
      in the queue before it. */
  lemma {:induction false} PendingWakes(s: State, i: nat) returns (acts: seq<Action>)
    requires Inv(s) && i < |s.calls| && Waits(s.calls[i], s.log) && s.calls[i].pc.Selecting?
    requires '=' !in s.calls[i].key && Pending(s, s.calls[i].key)
    ensures forall a | a in acts :: a == Publish(0) || a == Deliver
    ensures Run(s, acts).Some?
    ensures var s' := Run(s, acts).value;
            s'.calls == s.calls && i in s'.reg.buffers && s'.reg.buffers[i] != []
    decreases 2 * |s.unpublished| + |s.queue|
  {
    hide RegistryInv, ListOk, NoDuplicates;
    var a := if s.unpublished != [] then Publish(0) else Deliver;
    if a == Deliver {
      if Parse(s.queue[0]).Some? {
        NotifyNeverBlocks(s, Parse(s.queue[0]).value.key);
      }
      DeliverKeepsPending(s, i);
    } else {
      PublishKeepsPending(s, 0, s.calls[i].key);
    }
    StepKeepsInv(s, a);
    var s1 := Step(s, a).value;
    assert CallInv(s1.reg.buffers, s1.log, i, s1.calls[i]);
    if Waits(s1.calls[i], s1.log) {
      var rest := PendingWakes(s1, i);
      acts := [a] + rest;
      assert acts[1..] == rest;
    } else {
      acts := [a];
      assert acts[1..] == [];
    }
  }

  /** An outdated call can always be woken by the subscription alone. */
  lemma StaleCallIsWoken(s: State, i: nat) returns (acts: seq<Action>)
    requires Reachable(s) && !s.lost && i < |s.calls| && Stale(s, s.calls[i])
    ensures forall a | a in acts :: a == Publish(0) || a == Deliver
    ensures Run(s, acts).Some? && Step(Run(s, acts).value, Receive(i)).Some?
  {
    ReachableInv(s);
    NoLostWakeup(s, i);
    acts := PendingWakes(s, i);
  }
}
