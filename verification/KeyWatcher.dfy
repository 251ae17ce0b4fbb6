/**
 The Redis key watcher (internal/redis/keywatcher.go): a mutex-guarded map from
 keys to lists of one-slot channels, notified from one subscription.
 */
module KeyWatcher {
  import opened Wrappers

  type Key = string
  type Value = string
  type Chan = nat

  /** The global map, the contents of the channels and the gauge of watchers. */
  datatype Registry = Registry(
    watchers: map<Key, seq<Chan>>,
    buffers: map<Chan, seq<Value>>,
    gauge: int)

  // ---------------------------------------------------------------------------
  // The three critical sections
  // ---------------------------------------------------------------------------

  function Listeners(r: Registry, key: Key): seq<Chan> {
    if key in r.watchers then r.watchers[key] else []
  }

  function Add(r: Registry, key: Key, c: Chan): Registry {
    Registry(r.watchers[key := Listeners(r, key) + [c]], r.buffers, r.gauge + 1)
  }

  /** The list without the first occurrence of c. */
  function Without(list: seq<Chan>, c: Chan): seq<Chan> {
    if list == [] then []
    else if list[0] == c then list[1..]
    else [list[0]] + Without(list[1..], c)
  }

  function Del(r: Registry, key: Key, c: Chan): Registry {
    if key !in r.watchers then r
    else
      var left := Without(r.watchers[key], c);
      Registry(if left == [] then r.watchers - {key} else r.watchers[key := left], r.buffers,
               if c in r.watchers[key] then r.gauge - 1 else r.gauge)
  }

  /** What each channel holds after the value has been sent to all of `list`. */
  function SendAll(buffers: map<Chan, seq<Value>>, list: seq<Chan>, value: Value): map<Chan, seq<Value>> {
    map c | c in buffers :: if c in list then buffers[c] + [value] else buffers[c]
  }

  function Notify(r: Registry, key: Key, value: Value): Registry {
    var list := Listeners(r, key);
    Registry(r.watchers - {key}, SendAll(r.buffers, list, value), r.gauge - |list|)
  }

  predicate NoDuplicates(list: seq<Chan>) {
    forall i, j | 0 <= i < j < |list| :: list[i] != list[j]
  }

  /** No send of a notification would block: every slot is free. */
  predicate SlotsFree(r: Registry, list: seq<Chan>) {
    && NoDuplicates(list)
    && forall c | c in list :: c in r.buffers && r.buffers[c] == []
  }

  lemma {:induction false} WithoutSplit(list: seq<Chan>, i: nat, c: Chan)
    requires i < |list| && list[i] == c && c !in list[..i]
    ensures Without(list, c) == list[..i] + list[i + 1..]
  {
    if i > 0 {
      assert list[..i][0] == list[0];
      assert list[1..][..i - 1] == list[..i][1..];
      WithoutSplit(list[1..], i - 1, c);
      assert list[..i] == [list[0]] + list[1..][..i - 1];
    }
  }

  lemma {:induction false} WithoutAbsent(list: seq<Chan>, c: Chan)
    requires c !in list
    ensures Without(list, c) == list
  {
    if list != [] {
      WithoutAbsent(list[1..], c);
    }
  }

  /** The next slot is still free, and filling it extends the notification by one. */
  lemma SendOneMore(buffers: map<Chan, seq<Value>>, list: seq<Chan>, i: nat, value: Value)
    requires i < |list| && NoDuplicates(list)
    requires forall c | c in list :: c in buffers && buffers[c] == []
    ensures var sent := SendAll(buffers, list[..i], value);
            && list[i] in sent && sent[list[i]] == []
            && SendAll(buffers, list[..i + 1], value) == sent[list[i] := [value]]
  {
    var c := list[i];
    assert c in list && c !in list[..i];
    assert list[..i + 1] == list[..i] + [c];
    assert [] + [value] == [value];
  }

  class Watchers {
    var keyWatcher: map<Key, seq<Chan>>
    var buffers: map<Chan, seq<Value>>
    var keyWatchers: int

    ghost function Contents(): Registry
      reads this
    {
      Registry(keyWatcher, buffers, keyWatchers)
    }

    constructor ()
      ensures Contents() == Registry(map[], map[], 0)
    {
      keyWatcher, buffers, keyWatchers := map[], map[], 0;
    }

    method AddKeyChan(key: Key, c: Chan)
      modifies this
      ensures Contents() == Add(old(Contents()), key, c)
    {
      var list := if key in keyWatcher then keyWatcher[key] else [];
      keyWatcher := keyWatcher[key := list + [c]];
      keyWatchers := keyWatchers + 1;
    }

    /** Removes the first match by joining what is before and after it. */
    method DelKeyChan(key: Key, c: Chan)
      modifies this
      ensures Contents() == Del(old(Contents()), key, c)
    {
      if key in keyWatcher {
        var chans := keyWatcher[key];
        var i := 0;
        while i < |chans| && chans[i] != c
          invariant i <= |chans| && c !in chans[..i]
        {
          i := i + 1;
        }
        if i < |chans| {
          WithoutSplit(chans, i, c);
          keyWatcher := keyWatcher[key := chans[..i] + chans[i + 1..]];
          keyWatchers := keyWatchers - 1;
        } else {
          assert chans[..i] == chans;
          WithoutAbsent(chans, c);
        }
        if |keyWatcher[key]| == 0 {
          assert old(keyWatcher) - {key} == old(keyWatcher)[key := []] - {key};
          keyWatcher := keyWatcher - {key};
        } else {
          assert old(keyWatcher)[key := keyWatcher[key]] == keyWatcher;
        }
      }
    }

    /** The send made under the mutex: it would block on a full slot. */
    method Send(c: Chan, value: Value)
      requires c in buffers && buffers[c] == []
      modifies this`buffers
      ensures buffers == old(buffers)[c := [value]]
    {
      assert buffers[c] + [value] == [value];
      buffers := buffers[c := buffers[c] + [value]];
    }

    method NotifyChanWatchers(key: Key, value: Value)
      requires SlotsFree(Contents(), Listeners(Contents(), key))
      modifies this
      ensures Contents() == Notify(old(Contents()), key, value)
    {
      if key in keyWatcher {
        var chanList := keyWatcher[key];
        for i := 0 to |chanList|
          invariant keyWatcher == old(keyWatcher) && keyWatchers == old(keyWatchers) - i
          invariant buffers == SendAll(old(buffers), chanList[..i], value)
        {
          SendOneMore(old(buffers), chanList, i, value);
          Send(chanList[i], value);
          keyWatchers := keyWatchers - 1;
        }
        assert chanList[..|chanList|] == chanList;
        keyWatcher := keyWatcher - {key};
      } else {
        assert keyWatcher - {key} == keyWatcher;
        assert SendAll(buffers, [], value) == buffers;
      }
    }
  }

  // ---------------------------------------------------------------------------
  // Notifications on the wire
  // ---------------------------------------------------------------------------

  datatype Msg = Msg(key: Key, value: Value)

  function IndexOfEquals(s: string): Option<nat> {
    if s == "" then None
    else if s[0] == '=' then Some(0)
    else match IndexOfEquals(s[1..])
      case None => None
      case Some(i) => Some(i + 1)
  }

  lemma {:induction false} IndexOfEqualsIsFirst(s: string)
    ensures IndexOfEquals(s) == None <==> '=' !in s
    ensures IndexOfEquals(s).Some? ==>
              var i := IndexOfEquals(s).value; i < |s| && s[i] == '=' && '=' !in s[..i]
  {
    if s != "" {
      IndexOfEqualsIsFirst(s[1..]);
      if s[0] != '=' {
        assert s == [s[0]] + s[1..];
        if IndexOfEquals(s).Some? {
          var i := IndexOfEquals(s).value;
          assert s[..i] == [s[0]] + s[1..][..i - 1];
        }
      }
    }
  }

  /** SplitN(data, "=", 2): the key ends at the first equals sign. */
  function Parse(data: string): Option<Msg> {
    IndexOfEqualsIsFirst(data);
    match IndexOfEquals(data)
    case None => None
    case Some(i) => Some(Msg(data[..i], data[i + 1..]))
  }

  function Format(m: Msg): string { m.key + "=" + m.value }

  lemma {:induction false} FirstEquals(key: Key, value: Value)
    requires '=' !in key
    ensures IndexOfEquals(key + "=" + value) == Some(|key|)
  {
    var data := key + "=" + value;
    if key != "" {
      assert key == [key[0]] + key[1..];
      assert data[1..] == key[1..] + "=" + value;
      FirstEquals(key[1..], value);
    }
  }

  /** A notification is understood exactly when its key has no equals sign. */
  lemma ParseUndoesFormat(m: Msg)
    ensures Parse(Format(m)) == Some(m) <==> '=' !in m.key
  {
    var data := Format(m);
    IndexOfEqualsIsFirst(data);
    if '=' !in m.key {
      FirstEquals(m.key, m.value);
      assert data[..|m.key|] == m.key && data[|m.key| + 1..] == m.value;
    }
  }
}
