/**
 Web terminal messages: the wrappers of the four subprotocols and the copy loop
 between two wrapped connections (internal/terminal/wrappers.go, proxy.go:43-56).
 */
module Terminal {
  import opened Wrappers
  import opened Bytes
  import Base64

  const TEXT_MESSAGE := 1
  const BINARY_MESSAGE := 2

  datatype Message = Message(mt: int, data: Bytes)

  predicate IsData(mt: int) {
    mt == BINARY_MESSAGE || mt == TEXT_MESSAGE
  }

  /** What Wrap puts around a connection. */
  datatype Codec = Plain | Kube(base64: bool) | Gitlab(base64: bool)

  function Wrap(subprotocol: string): Codec {
    if subprotocol == "channel.k8s.io" then Kube(false)
    else if subprotocol == "base64.channel.k8s.io" then Kube(true)
    else if subprotocol == "terminal.gitlab.com" then Gitlab(false)
    else if subprotocol == "base64.terminal.gitlab.com" then Gitlab(true)
    else Plain
  }

  // ------------------------------------------------------------- the wire format

  /** The payload of a data message, None if its base64 is corrupt. */
  function Payload(c: Codec, data: Bytes): Option<Bytes> {
    match c
    case Plain => Some(data)
    case Gitlab(base64) => if base64 then Base64.Decode(data) else Some(data)
    case Kube(base64) =>
      if data == [] then Some([])   // no channel number: nothing to decode
      else if base64 then Base64.Decode(data[1..])
      else Some(data[1..])
  }

  /** The message that ReadMessage makes of one received. */
  function Received(c: Codec, m: Message): Option<Message> {
    if c.Plain? || !IsData(m.mt) then Some(m)
    else
      match Payload(c, m.data)
      case None => None
      case Some(data) => Some(Message(BINARY_MESSAGE, data))
  }

  /** The message that WriteMessage sends: kube data goes to channel 0. */
  function Sent(c: Codec, m: Message): Message {
    if c.Plain? || !IsData(m.mt) then m
    else
      match c
      case Gitlab(base64) =>
        if base64 then Message(TEXT_MESSAGE, Base64.Encode(m.data)) else Message(BINARY_MESSAGE, m.data)
      case Kube(base64) =>
        if base64 then Message(TEXT_MESSAGE, [48] + Base64.Encode(m.data)) else Message(BINARY_MESSAGE, [0] + m.data)
  }

  /** The four subprotocols by name, and what a data message looks like on the wire: kube data
      goes to channel 0, as a byte or as its digit; other messages go as they are. */
  lemma WireFormat(subprotocol: string, m: Message)
    ensures IsData(m.mt) <==> m.mt == 1 || m.mt == 2
    ensures IsData(m.mt) ==>
              && Sent(Wrap("terminal.gitlab.com"), m) == Message(2, m.data)
              && Sent(Wrap("base64.terminal.gitlab.com"), m) == Message(1, Base64.Encode(m.data))
              && Sent(Wrap("channel.k8s.io"), m) == Message(2, [0] + m.data)
              && Sent(Wrap("base64.channel.k8s.io"), m) == Message(1, ['0' as int] + Base64.Encode(m.data))
    ensures !IsData(m.mt) ==> Sent(Wrap(subprotocol), m) == m
    ensures subprotocol !in {"terminal.gitlab.com", "base64.terminal.gitlab.com",
                             "channel.k8s.io", "base64.channel.k8s.io"} ==>
              Sent(Wrap(subprotocol), m) == m && Received(Wrap(subprotocol), m) == Some(m)
  {
  }

  /** What is read of a data message: everything, or all after the channel, decoded if the name says so. */
  lemma ReadFormat(m: Message, channel: Byte, text: Bytes)
    requires IsData(m.mt)
    ensures Received(Wrap("terminal.gitlab.com"), m) == Some(Message(2, m.data))
    ensures Received(Wrap("channel.k8s.io"), Message(m.mt, [channel] + text)) == Some(Message(2, text))
    ensures Base64.Decode(text).Some? ==>
              && Received(Wrap("base64.terminal.gitlab.com"), Message(m.mt, text))
                 == Received(Wrap("base64.channel.k8s.io"), Message(m.mt, [channel] + text))
                 == Some(Message(2, Base64.Decode(text).value))
    ensures Base64.Decode(text).None? ==>
              && Received(Wrap("base64.terminal.gitlab.com"), Message(m.mt, text)) == None
              && Received(Wrap("base64.channel.k8s.io"), Message(m.mt, [channel] + text)) == None
    ensures forall s | s in {"channel.k8s.io", "base64.channel.k8s.io"} ::
              Received(Wrap(s), Message(m.mt, [])) == Some(Message(2, []))
  {
    assert ([channel] + text)[1..] == text;
  }

  /** The same message but for the frame type that carries the data. */
  predicate SameMessage(m: Message, n: Message) {
    m.data == n.data && (if IsData(m.mt) then IsData(n.mt) else m.mt == n.mt)
  }

  /** For every message and every subprotocol: what was written is read back. */
  lemma ReadUndoesWrite(c: Codec, m: Message)
    ensures Received(c, Sent(c, m)).Some? && SameMessage(m, Received(c, Sent(c, m)).value)
    ensures !c.Plain? && IsData(m.mt) ==> Received(c, Sent(c, m)) == Some(Message(BINARY_MESSAGE, m.data))
    ensures !IsData(m.mt) ==> Sent(c, m) == m && Received(c, m) == Some(m)
  {
    Base64.DecodeUndoesEncode(m.data);
    if c.Kube? && IsData(m.mt) {
      assert Sent(c, m).data[1..] == if c.base64 then Base64.Encode(m.data) else m.data;
    }
  }

  /** Reading from Kubernetes coalesces all channels: the channel number makes no difference. */
  lemma ChannelsAreCoalesced(base64: bool, mt: int, channel: Byte, other: Byte, data: Bytes)
    requires IsData(mt)
    ensures Received(Kube(base64), Message(mt, [channel] + data)) == Received(Kube(base64), Message(mt, [other] + data))
  {
    assert ([channel] + data)[1..] == data == ([other] + data)[1..];
  }

  /** A message read under one subprotocol and written under another keeps its payload. */
  lemma TranscodingKeepsPayload(from: Codec, to: Codec, m: Message)
    requires Received(from, m).Some?
    ensures Received(to, Sent(to, Received(from, m).value)).Some?
    ensures SameMessage(Received(from, m).value, Received(to, Sent(to, Received(from, m).value)).value)
  {
    ReadUndoesWrite(to, Received(from, m).value);
  }

  // ------------------------------------------------------------------ connections

  /** The websocket below: messages still to come, then an error; `room` more writes succeed. */
  class Conn {
    var incoming: seq<Message>
    var outgoing: seq<Message>
    var room: nat

    constructor (incoming: seq<Message>, room: nat)
      ensures this.incoming == incoming && outgoing == [] && this.room == room
    {
      this.incoming, outgoing, this.room := incoming, [], room;
    }

    method ReadMessage() returns (m: Option<Message>)
      modifies this`incoming
      ensures m == if old(incoming) == [] then None else Some(old(incoming)[0])
      ensures incoming == if old(incoming) == [] then [] else old(incoming)[1..]
    {
      if incoming == [] {
        return None;
      }
      m := Some(incoming[0]);
      incoming := incoming[1..];
    }

    method WriteMessage(m: Message) returns (ok: bool)
      modifies this`outgoing, this`room
      ensures ok == (old(room) > 0)
      ensures outgoing == if ok then old(outgoing) + [m] else old(outgoing)
      ensures room == if ok then old(room) - 1 else old(room)
    {
      ok := room > 0;
      if ok {
        outgoing := outgoing + [m];
        room := room - 1;
      }
    }
  }

  method DecodeBase64(data: Bytes) returns (out: Option<Bytes>)
    ensures out == Base64.Decode(data)
    ensures out.Some? ==> |out.value| <= |data| / 4 * 3
  {
    Base64.DecodedLength(data);
    out := Base64.Decode(data);
  }

  /** kubeWrapper, gitlabWrapper, or the bare connection, as `codec` says. */
  class Wrapper {
    const codec: Codec
    const conn: Conn

    constructor (conn: Conn, subprotocol: string)
      ensures this.conn == conn && codec == Wrap(subprotocol)
    {
      this.conn := conn;
      codec := Wrap(subprotocol);
    }

    method ReadMessage() returns (m: Option<Message>)
      modifies conn`incoming
      ensures m == if old(conn.incoming) == [] then None else Received(codec, old(conn.incoming)[0])
      ensures conn.incoming == if old(conn.incoming) == [] then [] else old(conn.incoming)[1..]
    {
      m := conn.ReadMessage();
      if m.None? || codec.Plain? || !IsData(m.value.mt) {
        return;
      }
      var data := m.value.data;
      if codec.Kube? {
        if |data| == 0 {
          return Some(Message(BINARY_MESSAGE, data));
        }
        data := data[1..];
      }
      if codec.base64 {
        var decoded := DecodeBase64(data);
        if decoded.None? {
          return None;
        }
        data := decoded.value;
      }
      m := Some(Message(BINARY_MESSAGE, data));
    }

    method WriteMessage(m: Message) returns (ok: bool)
      modifies conn`outgoing, conn`room
      ensures ok == (old(conn.room) > 0)
      ensures conn.outgoing == if ok then old(conn.outgoing) + [Sent(codec, m)] else old(conn.outgoing)
      ensures conn.room == if ok then old(conn.room) - 1 else old(conn.room)
    {
      var mt, data := m.mt, m.data;
      if IsData(mt) {
        match codec {
          case Plain =>
          case Gitlab(base64) =>
            if base64 {
              mt, data := TEXT_MESSAGE, Base64.Encode(data);
            } else {
              mt := BINARY_MESSAGE;
            }
          case Kube(base64) =>
            if base64 {
              mt, data := TEXT_MESSAGE, [48] + Base64.Encode(data);
            } else {
              mt, data := BINARY_MESSAGE, [0] + data;
            }
        }
      }
      ok := conn.WriteMessage(Message(mt, data));
    }
  }

  // ---------------------------------------------------------------- the copy loop

  datatype Stop = ReadFailed | WriteFailed

  /** The messages that can be read before the first corrupt one. */
  function Readable(c: Codec, ms: seq<Message>): seq<Message> {
    if ms == [] || Received(c, ms[0]).None? then [] else [Received(c, ms[0]).value] + Readable(c, ms[1..])
  }

  function SentAll(c: Codec, ms: seq<Message>): seq<Message> {
    seq(|ms|, k requires 0 <= k < |ms| => Sent(c, ms[k]))
  }

  /** What the reader on the far side makes of a sequence of messages it can read. */
  predicate SameMessages(ms: seq<Message>, ns: seq<Message>) {
    |ms| == |ns| && forall k :: 0 <= k < |ms| ==> SameMessage(ms[k], ns[k])
  }

  /** Everything sent under a subprotocol can be read again, in order, with the same payloads. */
  lemma {:induction false} FarSideReads(c: Codec, ms: seq<Message>)
    ensures SameMessages(ms, Readable(c, SentAll(c, ms)))
  {
    if ms != [] {
      ReadUndoesWrite(c, ms[0]);
      FarSideReads(c, ms[1..]);
      assert SentAll(c, ms)[1..] == SentAll(c, ms[1..]);
      forall k | 0 <= k < |ms|
        ensures SameMessage(ms[k], Readable(c, SentAll(c, ms))[k])
      {
        if k > 0 {
          assert ms[k] == ms[1..][k - 1];
        }
      }
    }
  }

  lemma {:induction false} ReadableIsPrefix(c: Codec, ms: seq<Message>, k: nat)
    requires k < |ms| && (forall j :: 0 <= j < k ==> Received(c, ms[j]).Some?)
    ensures Received(c, ms[k]).None? ==> |Readable(c, ms)| == k
    ensures Received(c, ms[k]).Some? ==> |Readable(c, ms)| > k && Readable(c, ms)[k] == Received(c, ms[k]).value
  {
    if k > 0 {
      assert ms[1..][k - 1] == ms[k];
      ReadableIsPrefix(c, ms[1..], k - 1);
    }
  }

  /**
   Proxy.proxy: relays until reading or writing fails. It sends exactly the readable
   messages, transcoded and in order, as far as the other side takes them.
   */
  method Proxy(to: Wrapper, from: Wrapper) returns (stop: Stop)
    requires to.conn != from.conn
    modifies to.conn`outgoing, to.conn`room, from.conn`incoming
    ensures var readable := Readable(from.codec, old(from.conn.incoming));
            && stop == (if |readable| <= old(to.conn.room) then ReadFailed else WriteFailed)
            && to.conn.outgoing == old(to.conn.outgoing)
                 + SentAll(to.codec, if stop.ReadFailed? then readable else readable[..old(to.conn.room)])
  {
    ghost var all := from.conn.incoming;
    ghost var readable := Readable(from.codec, all);
    ghost var room := to.conn.room;
    ghost var k := 0;
    while true
      invariant k <= |readable| && k <= room && k <= |all| && to.conn.room == room - k
      invariant from.conn.incoming == all[k..]
      invariant readable[k..] == Readable(from.codec, all[k..])
      invariant to.conn.outgoing == old(to.conn.outgoing) + SentAll(to.codec, readable[..k])
      decreases |from.conn.incoming|
    {
      assert all[k..] != [] ==> all[k..][1..] == all[k + 1..];
      var m := from.ReadMessage();
      if m.None? {
        assert readable[k..] == [];
        assert readable[..k] == readable;
        return ReadFailed;
      }
      assert readable[k] == readable[k..][0] == m.value;
      assert readable[k + 1..] == readable[k..][1..];
      var ok := to.WriteMessage(m.value);
      if !ok {
        return WriteFailed;
      }
      assert SentAll(to.codec, readable[..k + 1]) == SentAll(to.codec, readable[..k]) + [Sent(to.codec, readable[k])];
      k := k + 1;
    }
  }

  /** The terminal's end to end property: what one side sends is what the other side reads. */
  lemma ProxiedSessionKeepsPayloads(sender: Codec, receiver: Codec, typed: seq<Message>)
    ensures var relayed := SentAll(receiver, Readable(sender, SentAll(sender, typed)));
            SameMessages(typed, Readable(receiver, relayed))
  {
    FarSideReads(sender, typed);
    var read := Readable(sender, SentAll(sender, typed));
    FarSideReads(receiver, read);
    var last := Readable(receiver, SentAll(receiver, read));
    assert forall k :: 0 <= k < |typed| ==> SameMessage(typed[k], read[k]) && SameMessage(read[k], last[k]);
  }
}
