/**
 Git's pkt-lines (protocol-common, "pkt-line Format"): the splitter that
 bufio.Scanner calls on a growing buffer, and scanDeepen (internal/git/pktline.go).
 */
module PktLine {
  import opened Wrappers
  import opened Bytes

  const PREFIX_LENGTH: nat := 4
  const FLUSH: Bytes := [48, 48, 48, 48]                   // "0000"
  const DEEPEN: Bytes := [100, 101, 101, 112, 101, 110]    // "deepen"
  const PLUS: Byte := 43
  const MINUS: Byte := 45

  /** The longest line: its length is four hexadecimal digits. */
  const MAX_LENGTH: nat := 0xffff

  /** bufio.MaxScanTokenSize. */
  const MAX_BUFFER: nat := 65536

  // --------------------------------------------------------------- the splitter

  /** Digits of base 16, most significant first, or None. */
  function HexValue(s: Bytes): (v: Option<nat>) {
    if s == [] then Some(0)
    else
      var high := HexValue(s[..|s| - 1]);
      var low := DigitValue(s[|s| - 1] as char);
      if high.None? || low == 16 then None else Some(high.value * 16 + low)
  }

  function Signed(v: Option<nat>, negative: bool): Option<int> {
    if v.None? then None
    else
      var n: int := v.value;
      Some(if negative then -n else n)
  }

  /** strconv.ParseInt in base 16: one sign may come first. */
  function ParseInt(s: Bytes): Option<int>
    requires |s| == PREFIX_LENGTH
  {
    if s[0] == PLUS || s[0] == MINUS then Signed(HexValue(s[1..]), s[0] == MINUS) else Signed(HexValue(s), false)
  }

  /** The slice data[4:pktLength] crashes when the length is below four. */
  datatype Split = More | Token(advance: nat, payload: Bytes) | Failed | Crash

  function Splitter(data: Bytes, atEOF: bool): Split {
    if |data| < PREFIX_LENGTH then if atEOF && |data| > 0 then Failed else More
    else if data[..PREFIX_LENGTH] == FLUSH then Token(PREFIX_LENGTH, [])
    else
      match ParseInt(data[..PREFIX_LENGTH])
      case None => Failed
      case Some(length) =>
        if length < 0 then Failed
        else if |data| < length then if atEOF then Failed else More
        else if length < PREFIX_LENGTH then Crash
        else Token(length, data[PREFIX_LENGTH..length])
  }

  lemma {:induction false} HexValueBound(s: Bytes, bound: nat)
    requires |s| == 0 ==> bound >= 1
    requires |s| == 1 ==> bound >= 16
    requires |s| == 2 ==> bound >= 256
    requires |s| == 3 ==> bound >= 4096
    requires |s| == 4 ==> bound >= 65536
    requires |s| <= 4
    ensures HexValue(s).Some? ==> HexValue(s).value < bound
  {
    if s != [] {
      HexValueBound(s[..|s| - 1], if |s| == 1 then 1 else if |s| == 2 then 16 else if |s| == 3 then 256 else 4096);
    }
  }

  lemma ParsedLength(s: Bytes)
    requires |s| == PREFIX_LENGTH
    ensures ParseInt(s).Some? ==> ParseInt(s).value <= MAX_LENGTH
  {
    HexValueBound(s, 65536);
    HexValueBound(s[1..], 4096);
  }

  /** Tokens move forward and stay inside the buffer. */
  lemma TokenIsInside(data: Bytes, atEOF: bool)
    ensures var t := Splitter(data, atEOF);
            t.Token? ==> PREFIX_LENGTH <= t.advance <= |data| && t.payload == data[PREFIX_LENGTH..t.advance]
  {
  }

  /** A full buffer is never short of data: the scanner cannot fail with ErrTooLong. */
  lemma FullBufferSuffices(data: Bytes)
    requires Splitter(data, false).More?
    ensures |data| < MAX_LENGTH < MAX_BUFFER
  {
    if |data| >= PREFIX_LENGTH {
      ParsedLength(data[..PREFIX_LENGTH]);
    }
  }

  /** On a prefix the splitter asks for more or gives the final answer already. */
  lemma PrefixAgrees(data: Bytes, more: Bytes, atEOF: bool)
    ensures Splitter(data, false).More? || Splitter(data, false) == Splitter(data + more, atEOF)
  {
    if |data| >= PREFIX_LENGTH {
      assert (data + more)[..PREFIX_LENGTH] == data[..PREFIX_LENGTH];
      var t := Splitter(data, false);
      if t.Token? && t.advance <= |data| {
        assert (data + more)[PREFIX_LENGTH..t.advance] == data[PREFIX_LENGTH..t.advance];
      }
    }
  }

  const ZERO: Byte := 48

  /** "0001" to "0003", "+000" to "+003", and "-000": lengths below four but no flush packet. */
  predicate CrashPrefix(s: Bytes) {
    && |s| == PREFIX_LENGTH && s[1] == s[2] == ZERO
    && ((s[0] == ZERO && ZERO < s[3] <= ZERO + 3) || (s[0] == PLUS && ZERO <= s[3] <= ZERO + 3)
        || (s[0] == MINUS && s[3] == ZERO))
  }

  lemma SmallDigit(c: Byte, n: nat)
    requires n < 4
    ensures DigitValue(c as char) == n <==> c == ZERO + n
  {
  }

  lemma {:induction false} SmallValue(s: Bytes, n: nat)
    requires s != [] && n < 4
    ensures HexValue(s) == Some(n) <==>
            s[|s| - 1] == ZERO + n && forall k :: 0 <= k < |s| - 1 ==> s[k] == ZERO
  {
    var last := |s| - 1;
    SmallDigit(s[last], n);
    if last > 0 {
      SmallValue(s[..last], 0);
    }
  }

  /** The slice expression crashes exactly on the prefixes listed above, wherever the data ends. */
  lemma CrashIff(data: Bytes, atEOF: bool)
    ensures Splitter(data, atEOF).Crash? <==> |data| >= PREFIX_LENGTH && CrashPrefix(data[..PREFIX_LENGTH])
  {
    if |data| >= PREFIX_LENGTH {
      var s := data[..PREFIX_LENGTH];
      CrashLengths(s);
    }
  }

  lemma CrashLengths(s: Bytes)
    requires |s| == PREFIX_LENGTH
    ensures CrashPrefix(s) <==> s != FLUSH && ParseInt(s).Some? && 0 <= ParseInt(s).value < 4
  {
    assert s[1..] == [s[1], s[2], s[3]];
    SmallValue(s, 0);
    SmallValue(s, 1);
    SmallValue(s, 2);
    SmallValue(s, 3);
    SmallValue(s[1..], 0);
    SmallValue(s[1..], 1);
    SmallValue(s[1..], 2);
    SmallValue(s[1..], 3);
    hide HexValue;
    assert s == FLUSH <==> s[0] == s[1] == s[2] == s[3] == ZERO;
  }

  // ------------------------------------------------------ the whole buffer at once

  datatype End = AtEnd | Broken | Crashed

  datatype Parsed = Parsed(tokens: seq<Bytes>, end: End)

  function Parse(data: Bytes): Parsed
    decreases |data|
  {
    var t := Splitter(data, true);
    match t
    case More => Parsed([], AtEnd)
    case Failed => Parsed([], Broken)
    case Crash => Parsed([], Crashed)
    case Token(advance, payload) =>
      var rest := Parse(data[advance..]);
      Parsed([payload] + rest.tokens, rest.end)
  }

  predicate StartsWith(s: Bytes, prefix: Bytes) {
    |prefix| <= |s| && s[..|prefix|] == prefix
  }

  predicate HasDeepen(tokens: seq<Bytes>) {
    exists k :: 0 <= k < |tokens| && StartsWith(tokens[k], DEEPEN)
  }

  /** None is a crash. */
  function Answer(p: Parsed): Option<bool> {
    if HasDeepen(p.tokens) then Some(true) else if p.end.Crashed? then None else Some(false)
  }

  lemma AnswerAfter(token: Bytes, rest: Parsed)
    ensures Answer(Parsed([token] + rest.tokens, rest.end))
            == if StartsWith(token, DEEPEN) then Some(true) else Answer(rest)
  {
    var tokens := [token] + rest.tokens;
    assert tokens[0] == token;
    if HasDeepen(rest.tokens) {
      var k :| 0 <= k < |rest.tokens| && StartsWith(rest.tokens[k], DEEPEN);
      assert tokens[k + 1] == rest.tokens[k];
    }
    if HasDeepen(tokens) && !StartsWith(token, DEEPEN) {
      var k :| 0 <= k < |tokens| && StartsWith(tokens[k], DEEPEN);
      assert tokens[k] == rest.tokens[k - 1];
    }
  }

  /** The tokens up to n, none of which starts with "deepen", are followed by a crashing prefix. */
  predicate CrashesAt(data: Bytes, n: nat) {
    && n <= |data| && PREFIX_LENGTH <= |data| - n && CrashPrefix(data[n..][..PREFIX_LENGTH])
    && Parse(data[..n]).end.AtEnd? && !HasDeepen(Parse(data[..n]).tokens)
  }

  /** A first token can be cut off the front of both sides. */
  lemma CrashesAfterToken(data: Bytes, advance: nat, n: nat)
    requires advance <= n <= |data| && Splitter(data, true).Token? && Splitter(data, true).advance == advance > 0
    ensures CrashesAt(data, n) <==>
            CrashesAt(data[advance..], n - advance) && !StartsWith(Splitter(data, true).payload, DEEPEN)
  {
    var front := data[..n];
    assert front + data[n..] == data;
    var t := Splitter(data, true);
    TokenIsInside(data, true);
    TokenOfFront(data, n);
    assert front[advance..] == data[advance..][..n - advance];
    assert data[n..] == data[advance..][n - advance..];
    AnswerAfter(t.payload, Parse(front[advance..]));
    DeepenAfter(t.payload, Parse(front[advance..]).tokens);
    hide Splitter, CrashPrefix, HasDeepen, StartsWith;
  }

  lemma DeepenAfter(token: Bytes, rest: seq<Bytes>)
    ensures HasDeepen([token] + rest) <==> StartsWith(token, DEEPEN) || HasDeepen(rest)
  {
    AnswerAfter(token, Parsed(rest, AtEnd));
  }

  /** A token that lies in front of n is found in the front alone. */
  lemma TokenOfFront(data: Bytes, n: nat)
    requires n <= |data| && Splitter(data, true).Token? && Splitter(data, true).advance <= n
    ensures Splitter(data[..n], true) == Splitter(data, true)
  {
    TokenIsInside(data, true);
    assert data[..n][..PREFIX_LENGTH] == data[..PREFIX_LENGTH];
    var advance := Splitter(data, true).advance;
    assert data[..n][PREFIX_LENGTH..advance] == data[PREFIX_LENGTH..advance];
  }

  /** Parsing stops where there is no token: at zero, or past the first one. */
  lemma NoCrashInsideToken(data: Bytes, n: nat)
    requires Splitter(data, true).Token? && n < Splitter(data, true).advance
    ensures !CrashesAt(data, n)
  {
    TokenIsInside(data, true);
    if n == 0 {
      CrashIff(data, true);
      assert data[0..] == data;
    } else {
      ParseInsideToken(data, n);
    }
  }

  lemma ParseInsideToken(data: Bytes, n: nat)
    requires Splitter(data, true).Token? && 0 < n < Splitter(data, true).advance
    ensures !Parse(data[..n]).end.AtEnd?
  {
    TokenIsInside(data, true);
    if n >= PREFIX_LENGTH {
      assert data[..n][..PREFIX_LENGTH] == data[..PREFIX_LENGTH];
    }
  }

  /** scanDeepen crashes if and only if a crashing prefix follows tokens that do not ask to deepen. */
  lemma {:induction false} ScanCrashesIff(data: Bytes)
    ensures Answer(Parse(data)).None? <==> exists n :: CrashesAt(data, n)
    decreases |data|
  {
    var t := Splitter(data, true);
    if t.Token? {
      TokenIsInside(data, true);
      var rest := data[t.advance..];
      ScanCrashesIff(rest);
      AnswerAfter(t.payload, Parse(rest));
      if n: nat :| CrashesAt(data, n) {
        if n < t.advance {
          NoCrashInsideToken(data, n);
        }
        CrashesAfterToken(data, t.advance, n);
      }
      if m: nat :| CrashesAt(rest, m) {
        CrashesAfterToken(data, t.advance, m + t.advance);
      }
    } else {
      CrashIff(data, true);
      if t.Crash? {
        assert data[0..] == data && data[..0] == [];
        assert CrashesAt(data, 0);
      } else {
        forall n ensures !CrashesAt(data, n) {
          NoTokenNoCrash(data, n);
        }
      }
    }
  }

  lemma NoTokenNoCrash(data: Bytes, n: nat)
    requires !Splitter(data, true).Token? && !Splitter(data, true).Crash?
    ensures !CrashesAt(data, n)
  {
    if n <= |data| {
      if n == 0 {
        CrashIff(data, true);
        assert data[0..] == data;
      } else if n >= PREFIX_LENGTH {
        assert data[..n][..PREFIX_LENGTH] == data[..PREFIX_LENGTH];
        assert !Splitter(data[..n], true).More?;
      }
    }
  }

  // ---------------------------------------------------------- the chunked scanner

  function Flatten(chunks: seq<Bytes>): Bytes {
    if chunks == [] then [] else chunks[0] + Flatten(chunks[1..])
  }

  /** The body: non-empty chunks, then an error (io.EOF or another) without data. */
  class Body {
    var chunks: seq<Bytes>

    predicate Valid()
      reads this
    {
      forall k :: 0 <= k < |chunks| ==> chunks[k] != []
    }

    constructor (chunks: seq<Bytes>)
      requires forall k :: 0 <= k < |chunks| ==> chunks[k] != []
      ensures Valid() && this.chunks == chunks
    {
      this.chunks := chunks;
    }

    /** At most `space` bytes; a longer chunk is left for the next call. */
    method Read(space: nat) returns (data: Bytes, err: bool)
      requires Valid() && space > 0
      modifies this
      ensures Valid() && err == (old(chunks) == []) && (data == [] <==> err) && |data| <= space
      ensures data + Flatten(chunks) == Flatten(old(chunks))
    {
      if chunks == [] {
        return [], true;
      }
      data, err := chunks[0], false;
      if |data| <= space {
        chunks := chunks[1..];
      } else {
        var tail := data[space..];
        data := data[..space];
        chunks := [tail] + chunks[1..];
        assert chunks[1..] == old(chunks)[1..];
        assert data + (tail + Flatten(chunks[1..])) == (data + tail) + Flatten(chunks[1..]);
      }
    }
  }

  /**
   scanDeepen: whatever the chunks, and however the body ends, the answer is that
   of the whole content. The buffer never needs more than MAX_BUFFER bytes.
   */
  method ScanDeepen(body: Body) returns (found: Option<bool>)
    requires body.Valid()
    modifies body
    ensures found == Answer(Parse(old(Flatten(body.chunks))))
  {
    hide ParseInt, HexValue, StartsWith;
    var buffer: Bytes := [];
    var err := false;
    assert buffer + Flatten(body.chunks) == Flatten(body.chunks);
    while true
      invariant body.Valid() && |buffer| <= MAX_BUFFER
      invariant err ==> body.chunks == []
      invariant Answer(Parse(buffer + Flatten(body.chunks))) == Answer(Parse(old(Flatten(body.chunks))))
      decreases |buffer + Flatten(body.chunks)|, |Flatten(body.chunks)|, if err then 0 else 1
    {
      ghost var rest := Flatten(body.chunks);
      var t := if buffer == [] && !err then More else Splitter(buffer, err);
      PrefixAgrees(buffer, rest, true);
      assert err ==> buffer + rest == buffer;
      match t {
        case Failed =>
          return Some(false);
        case Crash =>
          return None;
        case Token(advance, payload) =>
          TokenIsInside(buffer, err);
          assert Splitter(buffer + rest, true) == t;
          assert (buffer + rest)[advance..] == buffer[advance..] + rest;
          AnswerAfter(payload, Parse(buffer[advance..] + rest));
          if StartsWith(payload, DEEPEN) {
            return Some(true);
          }
          buffer := buffer[advance..];
        case More =>
          if err {
            return Some(false);
          }
          FullBufferSuffices(buffer);
          var data, failed := body.Read(MAX_BUFFER - |buffer|);
          assert (buffer + data) + Flatten(body.chunks) == buffer + rest;
          buffer := buffer + data;
          err := failed;
      }
    }
  }

  // --------------------------------------------------------------- round trip

  datatype Packet = Flush | Data(payload: Bytes)

  predicate Encodable(p: Packet) {
    p.Data? ==> |p.payload| + PREFIX_LENGTH <= MAX_LENGTH
  }

  function Hex(n: nat, k: nat): (s: Bytes)
    ensures |s| == k
  {
    if k == 0 then [] else Hex(n / 16, k - 1) + [HEX_DIGITS[n % 16] as int]
  }

  function Pow16(k: nat): nat {
    if k == 0 then 1 else 16 * Pow16(k - 1)
  }

  lemma {:induction false} HexValueUndoesHex(n: nat, k: nat)
    requires n < Pow16(k)
    ensures HexValue(Hex(n, k)) == Some(n)
  {
    hide DigitValue;
    if k > 0 {
      HexValueUndoesHex(n / 16, k - 1);
      assert Hex(n, k)[..k - 1] == Hex(n / 16, k - 1);
      HexDigit(n % 16);
    }
  }

  function Content(p: Packet): Bytes {
    if p.Flush? then [] else p.payload
  }

  function EncodePacket(p: Packet): Bytes {
    if p.Flush? then FLUSH else Hex(|p.payload| + PREFIX_LENGTH, PREFIX_LENGTH) + p.payload
  }

  function EncodeAll(ps: seq<Packet>): Bytes {
    if ps == [] then [] else EncodePacket(ps[0]) + EncodeAll(ps[1..])
  }

  function Contents(ps: seq<Packet>): seq<Bytes> {
    seq(|ps|, k requires 0 <= k < |ps| => Content(ps[k]))
  }

  lemma PrefixIsLength(n: nat)
    requires PREFIX_LENGTH <= n <= MAX_LENGTH
    ensures ParseInt(Hex(n, PREFIX_LENGTH)) == Some(n) && Hex(n, PREFIX_LENGTH) != FLUSH
  {
    assert Pow16(4) == 65536;
    HexValueUndoesHex(n, 4);
    HexValueUndoesHex(0, 4);
    FirstIsDigit(n, 4);
    ZeroIsFlush();
  }

  lemma {:induction false} FirstIsDigit(n: nat, k: nat)
    requires k > 0
    ensures Hex(n, k)[0] != PLUS && Hex(n, k)[0] != MINUS
  {
    if k > 1 {
      FirstIsDigit(n / 16, k - 1);
    }
  }

  lemma ZeroIsFlush()
    ensures HexValue(FLUSH) == Some(0)
  {
    assert [48][..0] == [] && [48, 48][..1] == [48] && [48, 48, 48][..2] == [48, 48] && FLUSH[..3] == [48, 48, 48];
    assert HexValue([48, 48]) == Some(0);
  }

  /** A packet at the head of any stream is what the splitter finds first. */
  lemma PacketIsSplitOff(p: Packet, rest: Bytes, atEOF: bool)
    requires Encodable(p)
    ensures Splitter(EncodePacket(p) + rest, atEOF) == Token(|EncodePacket(p)|, Content(p))
  {
    var data := EncodePacket(p) + rest;
    if p.Flush? {
      assert data[..PREFIX_LENGTH] == FLUSH;
    } else {
      var n := |p.payload| + PREFIX_LENGTH;
      PrefixIsLength(n);
      assert data[..PREFIX_LENGTH] == Hex(n, PREFIX_LENGTH);
      assert data[PREFIX_LENGTH..n] == p.payload;
    }
  }

  /** Splitting an encoded stream gives back the payloads. */
  lemma {:induction false} ParseUndoesEncode(ps: seq<Packet>)
    requires forall k :: 0 <= k < |ps| ==> Encodable(ps[k])
    ensures Parse(EncodeAll(ps)) == Parsed(Contents(ps), AtEnd)
  {
    hide ParseInt, HexValue, EncodePacket;
    if ps != [] {
      var rest := EncodeAll(ps[1..]);
      PacketIsSplitOff(ps[0], rest, true);
      assert EncodeAll(ps)[|EncodePacket(ps[0])|..] == rest;
      ParseUndoesEncode(ps[1..]);
      assert Contents(ps) == [Content(ps[0])] + Contents(ps[1..]);
    }
  }

  predicate AsksToDeepen(ps: seq<Packet>) {
    exists k :: 0 <= k < |ps| && ps[k].Data? && DEEPEN <= ps[k].payload
  }

  lemma DeepenPayload(ps: seq<Packet>)
    ensures HasDeepen(Contents(ps)) <==> AsksToDeepen(ps)
  {
    if AsksToDeepen(ps) {
      var k :| 0 <= k < |ps| && ps[k].Data? && DEEPEN <= ps[k].payload;
      assert StartsWith(Contents(ps)[k], DEEPEN);
    }
    if HasDeepen(Contents(ps)) {
      var k :| 0 <= k < |Contents(ps)| && StartsWith(Contents(ps)[k], DEEPEN);
      assert Contents(ps)[k] == Content(ps[k]) && ps[k].Data?;
    }
  }

  /** On a well-formed stream scanDeepen is true exactly when some payload starts with "deepen". */
  lemma DeepenIff(ps: seq<Packet>)
    requires forall k :: 0 <= k < |ps| ==> Encodable(ps[k])
    ensures Answer(Parse(EncodeAll(ps))) == Some(AsksToDeepen(ps))
  {
    ParseUndoesEncode(ps);
    DeepenPayload(ps);
  }
}
