/**
 Standard base64 as section 4 of RFC 4648 defines it, with the decoder's liberties:
 line breaks are skipped and the unused bits of the last digit are not looked at.
 internal/terminal/wrappers.go:123-134 uses it on whole messages.
 */
module Base64 {
  import opened Wrappers
  import opened Bytes

  type Digit = d: int | 0 <= d < 64

  const PAD: Byte := 61   // '='
  const CR: Byte := 13
  const LF: Byte := 10

  function Symbol(d: Digit): Byte {
    if d < 26 then 65 + d
    else if d < 52 then 97 + d - 26
    else if d < 62 then 48 + d - 52
    else if d == 62 then 43
    else 47
  }

  function Value(c: Byte): (v: Option<int>)
    ensures v.Some? ==> 0 <= v.value < 64
  {
    if 65 <= c < 91 then Some(c - 65)
    else if 97 <= c < 123 then Some(c - 97 + 26)
    else if 48 <= c < 58 then Some(c - 48 + 52)
    else if c == 43 then Some(62)
    else if c == 47 then Some(63)
    else None
  }

  function FirstByte(a: Digit, b: Digit): Byte {
    a * 4 + b / 16
  }

  function SecondByte(b: Digit, c: Digit): Byte {
    b % 16 * 16 + c / 4
  }

  function ThirdByte(c: Digit, d: Digit): Byte {
    c % 4 * 64 + d
  }

  function FirstDigit(x: Byte): Digit {
    x / 4
  }

  function SecondDigit(x: Byte, y: Byte): Digit {
    x % 4 * 16 + y / 16
  }

  function ThirdDigit(y: Byte, z: Byte): Digit {
    y % 16 * 4 + z / 64
  }

  function FourthDigit(z: Byte): Digit {
    z % 64
  }

  /** One to three bytes as four characters. */
  function EncodeGroup(g: Bytes): Bytes
    requires 1 <= |g| <= 3
  {
    if |g| == 1 then [Symbol(FirstDigit(g[0])), Symbol(SecondDigit(g[0], 0)), PAD, PAD]
    else if |g| == 2 then
      [Symbol(FirstDigit(g[0])), Symbol(SecondDigit(g[0], g[1])), Symbol(ThirdDigit(g[1], 0)), PAD]
    else
      [Symbol(FirstDigit(g[0])), Symbol(SecondDigit(g[0], g[1])),
       Symbol(ThirdDigit(g[1], g[2])), Symbol(FourthDigit(g[2]))]
  }

  function Encode(data: Bytes): Bytes {
    if data == [] then []
    else if |data| <= 3 then EncodeGroup(data)
    else EncodeGroup(data[..3]) + Encode(data[3..])
  }

  /** The text without its line breaks. */
  function Strip(text: Bytes): Bytes {
    if text == [] then []
    else if text[0] == CR || text[0] == LF then Strip(text[1..])
    else [text[0]] + Strip(text[1..])
  }

  /** One group of four characters; `last` says whether nothing follows. */
  function DecodeGroup(t: Bytes, last: bool): (g: Option<Bytes>)
    requires |t| == 4
    ensures g.Some? ==> 1 <= |g.value| <= 3 && (|g.value| < 3 ==> last)
  {
    var (va, vb) := (Value(t[0]), Value(t[1]));
    if va.None? || vb.None? then None
    else if t[2] == PAD then
      if t[3] == PAD && last then Some([FirstByte(va.value, vb.value)]) else None
    else
      var vc := Value(t[2]);
      if vc.None? then None
      else
        var two := [FirstByte(va.value, vb.value), SecondByte(vb.value, vc.value)];
        if t[3] == PAD then if last then Some(two) else None
        else
          var vd := Value(t[3]);
          if vd.None? then None else Some(two + [ThirdByte(vc.value, vd.value)])
  }

  function DecodeStripped(text: Bytes): Option<Bytes> {
    if text == [] then Some([])
    else if |text| < 4 then None
    else
      var group := DecodeGroup(text[..4], |text| == 4);
      var rest := DecodeStripped(text[4..]);
      if group.None? || rest.None? then None else Some(group.value + rest.value)
  }

  /** None is CorruptInputError. */
  function Decode(text: Bytes): Option<Bytes> {
    DecodeStripped(Strip(text))
  }

  // ---------------------------------------------------------------- the standard

  const UPPER_CASE := "ABCDEFGHIJKLMNOPQRSTUVWXYZ"
  const LOWER_CASE := "abcdefghijklmnopqrstuvwxyz"
  const DIGITS := "0123456789"

  /** Table 1 of RFC 4648. */
  const ALPHABET := UPPER_CASE + LOWER_CASE + DIGITS + "+/"

  lemma UpperCase(d: nat)
    ensures |UPPER_CASE| == 26 && (d < 26 ==> UPPER_CASE[d] as int == 65 + d)
  {
  }

  lemma LowerCase(d: nat)
    ensures |LOWER_CASE| == 26 && (d < 26 ==> LOWER_CASE[d] as int == 97 + d)
  {
  }

  lemma DecimalDigits(d: nat)
    ensures |DIGITS| == 10 && (d < 10 ==> DIGITS[d] as int == 48 + d)
  {
  }

  lemma SymbolIsOfTheAlphabet(d: Digit)
    ensures |ALPHABET| == 64 && Symbol(d) == ALPHABET[d] as int
  {
    hide UPPER_CASE, LOWER_CASE, DIGITS;
    UpperCase(d);
    LowerCase(if d >= 26 then d - 26 else 0);
    DecimalDigits(if d >= 52 then d - 52 else 0);
  }

  /** Only characters of the alphabet have a value, and it is their position. */
  lemma ValueIsThePosition(c: Byte)
    ensures Value(c).Some? <==> exists d: Digit :: ALPHABET[d] as int == c
    ensures Value(c).Some? ==> ALPHABET[Value(c).value] as int == c
  {
    if Value(c).Some? {
      SymbolIsOfTheAlphabet(Value(c).value);
    }
    if d: Digit :| ALPHABET[d] as int == c {
      SymbolIsOfTheAlphabet(d);
    }
  }

  /** The bits of the bytes in their order are those of the digits: 24 for three bytes,
      16 or 8 for fewer, filled up with zeros. */
  lemma DigitsHoldTheBits(x: Byte, y: Byte, z: Byte)
    ensures (x * 256 + y) * 256 + z
            == ((FirstDigit(x) * 64 + SecondDigit(x, y)) * 64 + ThirdDigit(y, z)) * 64 + FourthDigit(z)
    ensures (x * 256 + y) * 4 == (FirstDigit(x) * 64 + SecondDigit(x, y)) * 64 + ThirdDigit(y, 0)
    ensures x * 16 == FirstDigit(x) * 64 + SecondDigit(x, 0)
  {
  }

  lemma Behind(front: Bytes, rest: Bytes, i: nat, j: nat)
    requires i <= j <= |rest|
    ensures (front + rest)[|front| + i..|front| + j] == rest[i..j]
  {
  }

  /** Whole groups first, then one padded group for one or two bytes that are left. */
  lemma {:induction false} EncodeByGroups(data: Bytes, i: nat)
    requires 3 * i < |data|
    ensures |Encode(data)| >= 4 * i + 4
    ensures Encode(data)[4 * i..4 * i + 4]
            == EncodeGroup(data[3 * i..if 3 * i + 3 <= |data| then 3 * i + 3 else |data|])
  {
    hide EncodeGroup;
    EncodedLength(data);
    if |data| <= 3 {
      assert data[0..|data|] == data && Encode(data)[0..4] == Encode(data);
    } else {
      var first, rest := EncodeGroup(data[..3]), data[3..];
      assert |first| == 4 by { EncodedLength(data[..3]); }
      assert Encode(data) == first + Encode(rest);
      if i > 0 {
        EncodeByGroups(rest, i - 1);
        var n := if 3 * i + 3 <= |data| then 3 * i + 3 else |data|;
        assert data == data[..3] + rest;
        Behind(data[..3], rest, 3 * i - 3, n - 3);
        Behind(first, Encode(rest), 4 * i - 4, 4 * i);
      }
    }
  }

  // ---------------------------------------------------------------- round trip

  lemma SymbolHasValue(d: Digit)
    ensures Value(Symbol(d)) == Some(d) && Symbol(d) != PAD && Symbol(d) != CR && Symbol(d) != LF
  {
  }

  lemma ValueHasSymbol(c: Byte)
    ensures Value(c).Some? ==> Symbol(Value(c).value) == c && c != PAD
  {
  }

  /** No line break. */
  predicate Unbroken(text: Bytes) {
    forall k :: 0 <= k < |text| ==> text[k] != CR && text[k] != LF
  }

  lemma {:induction false} StripUnbroken(text: Bytes)
    requires Unbroken(text)
    ensures Strip(text) == text
  {
    if text != [] {
      StripUnbroken(text[1..]);
    }
  }

  lemma {:induction false} EncodeUnbroken(data: Bytes)
    ensures Unbroken(Encode(data))
  {
    if |data| > 3 {
      EncodeUnbroken(data[3..]);
    }
  }

  /** Four characters for every three bytes begun: the buffer of encodeBase64. */
  lemma {:induction false} EncodedLength(data: Bytes)
    ensures |Encode(data)| == (|data| + 2) / 3 * 4
  {
    hide FirstDigit, SecondDigit, ThirdDigit, FourthDigit;
    if |data| > 3 {
      EncodedLength(data[3..]);
    }
  }

  lemma ThreeBytes(x: Byte, y: Byte, z: Byte)
    ensures FirstByte(FirstDigit(x), SecondDigit(x, y)) == x
    ensures SecondByte(SecondDigit(x, y), ThirdDigit(y, z)) == y
    ensures ThirdByte(ThirdDigit(y, z), FourthDigit(z)) == z
  {
  }

  lemma GroupUndone(g: Bytes, last: bool)
    requires 1 <= |g| <= 3 && (|g| < 3 ==> last)
    ensures DecodeGroup(EncodeGroup(g), last) == Some(g)
  {
    hide FirstByte, SecondByte, ThirdByte, FirstDigit, SecondDigit, ThirdDigit, FourthDigit;
    var x := g[0];
    var y := if |g| > 1 then g[1] else 0;
    var z := if |g| > 2 then g[2] else 0;
    ThreeBytes(x, y, z);
    SymbolHasValue(FirstDigit(x));
    SymbolHasValue(SecondDigit(x, y));
    SymbolHasValue(ThirdDigit(y, z));
    SymbolHasValue(FourthDigit(z));
    if |g| == 1 {
      assert g == [x];
    } else if |g| == 2 {
      assert g == [x, y];
    } else {
      assert g == [x, y] + [z];
    }
  }

  lemma {:induction false} DecodeStrippedUndoesEncode(data: Bytes)
    ensures DecodeStripped(Encode(data)) == Some(data)
  {
    if |data| > 3 {
      DecodeStrippedUndoesEncode(data[3..]);
      EncodedLength(data[3..]);
      GroupUndone(data[..3], false);
      assert Encode(data)[..4] == EncodeGroup(data[..3]) && Encode(data)[4..] == Encode(data[3..]);
      assert data == data[..3] + data[3..];
    } else if data != [] {
      GroupUndone(data, true);
      var text := EncodeGroup(data);
      assert text[..4] == text && DecodeStripped(text[4..]) == Some([]);
      assert data + [] == data;
    }
  }

  /** Decoding gives every byte string back. */
  lemma DecodeUndoesEncode(data: Bytes)
    ensures Decode(Encode(data)) == Some(data)
  {
    EncodeUnbroken(data);
    StripUnbroken(Encode(data));
    DecodeStrippedUndoesEncode(data);
  }

  // ---------------------------------------------------------------- the decoder

  lemma {:induction false} StripAppend(x: Bytes, y: Bytes)
    ensures Strip(x + y) == Strip(x) + Strip(y)
  {
    if x == [] {
      assert x + y == y;
    } else {
      assert (x + y)[1..] == x[1..] + y;
      StripAppend(x[1..], y);
    }
  }

  /** A line break may stand anywhere, even inside a group. */
  lemma LineBreaksAreIgnored(x: Bytes, c: Byte, y: Bytes)
    requires c == CR || c == LF
    ensures Decode(x + [c] + y) == Decode(x + y)
  {
    StripAppend(x + [c], y);
    StripAppend(x, [c]);
    StripAppend(x, y);
    assert Strip([c]) == [] by { assert [c][1..] == []; }
    assert Strip(x) + [] == Strip(x);
  }

  lemma {:induction false} StripShortens(text: Bytes)
    ensures |Strip(text)| <= |text|
  {
    if text != [] {
      StripShortens(text[1..]);
    }
  }

  /** A text of k groups holds at most 3 * k bytes. */
  lemma {:induction false} DecodedFits(text: Bytes) returns (k: nat)
    ensures DecodeStripped(text).Some? ==> |text| == 4 * k && |DecodeStripped(text).value| <= 3 * k
  {
    hide DecodeGroup;
    if |text| >= 4 {
      var rest := DecodedFits(text[4..]);
      k := rest + 1;
    } else {
      k := 0;
    }
  }

  /** The buffer of DecodedLen(len) bytes that decodeBase64 allocates is large enough. */
  lemma DecodedLength(text: Bytes)
    ensures Decode(text).Some? ==> |Decode(text).value| <= |text| / 4 * 3
  {
    hide DecodeStripped, Strip;
    StripShortens(text);
    var k := DecodedFits(Strip(text));
  }

  /** The bits of the last digit that no byte is made of are zero. */
  predicate NoStrayBits(text: Bytes) {
    |text| >= 4 && text[|text| - 1] == PAD ==>
      if text[|text| - 2] == PAD then Value(text[|text| - 3]).Some? && Value(text[|text| - 3]).value % 16 == 0
      else Value(text[|text| - 2]).Some? && Value(text[|text| - 2]).value % 4 == 0
  }

  lemma FourDigits(a: Digit, b: Digit, c: Digit, d: Digit)
    ensures FirstDigit(FirstByte(a, b)) == a
    ensures SecondDigit(FirstByte(a, b), SecondByte(b, c)) == b
    ensures ThirdDigit(SecondByte(b, c), ThirdByte(c, d)) == c
    ensures FourthDigit(ThirdByte(c, d)) == d
  {
  }

  lemma FewDigits(a: Digit, b: Digit, c: Digit)
    ensures SecondDigit(FirstByte(a, b), 0) == b <==> b % 16 == 0
    ensures ThirdDigit(SecondByte(b, c), 0) == c <==> c % 4 == 0
  {
  }

  lemma SymbolIs(d: Digit, c: Byte)
    requires Value(c).Some?
    ensures Symbol(d) == c <==> d == Value(c).value
  {
    SymbolHasValue(d);
    ValueHasSymbol(c);
  }

  lemma OneByteGroup(t: Bytes, a: Digit, b: Digit)
    requires |t| == 4 && Value(t[0]) == Some(a) && Value(t[1]) == Some(b) && t[2] == PAD && t[3] == PAD
    ensures EncodeGroup([FirstByte(a, b)]) == t <==> b % 16 == 0
  {
    hide FirstByte, SecondByte, ThirdByte, FirstDigit, SecondDigit, ThirdDigit, FourthDigit;
    FourDigits(a, b, 0, 0);
    FewDigits(a, b, 0);
    SymbolIs(a, t[0]);
    SymbolIs(SecondDigit(FirstByte(a, b), 0), t[1]);
  }

  lemma TwoByteGroup(t: Bytes, a: Digit, b: Digit, c: Digit)
    requires |t| == 4 && Value(t[0]) == Some(a) && Value(t[1]) == Some(b) && Value(t[2]) == Some(c) && t[3] == PAD
    ensures EncodeGroup([FirstByte(a, b), SecondByte(b, c)]) == t <==> c % 4 == 0
  {
    hide FirstByte, SecondByte, ThirdByte, FirstDigit, SecondDigit, ThirdDigit, FourthDigit;
    FourDigits(a, b, c, 0);
    FewDigits(a, b, c);
    SymbolIs(a, t[0]);
    SymbolIs(b, t[1]);
    SymbolIs(ThirdDigit(SecondByte(b, c), 0), t[2]);
  }

  lemma ThreeByteGroup(t: Bytes, a: Digit, b: Digit, c: Digit, d: Digit)
    requires |t| == 4 && Value(t[0]) == Some(a) && Value(t[1]) == Some(b)
    requires Value(t[2]) == Some(c) && Value(t[3]) == Some(d)
    ensures EncodeGroup([FirstByte(a, b), SecondByte(b, c), ThirdByte(c, d)]) == t
  {
    hide FirstByte, SecondByte, ThirdByte, FirstDigit, SecondDigit, ThirdDigit, FourthDigit;
    FourDigits(a, b, c, d);
    SymbolIs(a, t[0]);
    SymbolIs(b, t[1]);
    SymbolIs(c, t[2]);
    SymbolIs(d, t[3]);
  }

  lemma GroupIsEncoding(t: Bytes, last: bool)
    requires |t| == 4 && DecodeGroup(t, last).Some?
    ensures EncodeGroup(DecodeGroup(t, last).value) == t <==> NoStrayBits(t)
  {
    hide FirstByte, SecondByte, ThirdByte, FirstDigit, SecondDigit, ThirdDigit, FourthDigit;
    var (a, b) := (Value(t[0]).value, Value(t[1]).value);
    ValueHasSymbol(t[2]);
    ValueHasSymbol(t[3]);
    if t[2] == PAD {
      OneByteGroup(t, a, b);
    } else if t[3] == PAD {
      TwoByteGroup(t, a, b, Value(t[2]).value);
    } else {
      ThreeByteGroup(t, a, b, Value(t[2]).value, Value(t[3]).value);
      assert DecodeGroup(t, last).value
             == [FirstByte(a, b), SecondByte(b, Value(t[2]).value), ThirdByte(Value(t[2]).value, Value(t[3]).value)];
    }
  }

  lemma {:induction false} StrippedIsEncoding(text: Bytes)
    requires DecodeStripped(text).Some?
    ensures Encode(DecodeStripped(text).value) == text <==> NoStrayBits(text)
  {
    hide DecodeGroup, EncodeGroup, Value;
    if |text| == 4 {
      assert text[..4] == text && DecodeStripped(text[4..]) == Some([]);
      GroupIsEncoding(text, true);
      assert DecodeGroup(text, true).value + [] == DecodeGroup(text, true).value;
    } else if text != [] {
      var group := DecodeGroup(text[..4], false).value;
      var rest := DecodeStripped(text[4..]).value;
      StrippedIsEncoding(text[4..]);
      NoPadding(text[..4]);
      GroupIsEncoding(text[..4], false);
      NonEmpty(text[4..]);
      assert (group + rest)[..3] == group && (group + rest)[3..] == rest;
      assert Encode(group + rest) == text[..4] + Encode(rest);
      assert Encode(group + rest)[4..] == Encode(rest);
      assert text == text[..4] + text[4..];
    }
  }

  lemma NoPadding(t: Bytes)
    requires |t| == 4 && DecodeGroup(t, false).Some?
    ensures |DecodeGroup(t, false).value| == 3 && NoStrayBits(t)
  {
  }

  lemma NonEmpty(text: Bytes)
    requires text != [] && DecodeStripped(text).Some?
    ensures DecodeStripped(text).value != []
  {
  }

  /** An accepted text is the encoding of what it decodes to exactly when no stray bit is set. */
  lemma EncodeUndoesDecodeIff(text: Bytes)
    requires Decode(text).Some?
    ensures Encode(Decode(text).value) == Strip(text) <==> NoStrayBits(Strip(text))
  {
    StrippedIsEncoding(Strip(text));
  }
}
