/** Byte strings, their concatenation and their hexadecimal form. */
module Bytes {
  import opened Wrappers

  type Byte = b: int | 0 <= b < 256
  type Bytes = seq<Byte>

  function Concat(parts: seq<Bytes>): Bytes {
    if parts == [] then [] else Concat(parts[..|parts| - 1]) + parts[|parts| - 1]
  }

  lemma ConcatAppend(parts: seq<Bytes>, last: Bytes)
    ensures Concat(parts + [last]) == Concat(parts) + last
  {
    assert (parts + [last])[..|parts|] == parts;
  }

  lemma {:induction false} ConcatSplit(front: seq<Bytes>, back: seq<Bytes>)
    ensures Concat(front + back) == Concat(front) + Concat(back)
  {
    if back == [] {
      assert front + back == front;
      assert Concat(front) + [] == Concat(front);
    } else {
      var n := |back| - 1;
      ConcatSplit(front, back[..n]);
      assert (front + back)[..|front| + n] == front + back[..n];
      assert Concat(front) + (Concat(back[..n]) + back[n]) == (Concat(front) + Concat(back[..n])) + back[n];
    }
  }

  lemma ConcatTail(parts: seq<Bytes>, k: nat)
    requires k < |parts|
    ensures Concat(parts[k..]) == parts[k] + Concat(parts[k + 1..])
  {
    ConcatSplit([parts[k]], parts[k + 1..]);
    assert parts[k..] == [parts[k]] + parts[k + 1..];
    assert Concat([parts[k]]) == parts[k] by {
      ConcatAppend([], parts[k]);
      assert [] + [parts[k]] == [parts[k]];
    }
  }

  const HEX_DIGITS := "0123456789abcdef"

  /** The value of a hexadecimal digit in either case, 16 for any other character. */
  function DigitValue(c: char): (v: nat)
    ensures v <= 16
  {
    if '0' <= c <= '9' then c as int - '0' as int
    else if 'a' <= c <= 'f' then c as int - 'a' as int + 10
    else if 'A' <= c <= 'F' then c as int - 'A' as int + 10
    else 16
  }

  function HexEncode(bs: Bytes): string {
    if bs == [] then ""
    else [HEX_DIGITS[bs[0] / 16], HEX_DIGITS[bs[0] % 16]] + HexEncode(bs[1..])
  }

  function HexDecode(s: string): Option<Bytes>
    decreases |s|
  {
    if s == "" then Some([])
    else if |s| == 1 || DigitValue(s[0]) == 16 || DigitValue(s[1]) == 16 then None
    else
      match HexDecode(s[2..])
      case None => None
      case Some(rest) => Some([DigitValue(s[0]) * 16 + DigitValue(s[1])] + rest)
  }

  lemma HexDigit(d: nat)
    requires d < 16
    ensures DigitValue(HEX_DIGITS[d]) == d
  {
  }

  lemma {:induction false} HexRoundTrip(bs: Bytes)
    ensures HexDecode(HexEncode(bs)) == Some(bs)
  {
    hide DigitValue, HEX_DIGITS;
    if bs != [] {
      HexRoundTrip(bs[1..]);
      assert HexEncode(bs)[2..] == HexEncode(bs[1..]);
      HexDigit(bs[0] / 16);
      HexDigit(bs[0] % 16);
      assert [bs[0]] + bs[1..] == bs;
    }
  }

  lemma HexIsInjective(x: Bytes, y: Bytes)
    requires HexEncode(x) == HexEncode(y)
    ensures x == y
  {
    HexRoundTrip(x);
    HexRoundTrip(y);
  }

  /** Decimal notation without sign or leading zeros. */
  function Decimal(n: nat): string {
    if n < 10 then [HEX_DIGITS[n]] else Decimal(n / 10) + [HEX_DIGITS[n % 10]]
  }

  /** Lower case, two digits a byte; with HexRoundTrip there is only one such form. */
  lemma {:induction false} HexIsLowerCase(bs: Bytes)
    ensures |HexEncode(bs)| == 2 * |bs|
    ensures forall c | c in HexEncode(bs) :: '0' <= c <= '9' || 'a' <= c <= 'f'
  {
    if bs != [] {
      HexIsLowerCase(bs[1..]);
      HexDigitIsLowerCase(bs[0] / 16);
      HexDigitIsLowerCase(bs[0] % 16);
    }
  }

  lemma HexDigitIsLowerCase(d: nat)
    requires d < 16
    ensures '0' <= HEX_DIGITS[d] <= '9' || 'a' <= HEX_DIGITS[d] <= 'f'
  {
  }

  /** The number that a string of digits stands for. */
  function DecimalValue(s: string): nat {
    if s == "" then 0 else 10 * DecimalValue(s[..|s| - 1]) + DigitValue(s[|s| - 1])
  }

  /** Decimal digits only, no leading zero, and they stand for the number. */
  lemma {:induction false} DecimalIs(n: nat)
    ensures DecimalValue(Decimal(n)) == n
    ensures Decimal(n) != "" && forall c | c in Decimal(n) :: '0' <= c <= '9'
    ensures n > 0 ==> Decimal(n)[0] != '0'
  {
    DecimalDigit(n % 10);
    if n < 10 {
      assert Decimal(n)[..0] == "";
    } else {
      DecimalIs(n / 10);
      assert Decimal(n)[..|Decimal(n)| - 1] == Decimal(n / 10);
    }
  }

  lemma DecimalDigit(d: nat)
    requires d < 10
    ensures '0' <= HEX_DIGITS[d] <= '9' && DigitValue(HEX_DIGITS[d]) == d && (d > 0 ==> HEX_DIGITS[d] != '0')
  {
  }

  /** An I/O operation works, or fails after its first k bytes (or all of them). */
  datatype Fault = Works | FailsAfter(k: nat)

  function Passed(data: Bytes, f: Fault): Bytes {
    if f.Works? || f.k >= |data| then data else data[..f.k]
  }
}
