/**
 * The order-book value (index.js:105): `randomBytes(6).toString("hex")`
 * upper-cased. The decoder below is its inverse.
 */
module Hex {
  import opened Wrappers
  import opened JsStrings

  type byte = x: int | 0 <= x < 256

  /** The digit `Buffer` writes for a nibble: `0-9`, then `a-f`. */
  function LowerDigit(d: nat): char
    requires d < 16
  {
    if d < 10 then ('0' as int + d) as char else ('a' as int + d - 10) as char
  }

  /** The same digit upper-cased: `0-9`, then `A-F`. */
  function UpperDigit(d: nat): char
    requires d < 16
  {
    if d < 10 then ('0' as int + d) as char else ('A' as int + d - 10) as char
  }

  /** `Buffer.prototype.toString("hex")`: two lower-case digits per byte, high nibble first. */
  function ToHex(bytes: seq<byte>): (s: string)
    ensures |s| == 2 * |bytes|
    ensures forall i :: 0 <= i < |bytes| ==>
              s[2 * i] == LowerDigit(bytes[i] / 16) && s[2 * i + 1] == LowerDigit(bytes[i] % 16)
    decreases |bytes|
  {
    if |bytes| == 0 then ""
    else [LowerDigit(bytes[0] / 16), LowerDigit(bytes[0] % 16)] + ToHex(bytes[1..])
  }

  /** `valueHex`: the hex string of the bytes, upper-cased. */
  function OrderbookValue(bytes: seq<byte>): string {
    ToUpperCase(ToHex(bytes))
  }

  predicate IsUpperHexDigit(c: char) {
    '0' <= c <= '9' || 'A' <= c <= 'F'
  }

  /** The value of one upper-case hex digit. */
  function DigitValue(c: char): (d: nat)
    requires IsUpperHexDigit(c)
    ensures d < 16 && UpperDigit(d) == c
  {
    if '0' <= c <= '9' then c as int - '0' as int else c as int - 'A' as int + 10
  }

  /** Reads upper-case hex back into bytes; odd length or a non-digit gives None. */
  function FromUpperHex(s: string): Option<seq<byte>>
    decreases |s|
  {
    if |s| == 0 then Some([])
    else if |s| == 1 || !IsUpperHexDigit(s[0]) || !IsUpperHexDigit(s[1]) then None
    else match FromUpperHex(s[2..])
      case None => None
      case Some(rest) => Some([DigitValue(s[0]) * 16 + DigitValue(s[1])] + rest)
  }

  lemma UpperOfLowerDigit(d: nat)
    requires d < 16
    ensures UpperChar(LowerDigit(d)) == UpperDigit(d)
  {
  }

  /**
   * The value has two characters per byte, each an upper-case hex digit,
   * the high nibble first.
   */
  lemma OrderbookValueShape(bytes: seq<byte>)
    ensures |OrderbookValue(bytes)| == 2 * |bytes|
    ensures forall i :: 0 <= i < |bytes| ==>
              OrderbookValue(bytes)[2 * i] == UpperDigit(bytes[i] / 16) &&
              OrderbookValue(bytes)[2 * i + 1] == UpperDigit(bytes[i] % 16)
    ensures forall k :: 0 <= k < |OrderbookValue(bytes)| ==> IsUpperHexDigit(OrderbookValue(bytes)[k])
  {
    var v := OrderbookValue(bytes);
    forall i | 0 <= i < |bytes|
      ensures v[2 * i] == UpperDigit(bytes[i] / 16) && v[2 * i + 1] == UpperDigit(bytes[i] % 16)
    {
      UpperOfLowerDigit(bytes[i] / 16);
      UpperOfLowerDigit(bytes[i] % 16);
    }
    forall k | 0 <= k < |v|
      ensures IsUpperHexDigit(v[k])
    {
      var i := k / 2;
      DigitRoundTrip(bytes[i] / 16);
      DigitRoundTrip(bytes[i] % 16);
      if k % 2 == 0 {
        assert k == 2 * i;
      } else {
        assert k == 2 * i + 1;
      }
    }
  }

  /** Six random bytes give a value of exactly twelve upper-case hex digits. */
  lemma OrderbookValueOfSixBytes(bytes: seq<byte>)
    requires |bytes| == 6
    ensures |OrderbookValue(bytes)| == 12
    ensures forall k :: 0 <= k < 12 ==> IsUpperHexDigit(OrderbookValue(bytes)[k])
  {
    OrderbookValueShape(bytes);
  }

  /** Upper-casing distributes over the first byte's two digits. */
  lemma ValueCons(bytes: seq<byte>)
    requires |bytes| > 0
    ensures OrderbookValue(bytes) ==
              [UpperDigit(bytes[0] / 16), UpperDigit(bytes[0] % 16)] + OrderbookValue(bytes[1..])
  {
    var b := bytes[0];
    var head := [LowerDigit(b / 16), LowerDigit(b % 16)];
    assert ToHex(bytes) == head + ToHex(bytes[1..]);
    ToUpperCaseConcat(head, ToHex(bytes[1..]));
    UpperOfLowerDigit(b / 16);
    UpperOfLowerDigit(b % 16);
    assert ToUpperCase(head) == [UpperDigit(b / 16), UpperDigit(b % 16)];
  }

  lemma DigitRoundTrip(d: nat)
    requires d < 16
    ensures IsUpperHexDigit(UpperDigit(d)) && DigitValue(UpperDigit(d)) == d
  {
  }

  /** The decoder reads a leading digit pair and the rest. */
  lemma FromUpperHexCons(hi: nat, lo: nat, rest: string)
    requires hi < 16 && lo < 16
    ensures FromUpperHex([UpperDigit(hi), UpperDigit(lo)] + rest) ==
              match FromUpperHex(rest)
              case None => None
              case Some(r) => Some([hi * 16 + lo] + r)
  {
    DigitRoundTrip(hi);
    DigitRoundTrip(lo);
    var s := [UpperDigit(hi), UpperDigit(lo)] + rest;
    assert s[2..] == rest;
  }

  /** A byte built from two nibbles gives them back. */
  lemma Nibbles(hi: nat, lo: nat)
    requires hi < 16 && lo < 16
    ensures (hi * 16 + lo) / 16 == hi && (hi * 16 + lo) % 16 == lo
  {
  }

  /** The value decodes back to the bytes it was made from. */
  lemma {:induction false} DecodeValue(bytes: seq<byte>)
    ensures FromUpperHex(OrderbookValue(bytes)) == Some(bytes)
    decreases |bytes|
  {
    if |bytes| > 0 {
      var b := bytes[0];
      ValueCons(bytes);
      DecodeValue(bytes[1..]);
      FromUpperHexCons(b / 16, b % 16, OrderbookValue(bytes[1..]));
      assert [b] + bytes[1..] == bytes;
    }
  }

  /** Every string the decoder accepts is the value of the bytes it decodes to. */
  lemma {:induction false} ValueOfDecoded(s: string, bytes: seq<byte>)
    requires FromUpperHex(s) == Some(bytes)
    ensures OrderbookValue(bytes) == s
    decreases |s|
  {
    if |s| > 0 {
      var rest := FromUpperHex(s[2..]).value;
      ValueOfDecoded(s[2..], rest);
      var hi, lo := DigitValue(s[0]), DigitValue(s[1]);
      assert bytes == [hi * 16 + lo] + rest;
      ValueCons(bytes);
      assert bytes[1..] == rest;
      Nibbles(hi, lo);
      assert UpperDigit(hi) == s[0] && UpperDigit(lo) == s[1];
      assert s == [s[0], s[1]] + s[2..];
    }
  }
}
