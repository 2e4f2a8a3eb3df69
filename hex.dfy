/**
 * Lower-case hexadecimal text, as JavaScript's `Number.prototype.toString(16)`
 * writes it for non-negative integers, and reading it back.
 */
module Hex {
  /** A value below 16; also one draw of `Math.random() * 16 | 0`. */
  type Nibble = x: int | 0 <= x < 16

  const HexChars: string := "0123456789abcdef"

  predicate IsLowerHex(c: char) {
    ('0' <= c <= '9') || ('a' <= c <= 'f')
  }

  predicate AllLowerHex(s: string) {
    forall k :: 0 <= k < |s| ==> IsLowerHex(s[k])
  }

  /** `v.toString(16)` for a value below 16: one lower-case hexadecimal digit. */
  function HexDigit(v: Nibble): (c: char)
    ensures IsLowerHex(c)
  {
    HexChars[v]
  }

  /** The value of a lower-case hexadecimal digit. */
  function DigitValue(c: char): (v: Nibble)
    requires IsLowerHex(c)
    ensures HexDigit(v) == c
  {
    if c <= '9' then (c - '0') as int else (c - 'a') as int + 10
  }

  lemma DigitRoundTrip(v: Nibble)
    ensures DigitValue(HexDigit(v)) == v
  {
    var c := HexDigit(v);
    assert HexDigit(DigitValue(c)) == c;
    assert HexChars[DigitValue(c)] == HexChars[v];
  }

  /**
   * `x.toString(16)` for a non-negative integer: its hexadecimal digits, most
   * significant first, without leading zeros (zero is written `0`).
   */
  function ToBase16(x: nat): (r: string)
    ensures AllLowerHex(r)
    ensures |r| >= 1
    ensures |r| == 1 <==> x < 16
    ensures r[0] == '0' ==> x == 0
    decreases x
  {
    if x < 16 then [HexDigit(x)] else ToBase16(x / 16) + [HexDigit(x % 16)]
  }

  /** The value of a string of hexadecimal digits, most significant first (`parseInt(s, 16)`). */
  function FromBase16(s: string): nat
    requires AllLowerHex(s)
    decreases |s|
  {
    if s == [] then 0 else FromBase16(s[..|s| - 1]) * 16 + DigitValue(s[|s| - 1])
  }

  /** Reading the digits back gives the number. */
  lemma {:induction false} Base16RoundTrip(x: nat)
    ensures FromBase16(ToBase16(x)) == x
    decreases x
  {
    var r := ToBase16(x);
    if x < 16 {
      assert r[..0] == [];
      DigitRoundTrip(x);
    } else {
      Base16RoundTrip(x / 16);
      assert r[..|r| - 1] == ToBase16(x / 16);
      DigitRoundTrip(x % 16);
    }
  }

  /** A leading zero does not change the value. */
  lemma {:induction false} LeadingZero(s: string)
    requires AllLowerHex(s)
    ensures AllLowerHex("0" + s) && FromBase16("0" + s) == FromBase16(s)
    decreases |s|
  {
    var t := "0" + s;
    if s == [] {
      assert t[..0] == [];
    } else {
      LeadingZero(s[..|s| - 1]);
      assert t[..|t| - 1] == "0" + s[..|s| - 1];
      assert t[|t| - 1] == s[|s| - 1];
    }
  }
}
