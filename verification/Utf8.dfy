/** Bytes, and the UTF-8 form of Unicode text (section 3 of RFC 3629). */
module Utf8 {
  type Byte = b: int | 0 <= b < 256

  const REPLACEMENT: char := '\U{FFFD}'

  predicate IsContinuation(b: Byte) { 0x80 <= b < 0xC0 }

  /** C0, DEL and C1: the characters `char::is_control` is true of. */
  predicate IsControl(c: char) { (c as int) < 0x20 || 0x7F <= (c as int) < 0xA0 }

  /** `char::is_whitespace`: the Unicode property White_Space. */
  predicate IsWhite(c: char) {
    var n := c as int;
    || 9 <= n <= 13 || n == 0x20 || n == 0x85 || n == 0xA0 || n == 0x1680 || 0x2000 <= n <= 0x200A
    || n == 0x2028 || n == 0x2029 || n == 0x202F || n == 0x205F || n == 0x3000
  }

  predicate IsUpper(c: char) { 'A' <= c <= 'Z' }

  /** `char::to_ascii_lowercase`. */
  function Lower(c: char): char { if IsUpper(c) then (c as int + 32) as char else c }

  function Encode(c: char): (bs: seq<Byte>)
    ensures 1 <= |bs| <= 4
    ensures !IsControl(c) ==> forall i :: 0 <= i < |bs| ==> 0x20 <= bs[i] && bs[i] != 0x7F
    ensures !IsContinuation(bs[0])
    ensures forall i :: 1 <= i < |bs| ==> IsContinuation(bs[i])
  {
    var n := c as int;
    if n < 0x80 then [n]
    else if n < 0x800 then [0xC0 + n / 64, 0x80 + n % 64]
    else if n < 0x10000 then [0xE0 + n / 4096, 0x80 + n / 64 % 64, 0x80 + n % 64]
    else [0xF0 + n / 262144, 0x80 + n / 4096 % 64, 0x80 + n / 64 % 64, 0x80 + n % 64]
  }

  function EncodeAll(s: string): seq<Byte> {
    if s == [] then [] else Encode(s[0]) + EncodeAll(s[1..])
  }

  /** Whether `second` may follow the lead byte of a longer form: the table of
      section 4 of RFC 3629, which shuts out overlong forms and surrogates. */
  predicate SecondOk(lead: Byte, second: Byte) {
    if lead == 0xE0 then 0xA0 <= second < 0xC0
    else if lead == 0xED then 0x80 <= second < 0xA0
    else if lead == 0xF0 then 0x90 <= second < 0xC0
    else if lead == 0xF4 then 0x80 <= second < 0x90
    else IsContinuation(second)
  }

  function Width(lead: Byte): nat {
    if lead < 0x80 then 1
    else if 0xC2 <= lead < 0xE0 then 2
    else if 0xE0 <= lead < 0xF0 then 3
    else if 0xF0 <= lead < 0xF5 then 4
    else 0
  }

  /** The six payload bits of a continuation byte. */
  function Low(b: Byte): int { b - 0x80 }

  /** The first character of `bs`, read lossily, and how many bytes it took: a
      maximal ill-formed prefix reads as one replacement character. */
  function First(bs: seq<Byte>): (r: (char, nat))
    requires bs != []
    ensures 1 <= r.1 <= |bs|
  {
    var w := Width(bs[0]);
    if w == 1 then (bs[0] as char, 1)
    else if w == 0 || |bs| < 2 || !SecondOk(bs[0], bs[1]) then (REPLACEMENT, 1)
    else if w == 2 then (((bs[0] - 0xC0) as int * 64 + Low(bs[1])) as char, 2)
    else if |bs| < 3 || !IsContinuation(bs[2]) then (REPLACEMENT, 2)
    else if w == 3 then (((bs[0] - 0xE0) as int * 4096 + Low(bs[1]) * 64 + Low(bs[2])) as char, 3)
    else if |bs| < 4 || !IsContinuation(bs[3]) then (REPLACEMENT, 3)
    else
      (((bs[0] - 0xF0) as int * 262144 + Low(bs[1]) * 4096 + Low(bs[2]) * 64 + Low(bs[3])) as char, 4)
  }

  /** `String::from_utf8_lossy`. */
  function Lossy(bs: seq<Byte>): string {
    if bs == [] then "" else
      var (c, n) := First(bs);
      [c] + Lossy(bs[n..])
  }

  lemma Sextets(n: nat)
    ensures n / 64 == n / 4096 * 64 + n / 64 % 64
    ensures n / 4096 == n / 262144 * 64 + n / 4096 % 64
    ensures n == n / 64 * 64 + n % 64
  {
    assert n / 64 / 64 == n / 4096;
    assert n / 4096 / 64 == n / 262144;
  }

  lemma FirstOfEncode(c: char, rest: seq<Byte>)
    ensures First(Encode(c) + rest) == (c, |Encode(c)|)
  {
    var n := c as int;
    var e := Encode(c);
    var s := e + rest;
    Sextets(n);
    assert s[..|e|] == e;
    if n < 0x80 {
      assert s[0] == n;
    } else if n < 0x800 {
      assert s[0] == 0xC0 + n / 64 && s[1] == 0x80 + n % 64;
    } else if n < 0x10000 {
      assert s[0] == 0xE0 + n / 4096 && s[1] == 0x80 + n / 64 % 64 && s[2] == 0x80 + n % 64;
      assert Width(s[0]) == 3 && SecondOk(s[0], s[1]);
    } else {
      FirstOfFour(n, s);
    }
  }

  lemma FirstOfFour(n: nat, s: seq<Byte>)
    requires 0x10000 <= n < 0x110000 && |s| >= 4
    requires s[0] == 0xF0 + n / 262144 && s[1] == 0x80 + n / 4096 % 64
    requires s[2] == 0x80 + n / 64 % 64 && s[3] == 0x80 + n % 64
    ensures First(s) == (n as char, 4)
  {
    Sextets(n);
    assert Width(s[0]) == 4 && SecondOk(s[0], s[1]);
    assert IsContinuation(s[2]) && IsContinuation(s[3]);
  }

  lemma {:induction false} LossyOfEncoded(s: string)
    ensures Lossy(EncodeAll(s)) == s
  {
    if s != [] {
      FirstOfEncode(s[0], EncodeAll(s[1..]));
      assert EncodeAll(s)[|Encode(s[0])|..] == EncodeAll(s[1..]);
      LossyOfEncoded(s[1..]);
    }
  }

  lemma {:induction false} EncodeAllPrintable(s: string)
    requires forall i :: 0 <= i < |s| ==> !IsControl(s[i])
    ensures forall b :: b in EncodeAll(s) ==> 0x20 <= b && b != 0x7F
  {
    if s != [] {
      EncodeAllPrintable(s[1..]);
    }
  }
}
