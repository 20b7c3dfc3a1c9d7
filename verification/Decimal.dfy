/** Decimal numerals, as `format!` prints them and `str::parse` reads them. */
module Decimal {
  import opened Utf8

  predicate IsDigit(b: Byte) { 48 <= b <= 57 }

  predicate AllDigits(bs: seq<Byte>) { forall i :: 0 <= i < |bs| ==> IsDigit(bs[i]) }

  function Digits(n: nat): (ds: seq<Byte>)
    ensures ds != [] && AllDigits(ds)
  {
    if n < 10 then [48 + n] else Digits(n / 10) + [48 + n % 10]
  }

  function Value(ds: seq<Byte>): nat
    requires AllDigits(ds)
  {
    if ds == [] then 0 else Value(ds[..|ds| - 1]) * 10 + (ds[|ds| - 1] - 48)
  }

  lemma {:induction false} ValueOfDigits(n: nat)
    ensures Value(Digits(n)) == n
  {
    if n >= 10 {
      ValueOfDigits(n / 10);
      var ds := Digits(n);
      assert ds[..|ds| - 1] == Digits(n / 10);
    }
  }

  /** A numeral as text. */
  function Chars(digits: seq<Byte>): (s: string)
    requires AllDigits(digits)
    ensures |s| == |digits| && forall i :: 0 <= i < |s| ==> s[i] as int == digits[i]
  {
    if digits == [] then "" else [digits[0] as char] + Chars(digits[1..])
  }

  predicate AllDecimal(s: string) { forall i :: 0 <= i < |s| ==> '0' <= s[i] <= '9' }

  /** Text as the numeral it is. */
  function DigitsOf(s: string): (digits: seq<Byte>)
    requires AllDecimal(s)
    ensures AllDigits(digits) && |digits| == |s| && forall i :: 0 <= i < |s| ==> digits[i] == s[i] as int
  {
    if s == "" then [] else [s[0] as int] + DigitsOf(s[1..])
  }

  lemma DigitsOfChars(digits: seq<Byte>)
    requires AllDigits(digits)
    ensures AllDecimal(Chars(digits)) && DigitsOf(Chars(digits)) == digits
  {
    hide Chars, DigitsOf;
  }

  datatype Option<+T> = None | Some(value: T)

  /** `str::parse::<u16>` on bytes that hold no sign. */
  function ParseU16(bs: seq<Byte>): Option<nat> {
    if bs != [] && AllDigits(bs) && Value(bs) < 0x10000 then Some(Value(bs)) else None
  }
}
