/** The control sequences a repaint is made of, how they are written, and the
    grammar a terminal reads them back by (sections 5.3 and 5.4 of ECMA-48). */
module Ansi {
  import opened Utf8
  import opened Decimal

  const ESC: Byte := 0x1B
  const BEL: Byte := 0x07
  const SEMI: Byte := 0x3B
  const QUESTION: Byte := 0x3F

  /** One control function or one character of text. `Other` is any sequence
      the terminal reads whole and does not act on. */
  datatype Op =
    | Csi(private: bool, params: seq<nat>, fin: Byte)
    | Esc(code: Byte)
    | Title(title: string)
    | Text(c: char)
    | Other

  function SetMode(code: nat): Op { Csi(true, [code], 'h' as int) }
  function ResetMode(code: nat): Op { Csi(true, [code], 'l' as int) }

  // ---- writing ----

  function Params(ps: seq<nat>): seq<Byte> {
    if ps == [] then []
    else if |ps| == 1 then Digits(ps[0])
    else Digits(ps[0]) + [SEMI] + Params(ps[1..])
  }

  function Print(op: Op): seq<Byte> {
    match op
    case Csi(private, ps, fin) =>
      [ESC, 0x5B] + ((if private then [QUESTION] else []) + Params(ps) + [fin])
    case Esc(code) => [ESC, code]
    case Title(title) => [ESC, 0x5D, 0x30, SEMI] + EncodeAll(title) + [BEL]
    case Text(c) => Encode(c)
    case Other => []
  }

  function PrintAll(ops: seq<Op>): seq<Byte> {
    if ops == [] then [] else Print(ops[0]) + PrintAll(ops[1..])
  }

  lemma {:induction false} PrintAllConcat(a: seq<Op>, b: seq<Op>)
    ensures PrintAll(a + b) == PrintAll(a) + PrintAll(b)
  {
    if a == [] {
      assert a + b == b;
    } else {
      assert (a + b)[1..] == a[1..] + b;
      PrintAllConcat(a[1..], b);
    }
  }

  /** What can be printed so that it reads back: a CSI final byte in columns 4
      to 7, an escape that opens no longer form, text with no controls. */
  predicate Writable(op: Op) {
    match op
    case Csi(_, ps, fin) => 0x40 <= fin < 0x7F
    case Esc(code) => code in {0x37, 0x38, 0x3D, 0x63}
    case Title(title) => forall i :: 0 <= i < |title| ==> !IsControl(title[i])
    case Text(c) => !IsControl(c)
    case Other => false
  }

  predicate AllWritable(ops: seq<Op>) { forall i :: 0 <= i < |ops| ==> Writable(ops[i]) }

  // ---- reading ----

  predicate IsParamByte(b: Byte) { 0x30 <= b < 0x40 }

  /** How many bytes of `s` from `at` on are parameter bytes. */
  function ParamEnd(s: seq<Byte>, at: nat): (e: nat)
    requires at <= |s|
    ensures at <= e <= |s|
    decreases |s| - at
  {
    if at < |s| && IsParamByte(s[at]) then ParamEnd(s, at + 1) else at
  }

  /** The end of an OSC opened before `at`: where its terminator (BEL or ST)
      starts, and where what follows it does. */
  function OscEnd(s: seq<Byte>, at: nat): (r: Option<(nat, nat)>)
    requires at <= |s|
    ensures r.Some? ==> at <= r.value.0 < r.value.1 <= |s|
    decreases |s| - at
  {
    if at == |s| then None
    else if s[at] == BEL then Some((at, at + 1))
    else if s[at] == ESC && at + 1 < |s| && s[at + 1] == 0x5C then Some((at, at + 2))
    else OscEnd(s, at + 1)
  }

  /** Where the first `;` of `s` is, or its length. */
  function Semi(s: seq<Byte>): (i: nat)
    ensures i <= |s| && (i < |s| ==> s[i] == SEMI)
    ensures forall j :: 0 <= j < i ==> s[j] != SEMI
  {
    if s == [] || s[0] == SEMI then 0 else 1 + Semi(s[1..])
  }

  /** `split(';')`: never empty. */
  function Split(s: seq<Byte>): (parts: seq<seq<Byte>>)
    ensures parts != []
    decreases |s|
  {
    var i := Semi(s);
    if i == |s| then [s] else [s[..i]] + Split(s[i + 1..])
  }

  /** The number in each parameter; an empty one is 0, which every control
      function here reads as its default. */
  function Numbers(parts: seq<seq<Byte>>): seq<nat>
    requires forall i :: 0 <= i < |parts| ==> AllDigits(parts[i])
  {
    if parts == [] then [] else [Value(parts[0])] + Numbers(parts[1..])
  }

  function ReadText(private: bool, text: seq<Byte>, fin: Byte): Op {
    var parts := Split(text);
    if !(0x40 <= fin < 0x7F) || exists i :: 0 <= i < |parts| && !AllDigits(parts[i]) then Other
    else Csi(private, if text == [] then [] else Numbers(parts), fin)
  }

  function ReadCsi(body: seq<Byte>, fin: Byte): Op {
    if body != [] && body[0] == QUESTION then ReadText(true, body[1..], fin) else ReadText(false, body, fin)
  }

  /** The control function or character at the front of `s`, and its length.
      A sequence the stream ends inside is `Other`. */
  function Next(s: seq<Byte>): (r: (Op, nat))
    requires s != []
    ensures 1 <= r.1 <= |s|
  {
    if s[0] != ESC then
      var (c, n) := First(s);
      (Text(c), n)
    else if |s| == 1 then (Other, 1)
    else if s[1] == 0x5B then
      var e := ParamEnd(s, 2);
      if e == |s| then (Other, |s|) else (ReadCsi(s[2..e], s[e]), e + 1)
    else if s[1] == 0x5D then
      match OscEnd(s, 2)
      case None => (Other, |s|)
      case Some((end, after)) =>
        (if end - 2 >= 2 && s[2] in {0x30, 0x32} && s[3] == SEMI then Title(Lossy(s[4..end])) else Other, after)
    else (Esc(s[1]), 2)
  }

  // ---- reading undoes writing ----

  lemma {:induction false} ParamsAreParamBytes(ps: seq<nat>)
    ensures forall i :: 0 <= i < |Params(ps)| ==> IsDigit(Params(ps)[i]) || Params(ps)[i] == SEMI
    ensures ps != [] ==> Params(ps) != [] && IsDigit(Params(ps)[0])
  {
    if |ps| > 1 {
      ParamsAreParamBytes(ps[1..]);
    }
  }

  lemma {:induction false} SemiAt(a: seq<Byte>, rest: seq<Byte>)
    requires AllDigits(a)
    requires rest == [] || rest[0] == SEMI
    ensures Semi(a + rest) == |a|
  {
    if a == [] {
      assert a + rest == rest;
    } else {
      assert (a + rest)[1..] == a[1..] + rest;
      SemiAt(a[1..], rest);
    }
  }

  function Numerals(ps: seq<nat>): (r: seq<seq<Byte>>)
    ensures |r| == |ps| && forall i :: 0 <= i < |r| ==> r[i] == Digits(ps[i])
  {
    seq(|ps|, i requires 0 <= i < |ps| => Digits(ps[i]))
  }

  lemma {:induction false} SplitOfParams(ps: seq<nat>)
    requires ps != []
    ensures Split(Params(ps)) == Numerals(ps)
  {
    var s := Params(ps);
    var d := Digits(ps[0]);
    if |ps| == 1 {
      SemiAt(d, []);
      assert s == d + [];
    } else {
      var rest := [SEMI] + Params(ps[1..]);
      assert s == d + rest;
      SemiAt(d, rest);
      assert s[..|d|] == d && s[|d| + 1..] == Params(ps[1..]);
      SplitOfParams(ps[1..]);
    }
  }

  lemma {:induction false} NumbersOfNumerals(ps: seq<nat>)
    ensures Numbers(Numerals(ps)) == ps
  {
    if ps != [] {
      ValueOfDigits(ps[0]);
      assert Numerals(ps)[1..] == Numerals(ps[1..]);
      NumbersOfNumerals(ps[1..]);
    }
  }

  lemma {:induction false} NumeralsAreDigits(parts: seq<seq<Byte>>, ps: seq<nat>)
    requires parts == Numerals(ps)
    ensures forall i :: 0 <= i < |parts| ==> AllDigits(parts[i])
  {
  }

  lemma ReadsBackNumbers(private: bool, ps: seq<nat>, fin: Byte)
    requires 0x40 <= fin < 0x7F && ps != []
    ensures Params(ps) != [] && IsDigit(Params(ps)[0])
    ensures ReadText(private, Params(ps), fin) == Csi(private, ps, fin)
  {
    hide Params, Numbers, Split;
    ParamsAreParamBytes(ps);
    SplitOfParams(ps);
    NumeralsAreDigits(Split(Params(ps)), ps);
    NumbersOfNumerals(ps);
  }

  lemma ReadsBackNone(private: bool, fin: Byte)
    requires 0x40 <= fin < 0x7F
    ensures ReadText(private, [], fin) == Csi(private, [], fin)
  {
    var none: seq<Byte> := [];
    assert Split(none) == [none];
    assert forall i :: 0 <= i < |Split(none)| ==> AllDigits(Split(none)[i]);
  }

  lemma ReadsBackCsi(private: bool, ps: seq<nat>, fin: Byte)
    requires 0x40 <= fin < 0x7F
    ensures ReadCsi((if private then [QUESTION] else []) + Params(ps), fin) == Csi(private, ps, fin)
  {
    hide ReadText, Digits;
    var body := (if private then [QUESTION] else []) + Params(ps);
    if ps == [] {
      ReadsBackNone(private, fin);
      assert Params(ps) == [];
    } else {
      ReadsBackNumbers(private, ps, fin);
    }
    assert private ==> body[1..] == Params(ps);
    assert !private ==> body == Params(ps);
  }

  lemma {:induction false} ParamEndIs(s: seq<Byte>, at: nat, e: nat)
    requires at <= e < |s|
    requires forall i :: at <= i < e ==> IsParamByte(s[i])
    requires !IsParamByte(s[e])
    ensures ParamEnd(s, at) == e
    decreases e - at
  {
    if at < e {
      ParamEndIs(s, at + 1, e);
    }
  }

  lemma {:induction false} OscEndIs(s: seq<Byte>, at: nat, e: nat)
    requires at <= e < |s|
    requires forall i :: at <= i < e ==> s[i] != BEL && s[i] != ESC
    requires s[e] == BEL
    ensures OscEnd(s, at) == Some((e, e + 1))
    decreases e - at
  {
    if at < e {
      OscEndIs(s, at + 1, e);
    }
  }

  lemma NextOfCsi(private: bool, ps: seq<nat>, fin: Byte, rest: seq<Byte>)
    requires 0x40 <= fin < 0x7F
    ensures var p := Print(Csi(private, ps, fin)); Next(p + rest) == (Csi(private, ps, fin), |p|)
  {
    hide ReadCsi, Params, ParamEnd;
    var p := Print(Csi(private, ps, fin));
    var s := p + rest;
    var body := (if private then [QUESTION] else []) + Params(ps);
    assert p == [ESC, 0x5B] + body + [fin];
    ParamsAreParamBytes(ps);
    var e := 2 + |body|;
    assert forall i :: 2 <= i < e ==> s[i] == body[i - 2];
    assert s[0] == ESC && s[1] == 0x5B && s[e] == fin;
    ParamEndIs(s, 2, e);
    assert s[2..e] == body;
    ReadsBackCsi(private, ps, fin);
  }

  lemma NextOfOsc(s: seq<Byte>, e: nat)
    requires 4 <= e < |s|
    requires s[0] == ESC && s[1] == 0x5D && s[2] == 0x30 && s[3] == SEMI && s[e] == BEL
    requires forall i :: 4 <= i < e ==> 0x20 <= s[i]
    ensures Next(s) == (Title(Lossy(s[4..e])), e + 1)
  {
    OscEndIs(s, 2, e);
  }

  lemma NextOfTitle(title: string, rest: seq<Byte>)
    requires forall i :: 0 <= i < |title| ==> !IsControl(title[i])
    ensures var p := Print(Title(title)); Next(p + rest) == (Title(title), |p|)
  {
    EncodeAllPrintable(title);
    var text := EncodeAll(title);
    var p := Print(Title(title));
    var s := p + rest;
    var e := 4 + |text|;
    assert p[4..e] == text && s[4..e] == text;
    assert forall i :: 4 <= i < e ==> s[i] in text;
    assert s[e] == BEL;
    NextOfOsc(s, e);
    LossyOfEncoded(title);
  }

  /** Every writable control function reads back as itself, whatever follows. */
  lemma NextOfPrint(op: Op, rest: seq<Byte>)
    requires Writable(op)
    ensures Print(op) != []
    ensures Next(Print(op) + rest) == (op, |Print(op)|)
  {
    match op {
      case Text(c) =>
        FirstOfEncode(c, rest);
        assert (Print(op) + rest)[0] == Encode(c)[0];
      case Esc(code) =>
        var s := Print(op) + rest;
        assert s[0] == ESC && s[1] == code;
      case Csi(private, ps, fin) => NextOfCsi(private, ps, fin, rest);
      case Title(title) => NextOfTitle(title, rest);
    }
  }

  // ---- streams that end between sequences ----

  predicate TextComplete(s: seq<Byte>)
    requires s != []
  {
    var w := Width(s[0]);
    w <= 1 || (|s| >= 2 && (!SecondOk(s[0], s[1]) || w == 2
                            || (|s| >= 3 && (!IsContinuation(s[2]) || w == 3 || |s| >= 4))))
  }

  /** Nothing that follows can change what is read at the front. */
  predicate Complete(s: seq<Byte>)
    requires s != []
  {
    if s[0] != ESC then TextComplete(s)
    else if |s| == 1 then false
    else if s[1] == 0x5B then ParamEnd(s, 2) < |s|
    else if s[1] == 0x5D then OscEnd(s, 2).Some?
    else true
  }

  /** The stream ends after a whole character or control function. */
  predicate Whole(s: seq<Byte>)
    decreases |s|
  {
    s == [] || (Complete(s) && Whole(s[Next(s).1..]))
  }

  lemma {:induction false} ParamEndExtends(s: seq<Byte>, more: seq<Byte>, at: nat)
    requires at <= |s| && ParamEnd(s, at) < |s|
    ensures ParamEnd(s + more, at) == ParamEnd(s, at)
    decreases |s| - at
  {
    assert (s + more)[at] == s[at];
    if IsParamByte(s[at]) {
      ParamEndExtends(s, more, at + 1);
    }
  }

  lemma {:induction false} OscEndExtends(s: seq<Byte>, more: seq<Byte>, at: nat)
    requires at <= |s| && OscEnd(s, at).Some?
    ensures OscEnd(s + more, at) == OscEnd(s, at)
    decreases |s| - at
  {
    assert (s + more)[at] == s[at];
    if s[at] != BEL && !(s[at] == ESC && at + 1 < |s| && s[at + 1] == 0x5C) {
      OscEndExtends(s, more, at + 1);
    }
  }

  lemma FirstExtends(s: seq<Byte>, more: seq<Byte>)
    requires s != [] && TextComplete(s)
    ensures First(s + more) == First(s)
  {
    assert (s + more)[..|s|] == s;
  }

  lemma NextExtends(s: seq<Byte>, more: seq<Byte>)
    requires s != [] && Complete(s)
    ensures Next(s + more) == Next(s)
  {
    var whole := s + more;
    assert whole[0] == s[0];
    if s[0] != ESC {
      FirstExtends(s, more);
    } else {
      assert whole[1] == s[1];
      if s[1] == 0x5B {
        ParamEndExtends(s, more, 2);
        var e := ParamEnd(s, 2);
        assert whole[2..e] == s[2..e] && whole[e] == s[e];
      } else if s[1] == 0x5D {
        OscEndExtends(s, more, 2);
        var end := OscEnd(s, 2).value.0;
        if end >= 4 {
          assert whole[4..end] == s[4..end] && whole[2] == s[2] && whole[3] == s[3];
        }
      }
    }
  }
}
