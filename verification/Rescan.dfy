/** A repaint as its two readers see it: the client's terminal, and a scanner
    that has seen nothing else. */
module Rescan {
  import opened Utf8
  import opened Decimal
  import opened Ansi
  import opened Scanner
  import opened Terminal
  import opened Repaint
  import opened Restore
  import opened RestoreScreen

  // ---- what one control function does to a scanner ----

  function U16(n: nat): Option<nat> { if n < 0x10000 then Some(n) else None }

  function U16s(ps: seq<nat>): seq<nat> {
    if ps == [] then [] else (if ps[0] < 0x10000 then [ps[0]] else []) + U16s(ps[1..])
  }

  function ActOp(st: State, op: Op): State {
    match op
    case Csi(private, ps, fin) =>
      if private && fin in {'h' as int, 'l' as int} then
        st.(modes := SetScanned(st.modes, U16s(ps), fin == 'h' as int))
      else if !private && fin == 'r' as int then
        st.(region := Region(if |ps| > 0 then U16(ps[0]) else None, if |ps| > 1 then U16(ps[1]) else None))
      else st
    case Esc(code) => if code == 0x63 then st.(modes := [], region := None, title := None) else st
    case Title(title) => st.(title := Some(Printable(title)))
    case _ => st
  }

  function ActAll(st: State, ops: seq<Op>): State
    decreases |ops|
  {
    if ops == [] then st else ActAll(ActOp(st, ops[0]), ops[1..])
  }

  lemma {:induction false} ActAllConcat(st: State, a: seq<Op>, b: seq<Op>)
    ensures ActAll(st, a + b) == ActAll(ActAll(st, a), b)
    decreases |a|
  {
    if a == [] {
      assert a + b == b;
    } else {
      assert (a + b)[1..] == a[1..] + b;
      ActAllConcat(ActOp(st, a[0]), a[1..], b);
    }
  }

  // ---- the scanner reads what was written ----

  lemma ParsesDigits(n: nat)
    ensures ParseU16(Digits(n)) == U16(n)
  {
    ValueOfDigits(n);
  }

  lemma {:induction false} CodesOfNumerals(ps: seq<nat>)
    ensures Codes(Numerals(ps)) == U16s(ps)
  {
    if ps != [] {
      ParsesDigits(ps[0]);
      assert Numerals(ps)[1..] == Numerals(ps[1..]);
      CodesOfNumerals(ps[1..]);
    }
  }

  lemma {:induction false} NumeralEndIs(s: seq<Byte>, at: nat, e: nat)
    requires at <= e < |s| && !IsNumeral(s[e])
    requires forall i :: at <= i < e ==> IsNumeral(s[i])
    ensures NumeralEnd(s, at) == e
    decreases e - at
  {
    if at < e {
      NumeralEndIs(s, at + 1, e);
    }
  }

  lemma CodesOfParams(ps: seq<nat>)
    ensures Codes(Split(Params(ps))) == U16s(ps)
    ensures ParseU16(Split(Params(ps))[0]) == if |ps| > 0 then U16(ps[0]) else None
    ensures |Split(Params(ps))| > 1 <==> |ps| > 1
    ensures |ps| > 1 ==> ParseU16(Split(Params(ps))[1]) == U16(ps[1])
  {
    hide Params, ParseU16, Split;
    if ps == [] {
      SplitOfNone();
    } else {
      SplitOfParams(ps);
      CodesOfNumerals(ps);
      ParsesDigits(ps[0]);
      if |ps| > 1 {
        ParsesDigits(ps[1]);
      }
    }
  }

  lemma SplitOfNone()
    ensures Split(Params([])) == [[]] && Codes([[]]) == [] && ParseU16([]) == None
  {
    var none: seq<Byte> := [];
    assert Split(none) == [none] && [none][1..] == [];
  }

  lemma ParseCsiActs(st: State, private: bool, ps: seq<nat>, fin: Byte, len: nat)
    ensures Act(st, ParseCsi(Params(ps), private, fin, len)) == ActOp(st, Csi(private, ps, fin))
  {
    hide Params, ParseU16, Split, Codes, U16s, SetScanned;
    CodesOfParams(ps);
  }

  lemma EscapeAt(s: seq<Byte>, private: bool, e: nat)
    requires var start := if private then 3 else 2; start <= e < |s|
    requires s[0] == ESC && s[1] == 0x5B && (private <==> s[2] == QUESTION)
    requires !IsNumeral(s[e]) && forall i :: (if private then 3 else 2) <= i < e ==> IsNumeral(s[i])
    ensures ParseEscape(s) == ParseCsi(s[if private then 3 else 2..e], private, s[e], e + 1)
  {
    NumeralEndIs(s, if private then 3 else 2, e);
  }

  lemma EscapeOfCsi(private: bool, ps: seq<nat>, fin: Byte, rest: seq<Byte>)
    requires 0x40 <= fin < 0x7F
    ensures var p := Print(Csi(private, ps, fin));
            ParseEscape(p + rest) == ParseCsi(Params(ps), private, fin, |p|)
  {
    hide ParseEscape, ParseCsi;
    var params := Params(ps);
    var p := Print(Csi(private, ps, fin));
    var s := p + rest;
    ParamsAreParamBytes(ps);
    hide Params;
    var start := if private then 3 else 2;
    var e := start + |params|;
    assert p == [ESC, 0x5B] + (if private then [QUESTION] else []) + params + [fin];
    assert p[start..e] == params && p[e] == fin && |p| == e + 1;
    assert s[..|p|] == p && s[start..e] == params;
    assert forall i :: start <= i < e ==> s[i] == params[i - start];
    EscapeAt(s, private, e);
  }

  lemma EscapeOfTitle(title: string, rest: seq<Byte>)
    requires forall i :: 0 <= i < |title| ==> !IsControl(title[i])
    ensures var p := Print(Title(title)); ParseEscape(p + rest) == SetsTitle(title, |p|)
  {
    EncodeAllPrintable(title);
    LossyOfEncoded(title);
    var text := EncodeAll(title);
    var p := Print(Title(title));
    var a := [ESC, 0x5D, 0x30, SEMI] + text;
    assert p == a + [BEL];
    TitleEscape(a, text, rest);
    assert a + ([BEL] + rest) == p + rest;
  }

  lemma TitleEscape(a: seq<Byte>, text: seq<Byte>, rest: seq<Byte>)
    requires a == [ESC, 0x5D, 0x30, SEMI] + text && forall b :: b in text ==> 0x20 <= b
    ensures ParseEscape(a + ([BEL] + rest)) == SetsTitle(Printable(Lossy(text)), |a| + 1)
  {
    assert a[4..] == text;
    assert forall i :: 4 <= i < |a| ==> a[i] in text;
    TitleParses(a, [BEL], rest);
  }

  lemma ScanPastEscape(st: State, p: seq<Byte>, rest: seq<Byte>)
    requires p != [] && p[0] == ESC
    requires var e := ParseEscape(p + rest); !e.Incomplete? && e.len == |p|
    ensures ScanFrom(st, p + rest) == ScanFrom(Act(st, ParseEscape(p + rest)), rest)
  {
    assert (p + rest)[|p|..] == rest && (p + rest)[0] == ESC;
  }

  lemma ScanOfOp(st: State, op: Op, rest: seq<Byte>)
    requires Writable(op)
    ensures ScanFrom(st, Print(op) + rest) == ScanFrom(ActOp(st, op), rest)
  {
    hide ScanFrom, ParseEscape;
    match op {
      case Text(c) =>
        PlainIsSkipped(st, Encode(c), rest);
      case Esc(code) =>
        EscapeOfEsc(code, rest);
        ScanPastEscape(st, Print(op), rest);
      case Csi(private, ps, fin) =>
        EscapeOfCsi(private, ps, fin, rest);
        ParseCsiActs(st, private, ps, fin, |Print(op)|);
        ScanPastEscape(st, Print(op), rest);
      case Title(title) =>
        EscapeOfTitle(title, rest);
        ScanPastEscape(st, Print(op), rest);
    }
  }

  lemma EscapeOfEsc(code: Byte, rest: seq<Byte>)
    requires Writable(Esc(code))
    ensures ParseEscape([ESC, code] + rest) == if code == 0x63 then Reset(2) else Skip(2)
  {
    var s := [ESC, code] + rest;
    assert s[1] == code;
  }

  lemma {:induction false} ScanOfOps(st: State, ops: seq<Op>, rest: seq<Byte>)
    requires AllWritable(ops)
    ensures ScanFrom(st, PrintAll(ops) + rest) == ScanFrom(ActAll(st, ops), rest)
    decreases |ops|
  {
    if ops == [] {
      assert PrintAll(ops) + rest == rest;
    } else {
      ScanOpsStep(st, ops, rest);
      ScanOfOps(ActOp(st, ops[0]), ops[1..], rest);
    }
  }

  lemma ScanOpsStep(st: State, ops: seq<Op>, rest: seq<Byte>)
    requires ops != [] && Writable(ops[0])
    ensures ScanFrom(st, PrintAll(ops) + rest) == ScanFrom(ActOp(st, ops[0]), PrintAll(ops[1..]) + rest)
  {
    hide ScanFrom;
    ScanOfOp(st, ops[0], PrintAll(ops[1..]) + rest);
    assert PrintAll(ops) + rest == Print(ops[0]) + (PrintAll(ops[1..]) + rest);
  }

  // ---- any stream, as the terminal reads it ----

  /** The control functions and characters a stream is read as. */
  function ReadAll(bytes: seq<Byte>): seq<Op>
    decreases |bytes|
  {
    if bytes == [] then [] else [Next(bytes).0] + ReadAll(bytes[Next(bytes).1..])
  }

  predicate IsCsi(s: seq<Byte>) { |s| >= 2 && s[0] == ESC && s[1] == 0x5B }

  /** No CSI sequence is cut short by an ESC in the place of its final byte. */
  predicate Unbroken(bytes: seq<Byte>)
    decreases |bytes|
  {
    bytes == [] ||
    (&& (IsCsi(bytes) && ParamEnd(bytes, 2) < |bytes| ==> bytes[ParamEnd(bytes, 2)] != ESC)
     && Unbroken(bytes[Next(bytes).1..]))
  }

  lemma {:induction false} FeedOfRead(emu: Emulator, t: Terminal, bytes: seq<Byte>)
    requires Valid(t)
    ensures Feed(emu, t, bytes) == ExecAll(emu, t, ReadAll(bytes))
    decreases |bytes|
  {
    hide Exec, Next, Valid;
    if bytes != [] {
      var (op, n) := Next(bytes);
      FeedOfRead(emu, Exec(emu, t, op), bytes[n..]);
      assert ReadAll(bytes)[0] == op && ReadAll(bytes)[1..] == ReadAll(bytes[n..]);
    }
  }

  lemma ReadOne(op: Op, rest: seq<Byte>)
    requires Writable(op)
    ensures ReadAll(Print(op) + rest) == [op] + ReadAll(rest)
  {
    hide Next, Print;
    NextOfPrint(op, rest);
    assert (Print(op) + rest)[|Print(op)|..] == rest;
  }

  lemma {:induction false} ReadAllOfPrint(ops: seq<Op>)
    requires AllWritable(ops)
    ensures ReadAll(PrintAll(ops)) == ops
    decreases |ops|
  {
    hide Print, ReadAll, Writable;
    if ops == [] {
      NothingRead();
    } else {
      ReadOne(ops[0], PrintAll(ops[1..]));
      ReadAllOfPrint(ops[1..]);
      assert ops == [ops[0]] + ops[1..];
    }
  }

  lemma NothingRead()
    ensures ReadAll([]) == []
  {
  }

  lemma TextHasNoEsc(s: seq<Byte>)
    requires s != [] && s[0] != ESC
    ensures ESC !in s[..First(s).1]
  {
  }

  lemma ScanOfText(st: State, s: seq<Byte>)
    requires s != [] && s[0] != ESC
    ensures ScanFrom(st, s) == ScanFrom(st, s[First(s).1..])
  {
    var n := First(s).1;
    TextHasNoEsc(s);
    PlainIsSkipped(st, s[..n], s[n..]);
    assert s[..n] + s[n..] == s;
  }

  lemma ScanOfEscape(st: State, s: seq<Byte>)
    requires s != [] && s[0] == ESC && !ParseEscape(s).Incomplete?
    ensures ScanFrom(st, s) == ScanFrom(Act(st, ParseEscape(s)), s[ParseEscape(s).len..])
  {
  }

  lemma ScanOfOsc(st: State, s: seq<Byte>)
    requires |s| >= 2 && s[0] == ESC && s[1] == 0x5D && OscEnd(s, 2).Some?
    ensures ScanFrom(st, s) == ScanFrom(ActOp(st, Next(s).0), s[Next(s).1..])
  {
    var (at, len) := OscEnd(s, 2).value;
    var payload := s[2..at];
    ScanOfEscape(st, s);
    hide ScanFrom, OscEnd;
    SemiAtOne(payload);
    if |payload| >= 2 && payload[0] in {0x30, 0x32} && payload[1] == SEMI {
      assert payload[2..] == s[4..at];
    }
  }

  /** A payload names a title exactly if it begins with a 0 or a 2 and a semicolon. */
  lemma SemiAtOne(payload: seq<Byte>)
    ensures var split := Semi(payload);
      split < |payload| && payload[..split] in {[0x30], [0x32]} <==>
        |payload| >= 2 && payload[0] in {0x30, 0x32} && payload[1] == SEMI
    ensures |payload| >= 2 && payload[0] in {0x30, 0x32} && payload[1] == SEMI ==>
      Semi(payload) == 1 && payload[..1] in {[0x30], [0x32]}
  {
    var split := Semi(payload);
    if |payload| >= 2 && payload[0] in {0x30, 0x32} && payload[1] == SEMI {
      assert payload[1..][0] == SEMI && Semi(payload[1..]) == 0;
      assert payload[..1] == [payload[0]];
    }
    if split < |payload| && payload[..split] in {[0x30], [0x32]} {
      assert |payload[..split]| == 1 && payload[..split][0] == payload[0];
    }
  }

  predicate AllNumerals(s: seq<Byte>) { forall i :: 0 <= i < |s| ==> IsNumeral(s[i]) }

  ghost predicate DigitParts(parts: seq<seq<Byte>>) { forall i :: 0 <= i < |parts| ==> AllDigits(parts[i]) }

  lemma NoSemi(part: seq<Byte>)
    requires forall i :: 0 <= i < |part| ==> part[i] != SEMI
    ensures AllNumerals(part) <==> AllDigits(part)
  {
  }

  lemma NumeralsJoin(a: seq<Byte>, b: seq<Byte>)
    ensures AllNumerals(a + ([SEMI] + b)) <==> AllNumerals(a) && AllNumerals(b)
  {
    var s := a + ([SEMI] + b);
    assert forall i :: 0 <= i < |a| ==> s[i] == a[i];
    assert forall i :: 0 <= i < |b| ==> s[|a| + 1 + i] == b[i];
  }

  lemma DigitsJoin(a: seq<Byte>, rest: seq<seq<Byte>>)
    ensures DigitParts([a] + rest) <==> AllDigits(a) && DigitParts(rest)
  {
    var parts := [a] + rest;
    assert parts[0] == a;
    assert forall i :: 0 <= i < |rest| ==> parts[i + 1] == rest[i];
    hide AllDigits;
  }

  lemma {:induction false} PartsAreDigits(s: seq<Byte>)
    ensures AllNumerals(s) <==> DigitParts(Split(s))
    decreases |s|
  {
    hide AllNumerals, AllDigits, Semi, DigitParts;
    var i := Semi(s);
    NoSemi(s[..i]);
    DigitsJoin(s[..i], if i < |s| then Split(s[i + 1..]) else []);
    if i < |s| {
      PartsAreDigits(s[i + 1..]);
      NumeralsJoin(s[..i], s[i + 1..]);
      assert s == s[..i] + ([SEMI] + s[i + 1..]);
    } else {
      assert s[..i] == s && [s] + [] == [s];
      NothingParted();
    }
  }

  lemma NothingParted()
    ensures DigitParts([])
  {
  }

  /** An empty parameter reads as 0, which no scanned mode is. */
  lemma {:induction false} CodesOfParts(modes: seq<(nat, bool)>, parts: seq<seq<Byte>>, on: bool)
    requires DigitParts(parts)
    ensures SetScanned(modes, Codes(parts), on) == SetScanned(modes, U16s(Numbers(parts)), on)
    decreases |parts|
  {
    if parts != [] {
      var n := Value(parts[0]);
      var next := if n in SCANNED_MODES then Set(modes, n, on) else modes;
      CodesOfParts(next, parts[1..], on);
      assert Numbers(parts)[0] == n && Numbers(parts)[1..] == Numbers(parts[1..]);
      var codes, others := Codes(parts[1..]), U16s(Numbers(parts[1..]));
      assert ([n] + codes)[1..] == codes && ([n] + others)[1..] == others;
      assert [] + codes == codes && [] + others == others;
      assert parts[0] == [] ==> n == 0;
    }
  }

  lemma RegionOfParts(parts: seq<seq<Byte>>)
    requires parts != [] && DigitParts(parts)
    ensures Region(ParseU16(parts[0]), if |parts| > 1 then ParseU16(parts[1]) else None)
         == var ps := Numbers(parts); Region(U16(ps[0]), if |ps| > 1 then U16(ps[1]) else None)
  {
    NumbersLength(parts);
    assert parts[0] == [] ==> Value(parts[0]) == 0;
    if |parts| > 1 {
      assert Numbers(parts)[1] == Value(parts[1]);
      assert parts[1] == [] ==> Value(parts[1]) == 0;
    }
  }

  lemma {:induction false} NumbersLength(parts: seq<seq<Byte>>)
    requires DigitParts(parts)
    ensures |Numbers(parts)| == |parts|
  {
    if parts != [] {
      NumbersLength(parts[1..]);
    }
  }

  lemma ReadsNumerals(private: bool, text: seq<Byte>, fin: Byte)
    requires AllNumerals(text)
    ensures DigitParts(Split(text))
    ensures ReadText(private, text, fin)
         == if 0x40 <= fin < 0x7F then Csi(private, if text == [] then [] else Numbers(Split(text)), fin) else Other
  {
    PartsAreDigits(text);
    hide Split, Numbers, AllNumerals;
  }

  /** A sequence of digits and semicolons, read both ways. */
  lemma CsiActs(st: State, private: bool, text: seq<Byte>, fin: Byte, len: nat)
    requires AllNumerals(text)
    ensures Act(st, ParseCsi(text, private, fin, len)) == ActOp(st, ReadText(private, text, fin))
  {
    ReadsNumerals(private, text, fin);
    var parts := Split(text);
    if text == [] {
      NothingSplit();
      NothingNamed(st.modes, parts, fin == 'h' as int);
    } else {
      CodesOfParts(st.modes, parts, fin == 'h' as int);
      RegionOfParts(parts);
      NumbersLength(parts);
    }
    hide Numbers, Codes, U16s, Split, SetScanned, ParseU16, ReadText, AllNumerals, DigitParts, Region, U16;
  }

  lemma NothingSplit()
    ensures Split([]) == [[]]
  {
    var none: seq<Byte> := [];
    assert Split(none) == [none];
  }

  lemma NothingNamed(modes: seq<(nat, bool)>, parts: seq<seq<Byte>>, on: bool)
    requires parts == [[]]
    ensures SetScanned(modes, Codes(parts), on) == modes && U16s([]) == [] && SetScanned(modes, [], on) == modes
    ensures ParseU16(parts[0]) == None
  {
    assert parts[1..] == [];
  }

  lemma {:induction false} NumeralEndStops(s: seq<Byte>, at: nat, e: nat)
    requires at <= e < |s| && !IsNumeral(s[e])
    ensures NumeralEnd(s, at) <= e
    ensures forall i :: at <= i < NumeralEnd(s, at) ==> IsNumeral(s[i])
    ensures !IsNumeral(s[NumeralEnd(s, at)])
    decreases e - at
  {
    if at < e && IsNumeral(s[at]) {
      NumeralEndStops(s, at + 1, e);
    }
  }

  lemma {:induction false} ParamEndStops(s: seq<Byte>, at: nat)
    requires at <= |s| && ParamEnd(s, at) < |s|
    ensures forall i :: at <= i < ParamEnd(s, at) ==> IsParamByte(s[i])
    ensures !IsParamByte(s[ParamEnd(s, at)])
    decreases |s| - at
  {
    if IsParamByte(s[at]) {
      ParamEndStops(s, at + 1);
    }
  }

  /** A CSI the scanner understands to its end. */
  lemma ScanOfNumeralCsi(st: State, s: seq<Byte>)
    requires IsCsi(s) && ParamEnd(s, 2) < |s|
    requires var start := if s[2] == QUESTION then 3 else 2;
      start <= ParamEnd(s, 2) && AllNumerals(s[start..ParamEnd(s, 2)])
    ensures ScanFrom(st, s) == ScanFrom(ActOp(st, Next(s).0), s[Next(s).1..])
  {
    var e, private := ParamEnd(s, 2), s[2] == QUESTION;
    var start := if private then 3 else 2;
    ParamEndStops(s, 2);
    var text := s[start..e];
    assert forall i :: start <= i < e ==> s[i] == text[i - start];
    EscapeAt(s, private, e);
    assert s[2..e] == (if private then [QUESTION] else []) + text;
    assert private ==> s[2..e][1..] == text;
    CsiActs(st, private, text, s[e], e + 1);
    ParsedIsWhole(text, private, s[e], e + 1);
    ScanOfEscape(st, s);
    hide ScanFrom, ParseEscape, ParseCsi, ReadText, Act, ActOp, AllNumerals, ParamEnd;
    NumeralIsNoQuestion(private, s[2..e], text, s[e]);
  }

  lemma ParsedIsWhole(text: seq<Byte>, private: bool, fin: Byte, len: nat)
    ensures !ParseCsi(text, private, fin, len).Incomplete? && ParseCsi(text, private, fin, len).len == len
  {
    hide Split, Codes;
  }

  lemma NumeralIsNoQuestion(private: bool, body: seq<Byte>, text: seq<Byte>, fin: Byte)
    requires body == (if private then [QUESTION] else []) + text && AllNumerals(text)
    ensures ReadCsi(body, fin) == ReadText(private, text, fin)
  {
    hide ReadText;
    assert private ==> body[1..] == text;
    assert !private ==> body == text;
    if !private && text != [] {
      assert IsNumeral(text[0]);
    }
  }

  /** A CSI with a byte the scanner does not know: it passes over the first part,
      and the rest is no escape. */
  lemma ScanOfOtherCsi(st: State, s: seq<Byte>)
    requires IsCsi(s) && ParamEnd(s, 2) < |s| && s[ParamEnd(s, 2)] != ESC
    requires var start := if s[2] == QUESTION then 3 else 2;
      start <= ParamEnd(s, 2) && !AllNumerals(s[start..ParamEnd(s, 2)])
    ensures ScanFrom(st, s) == ScanFrom(ActOp(st, Next(s).0), s[Next(s).1..])
  {
    var e := ParamEnd(s, 2);
    var start := if s[2] == QUESTION then 3 else 2;
    var k := StopsShort(s, start);
    OtherIsRead(s, e, start, s[start..e]);
    ScanPastOther(st, s, k, e);
    hide ScanFrom, ParamEnd, AllNumerals, ReadCsi;
  }

  lemma StopsShort(s: seq<Byte>, start: nat) returns (k: nat)
    requires IsCsi(s) && ParamEnd(s, 2) < |s| && start == (if s[2] == QUESTION then 3 else 2)
    requires start <= ParamEnd(s, 2) && !AllNumerals(s[start..ParamEnd(s, 2)])
    ensures start <= k < ParamEnd(s, 2) && !IsNumeral(s[k]) && IsParamByte(s[k])
    ensures forall i :: start <= i < k ==> IsNumeral(s[i])
    ensures forall i :: 2 <= i < ParamEnd(s, 2) ==> IsParamByte(s[i])
  {
    ParamEndStops(s, 2);
    hide ParamEnd, NumeralEnd, IsNumeral, IsParamByte;
    var text := s[start..ParamEnd(s, 2)];
    var bad :| 0 <= bad < |text| && !IsNumeral(text[bad]);
    assert text[bad] == s[start + bad];
    NumeralEndStops(s, start, start + bad);
    k := NumeralEnd(s, start);
  }

  lemma ScanPastOther(st: State, s: seq<Byte>, k: nat, e: nat)
    requires IsCsi(s) && 2 < |s| && (if s[2] == QUESTION then 3 else 2) <= k < e < |s| && s[e] != ESC
    requires !IsNumeral(s[k]) && IsParamByte(s[k])
    requires forall i :: (if s[2] == QUESTION then 3 else 2) <= i < k ==> IsNumeral(s[i])
    requires forall i :: 2 <= i < e ==> IsParamByte(s[i])
    ensures ScanFrom(st, s) == ScanFrom(st, s[e + 1..])
  {
    var start := if s[2] == QUESTION then 3 else 2;
    EscapeAt(s, s[2] == QUESTION, k);
    IsSkipped(s[start..k], s[2] == QUESTION, s[k], k + 1);
    hide ScanFrom, ParseEscape, ParseCsi;
    ScanOfEscape(st, s);
    RestIsPlain(s, k, e);
    PlainIsSkipped(st, s[k + 1..e + 1], s[e + 1..]);
    assert s[k + 1..e + 1] + s[e + 1..] == s[k + 1..];
  }

  lemma IsSkipped(text: seq<Byte>, private: bool, fin: Byte, len: nat)
    requires IsParamByte(fin)
    ensures ParseCsi(text, private, fin, len) == Skip(len)
  {
    hide Split, Codes;
  }

  lemma RestIsPlain(s: seq<Byte>, k: nat, e: nat)
    requires k < e < |s| && s[e] != ESC && forall i :: 2 <= i < e ==> IsParamByte(s[i])
    requires 2 <= k
    ensures ESC !in s[k + 1..e + 1]
  {
  }

  lemma OtherIsRead(s: seq<Byte>, e: nat, start: nat, text: seq<Byte>)
    requires IsCsi(s) && 2 < |s| && start == (if s[2] == QUESTION then 3 else 2) && start <= e < |s|
    requires text == s[start..e] && !AllNumerals(text)
    ensures ReadCsi(s[2..e], s[e]) == Other
  {
    PartsAreDigits(text);
    hide Split, Numbers, AllNumerals;
    if s[2] == QUESTION {
      assert s[2..e][0] == QUESTION && s[2..e][1..] == text;
    } else {
      assert s[2..e] == text;
      assert text != [] ==> text[0] == s[2];
    }
  }

  /** One step of the terminal's reading is some whole steps of the scanner's. */
  lemma ScanOfNext(st: State, s: seq<Byte>)
    requires s != [] && Complete(s)
    requires IsCsi(s) ==> s[ParamEnd(s, 2)] != ESC
    ensures ScanFrom(st, s) == ScanFrom(ActOp(st, Next(s).0), s[Next(s).1..])
  {
    if s[0] != ESC {
      ScanOfText(st, s);
    } else if s[1] == 0x5B {
      StartsInside(s);
      if AllNumerals(s[if s[2] == QUESTION then 3 else 2..ParamEnd(s, 2)]) {
        ScanOfNumeralCsi(st, s);
      } else {
        ScanOfOtherCsi(st, s);
      }
    } else if s[1] == 0x5D {
      ScanOfOsc(st, s);
    } else {
      ScanOfEscape(st, s);
    }
    hide ScanFrom, ParamEnd, OscEnd, TextComplete, ParseEscape, AllNumerals;
  }

  lemma StartsInside(s: seq<Byte>)
    requires IsCsi(s) && ParamEnd(s, 2) < |s|
    ensures 2 < |s| && (if s[2] == QUESTION then 3 else 2) <= ParamEnd(s, 2)
  {
  }

  /** Any stream that ends between sequences, in which no CSI is cut short: the
      scanner does what the functions the terminal reads in it say. */
  lemma {:induction false} ScanOfRead(st: State, bytes: seq<Byte>)
    requires Whole(bytes) && Unbroken(bytes)
    ensures ScanFrom(st, bytes) == ActAll(st, ReadAll(bytes))
    decreases |bytes|
  {
    hide ActOp, ScanFrom, ParamEnd, Next;
    if bytes == [] {
      NothingToScan(st);
    } else {
      CompleteCsi(bytes);
      ScanOfNext(st, bytes);
      hide Complete;
      var (op, n) := Next(bytes);
      ScanOfRead(ActOp(st, op), bytes[n..]);
      assert ReadAll(bytes)[0] == op && ReadAll(bytes)[1..] == ReadAll(bytes[n..]);
    }
  }

  lemma CompleteCsi(s: seq<Byte>)
    requires s != [] && Complete(s)
    ensures IsCsi(s) ==> ParamEnd(s, 2) < |s|
  {
  }

  // ---- the parts of a repaint ----

  /** Control functions the scanner takes nothing from. */
  predicate Quiet(op: Op) {
    match op
    case Csi(private, ps, fin) =>
      if private && fin in {'h' as int, 'l' as int} then |ps| == 1 && ps[0] !in SCANNED_MODES
      else private || fin != 'r' as int
    case Esc(code) => code != 0x63
    case Text(_) => true
    case _ => false
  }

  /** Writable, and quiet. */
  predicate Silent(ops: seq<Op>) {
    forall i :: 0 <= i < |ops| ==> Writable(ops[i]) && Quiet(ops[i])
  }

  lemma QuietActs(st: State, op: Op)
    requires Quiet(op)
    ensures ActOp(st, op) == st
  {
    match op {
      case Csi(private, ps, fin) =>
        if private && fin in {'h' as int, 'l' as int} {
          assert U16s(ps[1..]) == [] && U16s(ps) == (if ps[0] < 0x10000 then [ps[0]] else []);
          assert [ps[0]][1..] == [];
          assert SetScanned(st.modes, [ps[0]], fin == 'h' as int) == st.modes;
        }
      case _ =>
    }
  }

  lemma {:induction false} SilentActs(st: State, ops: seq<Op>)
    requires Silent(ops)
    ensures ActAll(st, ops) == st && AllWritable(ops)
    decreases |ops|
  {
    if ops != [] {
      QuietActs(st, ops[0]);
      SilentActs(st, ops[1..]);
    }
  }

  predicate PrintableRow(row: seq<Cell>) {
    forall i :: 0 <= i < |row| && !row[i].spacer ==>
      !IsControl(row[i].c) && forall j :: 0 <= j < |row[i].zerowidth| ==> !IsControl(row[i].zerowidth[j])
  }

  lemma SilentConcat(a: seq<Op>, b: seq<Op>)
    requires Silent(a) && Silent(b)
    ensures Silent(a + b)
  {
  }

  lemma CellIsSilent(cell: Cell, pen: Attrs)
    requires !cell.spacer ==> !IsControl(cell.c) && forall j :: 0 <= j < |cell.zerowidth| ==> !IsControl(cell.zerowidth[j])
    ensures Silent(CellOps(cell, pen))
  {
    hide SgrParams;
  }

  lemma {:induction false} CellsAreSilent(row: seq<Cell>, i: nat, n: nat, pen: Attrs)
    requires i <= n <= |row| && PrintableRow(row)
    ensures Silent(CellsOps(row, i, n, pen))
    decreases n - i
  {
    hide CellOps, Silent;
    if i < n {
      CellsAreSilent(row, i + 1, n, PenAfter(row[i], pen));
      CellIsSilent(row[i], pen);
      SilentConcat(CellOps(row[i], pen), CellsOps(row, i + 1, n, PenAfter(row[i], pen)));
    } else {
      SilentNone();
    }
  }

  lemma SilentNone()
    ensures Silent([])
  {
  }

  lemma RowIsSilent(row: seq<Cell>, r: nat, pen: Attrs)
    requires PrintableRow(row)
    ensures Silent(RowOps(row, r, pen))
  {
    hide PrintableRow, CellsOps;
    CellsAreSilent(row, 0, Used(row), pen);
    SilentConcat([Cup(r + 1, 1)], CellsOps(row, 0, Used(row), pen));
  }

  lemma {:induction false} RowsAreSilent(rows: seq<seq<Cell>>, n: nat)
    requires n <= |rows| && PrintableRows(rows)
    ensures Silent(RowsOps(rows, n))
  {
    hide RowOps, Silent, PrintableRow;
    if n > 0 {
      RowsAreSilent(rows, n - 1);
      RowIsSilent(rows[n - 1], n - 1, RowsPen(rows, n - 1));
      SilentConcat(RowsOps(rows, n - 1), RowOps(rows[n - 1], n - 1, RowsPen(rows, n - 1)));
    } else {
      SilentNone();
    }
  }

  lemma {:induction false} TrackedAreSilent(modes: set<nat>, codes: seq<nat>)
    requires forall m :: m in codes ==> m !in SCANNED_MODES
    ensures Silent(TrackedOps(modes, codes))
    decreases |codes|
  {
    if codes != [] {
      assert forall m :: m in codes[1..] ==> m in codes;
      TrackedAreSilent(modes, codes[1..]);
    }
  }

  function ReScanned(modes: seq<(nat, bool)>, on: seq<(nat, bool)>, codes: seq<nat>): seq<(nat, bool)>
    decreases |codes|
  {
    if codes == [] then modes
    else ReScanned(if IsOn(on, codes[0]) then Set(modes, codes[0], true) else modes, on, codes[1..])
  }

  lemma SetOne(st: State, code: nat)
    requires code in SCANNED_MODES
    ensures ActOp(st, SetMode(code)) == st.(modes := Set(st.modes, code, true))
  {
    assert U16s([code]) == [code] by { assert [code][1..] == []; assert U16s([]) == []; }
    var none: seq<nat> := [];
    assert [code][1..] == none;
    assert SetScanned(Set(st.modes, code, true), none, true) == Set(st.modes, code, true);
  }

  lemma {:induction false} ScannedActs(st: State, on: seq<(nat, bool)>, codes: seq<nat>)
    requires forall m :: m in codes ==> m in SCANNED_MODES
    ensures ActAll(st, ScannedOps(on, codes)) == st.(modes := ReScanned(st.modes, on, codes))
    ensures AllWritable(ScannedOps(on, codes))
    decreases |codes|
  {
    if codes != [] {
      assert forall m :: m in codes[1..] ==> m in codes;
      var rest := ScannedOps(on, codes[1..]);
      if IsOn(on, codes[0]) {
        var op := SetMode(codes[0]);
        SetOne(st, codes[0]);
        assert ScannedOps(on, codes) == [op] + rest && ([op] + rest)[1..] == rest;
        ScannedActs(st.(modes := Set(st.modes, codes[0], true)), on, codes[1..]);
      } else {
        assert ScannedOps(on, codes) == [] + rest == rest;
        ScannedActs(st, on, codes[1..]);
      }
    }
  }

  lemma {:induction false} IsOnOfSet(modes: seq<(nat, bool)>, code: nat, on: bool, c: nat)
    ensures IsOn(Set(modes, code, on), c) == if c == code then on else IsOn(modes, c)
  {
    if modes != [] && modes[0].0 != code {
      IsOnOfSet(modes[1..], code, on, c);
      assert Set(modes, code, on)[1..] == Set(modes[1..], code, on);
    } else if modes != [] {
      assert Set(modes, code, on)[1..] == modes[1..];
    } else {
      assert [(code, on)][1..] == [];
    }
  }

  lemma {:induction false} ReScannedIsOn(modes: seq<(nat, bool)>, on: seq<(nat, bool)>, codes: seq<nat>, c: nat)
    ensures IsOn(ReScanned(modes, on, codes), c) == (IsOn(modes, c) || (c in codes && IsOn(on, c)))
    decreases |codes|
  {
    if codes != [] {
      var next := if IsOn(on, codes[0]) then Set(modes, codes[0], true) else modes;
      IsOnOfSet(modes, codes[0], true, c);
      ReScannedIsOn(next, on, codes[1..], c);
      assert c in codes <==> c == codes[0] || c in codes[1..];
    }
  }

  // ---- the theorems ----

  predicate PrintableRows(rows: seq<seq<Cell>>) { forall r :: 0 <= r < |rows| ==> PrintableRow(rows[r]) }

  predicate Sized(g: Screen) { g.cols >= 1 && g.rows == |g.cells| }

  lemma HeadIsSilent(g: Screen)
    ensures Silent(HeadOps(g))
  {
    assert Silent([SetMode(SYNC)]) && Silent(if g.alt then [SetMode(ALTERNATE)] else []);
    assert Silent(if ORIGIN in g.modes then [ResetMode(ORIGIN)] else []);
  }

  lemma CursorIsSilent(g: Screen, sc: State)
    requires g.cols >= 1 && (sc.region.Some? ==> sc.region.value.0 >= 1)
    ensures Silent(CursorOps(g, sc))
  {
  }

  lemma PartsAreSilent(g: Screen, sc: State)
    requires Sized(g) && PrintableRows(g.cells) && StateOk(sc)
    ensures Silent(HeadOps(g)) && Silent(RowsOps(g.cells, g.rows)) && Silent([SgrOp(g.pen)])
    ensures Silent(CursorOps(g, sc)) && Silent(TrackedOps(g.modes, TRACKED_MODES))
    ensures Silent(if g.keypad then [Esc(0x3D)] else []) && Silent([ResetMode(SYNC)])
  {
    hide HeadOps, RowsOps, CursorOps, TrackedOps, SgrParams, PrintableRows;
    HeadIsSilent(g);
    RowsAreSilent(g.cells, g.rows);
    CursorIsSilent(g, sc);
    TrackedAreSilent(g.modes, TRACKED_MODES);
  }

  lemma ModesAct(st: State, g: Screen, sc: State)
    ensures ActAll(st, ModeOps(g, sc)) == st.(modes := ReScanned(st.modes, sc.modes, SCANNED_MODES))
    ensures AllWritable(ModeOps(g, sc))
  {
    hide ActOp, TrackedOps, ScannedOps, ActAll, Quiet;
    var keypad := if g.keypad then [Esc(0x3D)] else [];
    var tracked, scanned := TrackedOps(g.modes, TRACKED_MODES), ScannedOps(sc.modes, SCANNED_MODES);
    ActAllConcat(st, tracked, scanned + keypad);
    TrackedAreSilent(g.modes, TRACKED_MODES);
    SilentActs(st, tracked);
    ActAllConcat(st, scanned, keypad);
    ScannedActs(st, sc.modes, SCANNED_MODES);
    KeypadIsSilent(g.keypad);
    SilentActs(st.(modes := ReScanned(st.modes, sc.modes, SCANNED_MODES)), keypad);
  }

  lemma KeypadIsSilent(on: bool)
    ensures Silent(if on then [Esc(0x3D)] else [])
  {
  }

  /** What the tail tells a scanner. */
  lemma TailActs(st: State, g: Screen, sc: State)
    requires Sized(g) && PrintableRows(g.cells) && StateOk(sc) && st.region == None && st.title == None
    ensures ActAll(st, TailOps(g, sc))
         == st.(region := sc.region, title := sc.title, modes := ReScanned(st.modes, sc.modes, SCANNED_MODES))
    ensures AllWritable(TailOps(g, sc))
  {
    hide ActOp, CursorOps, ModeOps, PrintableRows, ActAll, RegionOps, TitleOps, SgrOp, Quiet, ReScanned;
    PartsAreSilent(g, sc);
    var sync, pen := [ResetMode(SYNC)], [SgrOp(g.pen)];
    var cursor, title := CursorOps(g, sc), TitleOps(sc.title);
    var styled := pen + (cursor + (title + sync));
    RegionActs(st, sc);
    var st1 := st.(region := sc.region);
    var st2 := st1.(modes := ReScanned(st.modes, sc.modes, SCANNED_MODES));
    ActAllConcat(st, RegionOps(sc.region), ModeOps(g, sc) + styled);
    ActAllConcat(st1, ModeOps(g, sc), styled);
    ModesAct(st1, g, sc);
    ActAllConcat(st2, pen, cursor + (title + sync));
    SilentActs(st2, pen);
    ActAllConcat(st2, cursor, title + sync);
    SilentActs(st2, cursor);
    ActAllConcat(st2, title, sync);
    TitleActs(st2, sc);
    SilentActs(st2.(title := sc.title), sync);
  }

  lemma RegionActs(st: State, sc: State)
    requires StateOk(sc) && st.region == None
    ensures ActAll(st, RegionOps(sc.region)) == st.(region := sc.region) && AllWritable(RegionOps(sc.region))
  {
    if sc.region.Some? {
      var op := RegionOps(sc.region)[0];
      assert RegionOps(sc.region) == [op] && [op][1..] == [];
      assert ActOp(st, op) == st.(region := sc.region);
      assert ActAll(ActOp(st, op), []) == ActOp(st, op);
    }
  }

  lemma TitleActs(st: State, sc: State)
    requires StateOk(sc) && st.title == None
    ensures ActAll(st, TitleOps(sc.title)) == st.(title := sc.title) && AllWritable(TitleOps(sc.title))
  {
    if sc.title.Some? {
      var op := Title(sc.title.value);
      assert TitleOps(sc.title) == [op] && [op][1..] == [];
      assert ActAll(ActOp(st, op), []) == ActOp(st, op);
    }
  }

  lemma RepaintActs(g: Screen, sc: State)
    requires Sized(g) && PrintableRows(g.cells) && StateOk(sc)
    ensures ActAll(INITIAL, RepaintOps(g, sc))
         == INITIAL.(region := sc.region, title := sc.title, modes := ReScanned([], sc.modes, SCANNED_MODES))
    ensures AllWritable(RepaintOps(g, sc))
  {
    hide ActOp, HeadOps, RowsOps, TailOps, CursorOps, TrackedOps, PrintableRows;
    PartsAreSilent(g, sc);
    ActAllConcat(INITIAL, HeadOps(g), RowsOps(g.cells, g.rows) + TailOps(g, sc));
    SilentActs(INITIAL, HeadOps(g));
    ActAllConcat(INITIAL, RowsOps(g.cells, g.rows), TailOps(g, sc));
    SilentActs(INITIAL, RowsOps(g.cells, g.rows));
    TailActs(INITIAL, g, sc);
  }

  /** A scanner fed one repaint and nothing else knows what the session's did:
      every scanned mode, the region, the title and whether there is one. It is
      left between sequences. */
  lemma RescanAgrees(g: Screen, sc: State)
    requires Sized(g) && PrintableRows(g.cells) && StateOk(sc)
    ensures var st := Scan(INITIAL, RepaintBytes(g, sc));
      && st.pending == [] && st.region == sc.region && st.title == sc.title
      && forall c :: c in {5, 9, 1001, 1015, 1016} ==> IsOn(st.modes, c) == IsOn(sc.modes, c)
  {
    hide RepaintOps, PrintableRows, ScanFrom, ReScanned;
    RepaintActs(g, sc);
    var ops := RepaintOps(g, sc);
    var none: seq<Byte> := [];
    ScanOfOps(INITIAL, ops, none);
    assert PrintAll(ops) + none == none + PrintAll(ops) == PrintAll(ops);
    NothingToScan(ActAll(INITIAL, ops));
    forall c | c in SCANNED_MODES ensures IsOn(ReScanned([], sc.modes, SCANNED_MODES), c) == IsOn(sc.modes, c) {
      ReScannedIsOn([], sc.modes, SCANNED_MODES, c);
    }
  }

  lemma NothingToScan(st: State)
    ensures ScanFrom(st, []) == st
  {
  }

  lemma GoodIsPrintable(emu: Emulator, g: Screen)
    requires GoodScreen(emu, g)
    ensures Sized(g) && PrintableRows(g.cells)
  {
    forall r | 0 <= r < |g.cells| ensures PrintableRow(g.cells[r]) {
      forall i | 0 <= i < |g.cells[r]| && !g.cells[r][i].spacer
        ensures GoodText(emu, g.cells[r][i], if g.cells[r][i].wide then 2 else 1)
      {
        assert WellPaired(emu, g.cells[r], i);
      }
    }
  }

  /** Feeding the bytes of a repaint performs its control functions. */
  lemma RepaintFeeds(emu: Emulator, t: Terminal, g: Screen, sc: State)
    requires GoodScreen(emu, g) && StateOk(sc) && Valid(t)
    ensures Feed(emu, t, RepaintBytes(g, sc)) == ExecAll(emu, t, RepaintOps(g, sc))
  {
    hide RepaintOps, Feed, ExecAll, ActAll, GoodScreen, PrintableRows;
    GoodIsPrintable(emu, g);
    RepaintActs(g, sc);
    var ops := RepaintOps(g, sc);
    var none: seq<Byte> := [];
    FeedOfPrint(emu, t, ops, none);
    assert PrintAll(ops) + none == PrintAll(ops);
    FeedNothing(emu, ExecAll(emu, t, ops));
  }

  /** The repaint's promise: fed to a client's terminal, the bytes leave it
      showing the session's cells, pen, cursor, modes, margins and title. */
  lemma {:induction false} RepaintRestores(emu: Emulator, t: Terminal, g: Screen, sc: State)
    requires GoodScreen(emu, g) && StateOk(sc) && GoodRegion(sc, g.rows) && Receptive(t, g, sc)
    ensures Feed(emu, t, RepaintBytes(g, sc)) == Mirror(emu, t, g, sc)
  {
    hide RepaintOps, RepaintBytes, Feed, ExecAll, Mirror, GoodScreen;
    RepaintFeeds(emu, t, g, sc);
    OpsRestore(emu, t, g, sc);
  }

  lemma FeedNothing(emu: Emulator, t: Terminal)
    requires Valid(t)
    ensures Feed(emu, t, []) == t
  {
  }
}
