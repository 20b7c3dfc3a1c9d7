/** The incremental scanner that keeps what the emulator does not: a few private
    modes, the scrolling region and the window title. */
module Scanner {
  import opened Utf8
  import opened Decimal
  import opened Ansi

  const MAX_PENDING := 128
  const SCANNED_MODES: seq<nat> := [5, 9, 1001, 1015, 1016]

  datatype State = State(modes: seq<(nat, bool)>, region: Option<(nat, nat)>, title: Option<string>, pending: seq<Byte>)

  const INITIAL := State([], None, None, [])

  datatype Escape =
    | Incomplete
    | Skip(len: nat)
    | SetsTitle(title: string, len: nat)
    | PrivateMode(params: seq<nat>, on: bool, len: nat)
    | ScrollRegion(top: Option<nat>, bottom: Option<nat>, len: nat)
    | Reset(len: nat)

  // ---- one escape ----

  function Printable(s: string): (r: string)
    ensures forall i :: 0 <= i < |r| ==> !IsControl(r[i])
    ensures (forall i :: 0 <= i < |s| ==> !IsControl(s[i])) ==> r == s
  {
    if s == "" then "" else if IsControl(s[0]) then Printable(s[1..]) else [s[0]] + Printable(s[1..])
  }

  /** The title an OSC payload sets: OSC 0 or 2, read lossily, controls dropped. */
  function OscTitle(payload: seq<Byte>): (r: Option<string>)
    ensures r.Some? ==> forall i :: 0 <= i < |r.value| ==> !IsControl(r.value[i])
  {
    var split := Semi(payload);
    if split < |payload| && payload[..split] in {[0x30], [0x32]}
    then Some(Printable(Lossy(payload[split + 1..])))
    else None
  }

  predicate IsNumeral(b: Byte) { IsDigit(b) || b == SEMI }

  function NumeralEnd(s: seq<Byte>, at: nat): (e: nat)
    requires at <= |s|
    ensures at <= e <= |s|
    decreases |s| - at
  {
    if at < |s| && IsNumeral(s[at]) then NumeralEnd(s, at + 1) else at
  }

  /** The parts that parse as `u16`, in order. */
  function Codes(parts: seq<seq<Byte>>): seq<nat> {
    if parts == [] then []
    else (match ParseU16(parts[0]) case Some(n) => [n] case None => []) + Codes(parts[1..])
  }

  function ParseCsi(params: seq<Byte>, private: bool, fin: Byte, len: nat): Escape {
    var parts := Split(params);
    if private && fin in {'h' as int, 'l' as int} then PrivateMode(Codes(parts), fin == 'h' as int, len)
    else if !private && fin == 'r' as int then
      ScrollRegion(ParseU16(parts[0]), if |parts| > 1 then ParseU16(parts[1]) else None, len)
    else Skip(len)
  }

  /** Classify the escape at the front of `data`. */
  function ParseEscape(data: seq<Byte>): (e: Escape)
    requires data != []
    ensures !e.Incomplete? ==> 1 <= e.len <= |data|
  {
    if |data| == 1 then Incomplete
    else if data[1] == 0x63 then Reset(2)
    else if data[1] == 0x5D then
      match OscEnd(data, 2)
      case None => Incomplete
      case Some((at, len)) =>
        (match OscTitle(data[2..at]) case Some(title) => SetsTitle(title, len) case None => Skip(len))
    else if data[1] == 0x5B then
      var private := |data| > 2 && data[2] == QUESTION;
      var start := if private then 3 else 2;
      var end := NumeralEnd(data, start);
      if end == |data| then Incomplete else ParseCsi(data[start..end], private, data[end], end + 1)
    else Skip(2)
  }

  // ---- the state ----

  function IsOn(modes: seq<(nat, bool)>, code: nat): bool {
    if modes == [] then false else if modes[0].0 == code then modes[0].1 else IsOn(modes[1..], code)
  }

  function Set(modes: seq<(nat, bool)>, code: nat, on: bool): seq<(nat, bool)> {
    if modes == [] then [(code, on)]
    else if modes[0].0 == code then [(code, on)] + modes[1..]
    else [modes[0]] + Set(modes[1..], code, on)
  }

  function SetScanned(modes: seq<(nat, bool)>, codes: seq<nat>, on: bool): seq<(nat, bool)>
    decreases |codes|
  {
    if codes == [] then modes
    else SetScanned(if codes[0] in SCANNED_MODES then Set(modes, codes[0], on) else modes, codes[1..], on)
  }

  function Region(top: Option<nat>, bottom: Option<nat>): Option<(nat, nat)> {
    if top.Some? && bottom.Some? && top.value >= 1 && bottom.value > top.value
    then Some((top.value, bottom.value)) else None
  }

  function Act(st: State, e: Escape): State {
    match e
    case SetsTitle(title, _) => st.(title := Some(title))
    case PrivateMode(codes, on, _) => st.(modes := SetScanned(st.modes, codes, on))
    case ScrollRegion(top, bottom, _) => st.(region := Region(top, bottom))
    case Reset(_) => st.(modes := [], region := None, title := None)
    case _ => st
  }

  function ScanFrom(st: State, buffer: seq<Byte>): State
    decreases |buffer|
  {
    if buffer == [] then st
    else if buffer[0] != ESC then ScanFrom(st, buffer[1..])
    else
      var e := ParseEscape(buffer);
      if e.Incomplete? then
        if |buffer| <= MAX_PENDING then st.(pending := buffer) else ScanFrom(st, buffer[1..])
      else ScanFrom(Act(st, e), buffer[e.len..])
  }

  function Scan(st: State, data: seq<Byte>): State {
    ScanFrom(st.(pending := []), st.pending + data)
  }

  function ScanChunks(st: State, chunks: seq<seq<Byte>>): State
    decreases |chunks|
  {
    if chunks == [] then st else ScanChunks(Scan(st, chunks[0]), chunks[1..])
  }

  function Flatten(chunks: seq<seq<Byte>>): seq<Byte> {
    if chunks == [] then [] else chunks[0] + Flatten(chunks[1..])
  }

  // ---- the scanner itself ----

  class Scanner {
    var modes: seq<(nat, bool)>
    var region: Option<(nat, nat)>
    var title: Option<string>
    var pending: seq<Byte>

    constructor ()
      ensures Contents() == INITIAL
    {
      modes, region, title, pending := [], None, None, [];
    }

    function Contents(): State
      reads this
    {
      State(modes, region, title, pending)
    }

    method SetMode(code: nat, on: bool)
      modifies this`modes
      ensures modes == Set(old(modes), code, on)
    {
      var i := 0;
      while i < |modes| && modes[i].0 != code
        invariant i <= |modes| && modes == old(modes)
        invariant Set(modes, code, on) == modes[..i] + Set(modes[i..], code, on)
      {
        assert modes[..i + 1] == modes[..i] + [modes[i]];
        assert modes[i..][1..] == modes[i + 1..];
        i := i + 1;
      }
      if i < |modes| {
        assert modes[i..][1..] == modes[i + 1..];
        assert modes[i := (code, on)] == modes[..i] + ([(code, on)] + modes[i + 1..]);
        modes := modes[i := (code, on)];
      } else {
        assert modes[..i] == modes && modes[i..] == [];
        modes := modes + [(code, on)];
      }
    }

    /** Classify an escape by walking it byte by byte. */
    static method Parse(data: seq<Byte>) returns (e: Escape)
      requires data != []
      ensures e == ParseEscape(data)
    {
      if |data| == 1 { return Incomplete; }
      if data[1] == 0x63 { return Reset(2); }
      if data[1] == 0x5D {
        var at := 2;
        while at < |data|
          invariant 2 <= at <= |data|
          invariant OscEnd(data, at) == OscEnd(data, 2)
        {
          var len := 0;
          if data[at] == BEL {
            len := at + 1;
          } else if data[at] == ESC && at + 1 < |data| && data[at + 1] == 0x5C {
            len := at + 2;
          }
          if len > 0 {
            var title := OscTitle(data[2..at]);
            return match title case Some(text) => SetsTitle(text, len) case None => Skip(len);
          }
          at := at + 1;
        }
        return Incomplete;
      }
      if data[1] == 0x5B {
        var at := 2;
        var private := at < |data| && data[at] == QUESTION;
        if private { at := at + 1; }
        var start := at;
        while at < |data| && IsNumeral(data[at])
          invariant start <= at <= |data|
          invariant NumeralEnd(data, at) == NumeralEnd(data, start)
        {
          at := at + 1;
        }
        if at == |data| { return Incomplete; }
        return ParseCsi(data[start..at], private, data[at], at + 1);
      }
      return Skip(2);
    }

    method ScanBytes(data: seq<Byte>)
      modifies this
      ensures Contents() == Scan(old(Contents()), data)
    {
      var buffer := pending + data;
      pending := [];
      ghost var start := Contents();
      var at := 0;
      while at < |buffer|
        invariant at <= |buffer| && pending == []
        invariant ScanFrom(Contents(), buffer[at..]) == ScanFrom(start, buffer)
        decreases |buffer| - at
      {
        ghost var rest := buffer[at..];
        assert rest[1..] == buffer[at + 1..];
        if buffer[at] != ESC {
          at := at + 1;
          continue;
        }
        var e := Parse(buffer[at..]);
        if e.Incomplete? {
          if |buffer| - at <= MAX_PENDING {
            pending := buffer[at..];
            return;
          }
          at := at + 1;
          continue;
        }
        Apply(e);
        assert rest[e.len..] == buffer[at + e.len..];
        at := at + e.len;
      }
    }

    method Apply(e: Escape)
      modifies this
      ensures Contents() == Act(old(Contents()), e)
    {
      match e
      case Incomplete =>
      case Skip(_) =>
      case SetsTitle(text, _) => title := Some(text);
      case PrivateMode(params, on, _) => SetAll(params, on);
      case ScrollRegion(top, bottom, _) => region := Region(top, bottom);
      case Reset(_) => modes, region, title := [], None, None;
    }

    method SetAll(params: seq<nat>, on: bool)
      modifies this`modes
      ensures modes == SetScanned(old(modes), params, on)
    {
      for i := 0 to |params|
        invariant SetScanned(modes, params[i..], on) == SetScanned(old(modes), params, on)
      {
        assert params[i..][1..] == params[i + 1..];
        if params[i] in SCANNED_MODES {
          SetMode(params[i], on);
        }
      }
    }
  }

  // ---- independence of chunking ----

  /** No scan of `buffer` meets an unfinished escape too long to carry. */
  predicate Carried(buffer: seq<Byte>)
    decreases |buffer|
  {
    buffer == [] ||
    if buffer[0] != ESC then Carried(buffer[1..])
    else
      var e := ParseEscape(buffer);
      if e.Incomplete? then |buffer| <= MAX_PENDING else Carried(buffer[e.len..])
  }

  /** Every chunk but the last leaves a tail the scanner can carry. */
  predicate AllCarried(st: State, chunks: seq<seq<Byte>>)
    decreases |chunks|
  {
    |chunks| <= 1 || (Carried(st.pending + chunks[0]) && AllCarried(Scan(st, chunks[0]), chunks[1..]))
  }

  lemma {:induction false} NumeralEndExtends(s: seq<Byte>, more: seq<Byte>, at: nat)
    requires at <= |s| && NumeralEnd(s, at) < |s|
    ensures NumeralEnd(s + more, at) == NumeralEnd(s, at)
    decreases |s| - at
  {
    assert (s + more)[at] == s[at];
    if IsNumeral(s[at]) {
      NumeralEndExtends(s, more, at + 1);
    }
  }

  /** A classified escape is classified the same whatever follows it. */
  lemma ParseIsStable(data: seq<Byte>, more: seq<Byte>)
    requires data != [] && !ParseEscape(data).Incomplete?
    ensures ParseEscape(data + more) == ParseEscape(data)
  {
    var whole := data + more;
    assert whole[0] == data[0] && whole[1] == data[1];
    if data[1] == 0x5D {
      OscEndExtends(data, more, 2);
      var (at, len) := OscEnd(data, 2).value;
      assert whole[2..at] == data[2..at];
    } else if data[1] == 0x5B {
      var private := |data| > 2 && data[2] == QUESTION;
      var start := if private then 3 else 2;
      assert |data| > 2 && whole[2] == data[2];
      NumeralEndExtends(data, more, start);
      var end := NumeralEnd(data, start);
      assert whole[start..end] == data[start..end] && whole[end] == data[end];
    }
  }

  lemma {:induction false} ScanFromSplits(st: State, a: seq<Byte>, b: seq<Byte>)
    requires st.pending == [] && Carried(a)
    ensures ScanFrom(st, a + b) == Scan(ScanFrom(st, a), b)
    decreases |a|
  {
    var ab := a + b;
    if a == [] {
      assert ab == b && [] + b == b;
    } else if a[0] != ESC {
      assert ab[1..] == a[1..] + b;
      ScanFromSplits(st, a[1..], b);
    } else {
      var e := ParseEscape(a);
      if !e.Incomplete? {
        ParseIsStable(a, b);
        assert ab[e.len..] == a[e.len..] + b;
        ScanFromSplits(Act(st, e), a[e.len..], b);
      }
    }
  }

  /** However a stream is cut, scanning it cut is scanning it whole. */
  lemma {:induction false} ChunkingIsIrrelevant(st: State, chunks: seq<seq<Byte>>)
    requires chunks != [] && AllCarried(st, chunks)
    ensures ScanChunks(st, chunks) == Scan(st, Flatten(chunks))
    decreases |chunks|
  {
    if |chunks| == 1 {
      assert chunks[1..] == [];
      assert Flatten(chunks) == chunks[0];
    } else {
      ChunkingIsIrrelevant(Scan(st, chunks[0]), chunks[1..]);
      var a, b := st.pending + chunks[0], Flatten(chunks[1..]);
      assert st.pending + Flatten(chunks) == a + b;
      ScanFromSplits(st.(pending := []), a, b);
    }
  }

  // ---- what every scan leaves ----

  predicate TailOk(pending: seq<Byte>) {
    pending == [] || (|pending| <= MAX_PENDING && pending[0] == ESC && ParseEscape(pending).Incomplete?)
  }

  function Keys(modes: seq<(nat, bool)>): set<nat> {
    if modes == [] then {} else {modes[0].0} + Keys(modes[1..])
  }

  predicate Distinct(modes: seq<(nat, bool)>) {
    modes == [] || (modes[0].0 !in Keys(modes[1..]) && Distinct(modes[1..]))
  }

  predicate StateOk(st: State) {
    && Distinct(st.modes)
    && (forall code :: code in Keys(st.modes) ==> code in SCANNED_MODES)
    && (st.region.Some? ==> 1 <= st.region.value.0 < st.region.value.1 < 0x10000)
    && (st.title.Some? ==> forall i :: 0 <= i < |st.title.value| ==> !IsControl(st.title.value[i]))
    && TailOk(st.pending)
  }

  lemma {:induction false} SetKeepsKeys(modes: seq<(nat, bool)>, code: nat, on: bool)
    requires Distinct(modes)
    ensures Distinct(Set(modes, code, on))
    ensures Keys(Set(modes, code, on)) == Keys(modes) + {code}
  {
    if modes != [] {
      var m := Set(modes, code, on);
      if modes[0].0 == code {
        assert m[1..] == modes[1..];
      } else {
        SetKeepsKeys(modes[1..], code, on);
        assert m[1..] == Set(modes[1..], code, on);
      }
    }
  }

  lemma {:induction false} SetScannedKeepsKeys(st: State, codes: seq<nat>, on: bool)
    requires StateOk(st)
    ensures StateOk(st.(modes := SetScanned(st.modes, codes, on)))
    decreases |codes|
  {
    if codes != [] {
      if codes[0] in SCANNED_MODES {
        SetKeepsKeys(st.modes, codes[0], on);
        SetScannedKeepsKeys(st.(modes := Set(st.modes, codes[0], on)), codes[1..], on);
      } else {
        SetScannedKeepsKeys(st, codes[1..], on);
      }
    }
  }

  lemma ActKeeps(st: State, buffer: seq<Byte>)
    requires StateOk(st) && buffer != [] && !ParseEscape(buffer).Incomplete?
    ensures StateOk(Act(st, ParseEscape(buffer)))
  {
    var e := ParseEscape(buffer);
    if e.PrivateMode? {
      SetScannedKeepsKeys(st, e.params, e.on);
    }
  }

  lemma {:induction false} ScanFromKeeps(st: State, buffer: seq<Byte>)
    requires StateOk(st) && st.pending == []
    ensures StateOk(ScanFrom(st, buffer))
    decreases |buffer|
  {
    if buffer != [] {
      var e := ParseEscape(buffer);
      if buffer[0] != ESC || (e.Incomplete? && |buffer| > MAX_PENDING) {
        ScanFromKeeps(st, buffer[1..]);
      } else if !e.Incomplete? {
        ActKeeps(st, buffer);
        ScanFromKeeps(Act(st, e), buffer[e.len..]);
      }
    }
  }

  /** After any stream, cut anywhere: the tail is empty or an unfinished escape
      within the bound, the region is a region, the title holds no control and
      no mode is recorded twice. */
  lemma {:induction false} EveryScanIsOk(st: State, chunks: seq<seq<Byte>>)
    requires StateOk(st)
    ensures StateOk(ScanChunks(st, chunks)) && |ScanChunks(st, chunks).pending| <= 128
    ensures Keys(ScanChunks(st, chunks).modes) <= {5, 9, 1001, 1015, 1016}
    decreases |chunks|
  {
    if chunks != [] {
      ScanFromKeeps(st.(pending := []), st.pending + chunks[0]);
      EveryScanIsOk(Scan(st, chunks[0]), chunks[1..]);
    }
  }

  // ---- beyond the bound ----

  lemma {:induction false} OscEndNone(s: seq<Byte>, at: nat)
    requires at <= |s| && forall i :: at <= i < |s| ==> s[i] != BEL && s[i] != ESC
    ensures OscEnd(s, at) == None
    decreases |s| - at
  {
    if at < |s| {
      OscEndNone(s, at + 1);
    }
  }

  lemma {:induction false} PlainIsSkipped(st: State, plain: seq<Byte>, rest: seq<Byte>)
    requires ESC !in plain
    ensures ScanFrom(st, plain + rest) == ScanFrom(st, rest)
    decreases |plain|
  {
    if plain == [] {
      assert plain + rest == rest;
    } else {
      assert (plain + rest)[1..] == plain[1..] + rest;
      PlainIsSkipped(st, plain[1..], rest);
    }
  }

  predicate UnfinishedOsc(a: seq<Byte>) {
    |a| >= 4 && a[0] == ESC && a[1] == 0x5D && forall i :: 2 <= i < |a| ==> a[i] != BEL && a[i] != ESC
  }

  lemma OverlongTailIsDropped(a: seq<Byte>)
    requires UnfinishedOsc(a) && |a| > MAX_PENDING
    ensures !Carried(a) && ScanFrom(INITIAL, a) == INITIAL
  {
    OscEndNone(a, 2);
    assert ParseEscape(a).Incomplete?;
    var tail := a[1..];
    assert ESC !in tail && tail + [] == tail;
    PlainIsSkipped(INITIAL, tail, []);
  }

  /** An OSC ends at BEL or at ST, whichever the program wrote. */
  predicate Terminates(end: seq<Byte>) { end == [0x07] || end == [0x1B, 0x5C] }

  lemma {:induction false} OscEndAt(s: seq<Byte>, at: nat, e: nat, end: seq<Byte>)
    requires at <= e <= |s| && Terminates(end) && end <= s[e..]
    requires forall i :: at <= i < e ==> s[i] != BEL && s[i] != ESC
    ensures OscEnd(s, at) == Some((e, e + |end|))
    decreases e - at
  {
    if at < e {
      OscEndAt(s, at + 1, e, end);
    } else {
      assert s[e..][0] == s[e] && (|end| == 2 ==> s[e..][1] == s[e + 1]);
    }
  }

  /** OSC 0 and OSC 2, with either terminator and whatever follows: the title is
      the text read lossily, without its control characters. */
  lemma TitleParses(a: seq<Byte>, end: seq<Byte>, rest: seq<Byte>)
    requires UnfinishedOsc(a) && a[2] in {0x30, 0x32} && a[3] == 0x3B && Terminates(end)
    ensures ParseEscape(a + (end + rest)) == SetsTitle(Printable(Lossy(a[4..])), |a| + |end|)
  {
    var whole := a + (end + rest);
    assert whole[..|a|] == a && whole[|a|..] == end + rest;
    OscEndAt(whole, 2, |a|, end);
    var payload := whole[2..|a|];
    assert payload == a[2..];
    assert payload[0] == a[2] && payload[1] == SEMI;
    assert payload[1..][0] == SEMI;
    assert Semi(payload[1..]) == 0 && Semi(payload) == 1;
    assert payload[..1] == [a[2]] && payload[2..] == a[4..];
  }

  lemma BellIsSkipped(end: seq<Byte>)
    requires end == [BEL]
    ensures Scan(INITIAL, end) == INITIAL
  {
    NothingPending(end);
    assert end + [] == end;
    PlainIsSkipped(INITIAL, end, []);
  }

  lemma ScanOfOne(buffer: seq<Byte>)
    requires buffer != [] && buffer[0] == ESC
    requires ParseEscape(buffer).SetsTitle? && ParseEscape(buffer).len == |buffer|
    ensures Scan(INITIAL, buffer) == INITIAL.(title := Some(ParseEscape(buffer).title))
  {
    var e := ParseEscape(buffer);
    var none: seq<Byte> := [];
    assert none + buffer == buffer && buffer[e.len..] == none;
    assert ScanFrom(INITIAL, buffer) == ScanFrom(Act(INITIAL, e), none);
  }

  lemma {:induction false} ChunksOfTwo(st: State, a: seq<Byte>, b: seq<Byte>)
    ensures ScanChunks(st, [a, b]) == Scan(Scan(st, a), b)
  {
    hide Scan;
    var rest := [a, b][1..];
    assert rest == [b];
    assert rest[1..] == [];
    assert ScanChunks(Scan(st, a), rest) == ScanChunks(Scan(Scan(st, a), b), rest[1..]);
  }

  lemma CarriedOfTwo(st: State, a: seq<Byte>, b: seq<Byte>)
    ensures AllCarried(st, [a, b]) <==> Carried(st.pending + a)
  {
    hide Scan, Carried;
    var rest := [a, b][1..];
    assert rest == [b];
  }

  lemma NothingPending(a: seq<Byte>)
    ensures INITIAL.pending + a == a
    ensures Scan(INITIAL, a) == ScanFrom(INITIAL, a)
  {
    hide ScanFrom;
    assert [] + a == a;
  }

  lemma CarriesOn(a: seq<Byte>, b: seq<Byte>)
    ensures Scan(INITIAL.(pending := a), b) == ScanFrom(INITIAL, a + b)
  {
    hide ScanFrom;
  }

  lemma ShortTailIsCarried(a: seq<Byte>)
    requires UnfinishedOsc(a) && |a| <= MAX_PENDING
    ensures Carried(a) && ScanFrom(INITIAL, a) == INITIAL.(pending := a)
  {
    OscEndNone(a, 2);
    assert ParseEscape(a).Incomplete?;
  }

  /** The condition on chunks is needed: a title cut once is recorded as one scan
      of the whole records it exactly when at most 128 of its bytes came before
      the cut, and is lost otherwise. */
  lemma CutTitleIsKeptExactly(a: seq<Byte>)
    requires UnfinishedOsc(a) && a[2] in {0x30, 0x32} && a[3] == 0x3B
    ensures AllCarried(INITIAL, [a, [0x07]]) <==> |a| <= 128
    ensures Scan(INITIAL, a + [0x07]) == INITIAL.(title := Some(Printable(Lossy(a[4..]))))
    ensures ScanChunks(INITIAL, [a, [0x07]]) == if |a| <= 128 then Scan(INITIAL, a + [0x07]) else INITIAL
  {
    TitleParses(a, [BEL], []);
    assert a + ([BEL] + []) == a + [BEL];
    ScanOfOne(a + [BEL]);
    ChunksOfTwo(INITIAL, a, [BEL]);
    CarriedOfTwo(INITIAL, a, [BEL]);
    NothingPending(a);
    NothingPending(a + [BEL]);
    CarriesOn(a, [BEL]);
    if |a| <= 128 {
      ShortTailIsCarried(a);
    } else {
      OverlongTailIsDropped(a);
      BellIsSkipped([BEL]);
    }
    hide *;
  }
}
