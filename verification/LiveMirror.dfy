/** A terminal fed the session's own bytes from the start, beside the scanner
    that reads the same bytes: what they agree on, and when a repaint of the one
    with what the other recorded leaves the screen as it is. */
module LiveMirror {
  import opened Utf8
  import opened Decimal
  import opened Ansi
  import opened Terminal
  import opened Repaint
  import opened Restore
  import opened RestoreScreen
  import opened Settings
  import opened Scanner
  import opened Rescan
  import opened Replay

  // ---- margins, as the terminal and as the scanner read them ----

  predicate IsMargins(op: Op) { op.Csi? && !op.private && op.fin == 'r' as int }

  predicate IsReset(op: Op) { op == Esc(0x63) }

  /** What the scanner hears in the parameters of a DECSTBM. */
  function Heard(ps: seq<nat>): Option<(nat, nat)> {
    Region(if |ps| > 0 then U16(ps[0]) else None, if |ps| > 1 then U16(ps[1]) else None)
  }

  /** The margins a terminal takes from them: a missing parameter, or a zero,
      is the first or the last row, and so is a bottom past the last. */
  function Asked(rows: nat, ps: seq<nat>): (nat, nat) {
    (OrOne(Param(ps, 0)), if Param(ps, 1) == 0 || Param(ps, 1) > rows then rows else Param(ps, 1))
  }

  predicate Refused(rows: nat, ps: seq<nat>) { ps != [] && Asked(rows, ps).0 >= Asked(rows, ps).1 }

  /** The terminal's margins after `ops`: those of the last DECSTBM it did not
      refuse, unless a reset came after it. */
  function Margins(rows: nat, ops: seq<Op>): Option<(nat, nat)>
    decreases |ops|
  {
    if ops == [] then None
    else
      var before, op := ops[..|ops| - 1], ops[|ops| - 1];
      if IsReset(op) then None
      else if IsMargins(op) && op.params == [] then None
      else if IsMargins(op) && !Refused(rows, op.params) then Spanned(Some(Asked(rows, op.params)), rows)
      else Margins(rows, before)
  }

  /** The scanner's region after `ops`: that of the last DECSTBM of all. */
  function Recorded(ops: seq<Op>): Option<(nat, nat)>
    decreases |ops|
  {
    if ops == [] then None
    else
      var before, op := ops[..|ops| - 1], ops[|ops| - 1];
      if IsReset(op) then None else if IsMargins(op) then Heard(op.params) else Recorded(before)
  }

  /** The last DECSTBM since a reset, with what came before it. */
  function LastMargins(ops: seq<Op>): Option<(seq<Op>, seq<nat>)>
    decreases |ops|
  {
    if ops == [] then None
    else
      var before, op := ops[..|ops| - 1], ops[|ops| - 1];
      if IsReset(op) then None else if IsMargins(op) then Some((before, op.params)) else LastMargins(before)
  }

  /** A terminal that took this DECSTBM after `before` has margins. */
  predicate LeavesMargins(rows: nat, before: seq<Op>, ps: seq<nat>) {
    ps != [] && if Refused(rows, ps) then Margins(rows, before).Some? else Asked(rows, ps) != (1, rows)
  }

  /** Both hear the same in the last DECSTBM: two rows in order and on the
      screen, or nothing that leaves the terminal margins. */
  predicate HeardAlike(rows: nat, ops: seq<Op>) {
    match LastMargins(ops)
    case None => true
    case Some((before, ps)) =>
      if Heard(ps).Some? then Heard(ps).value.1 <= rows else !LeavesMargins(rows, before, ps)
  }

  /** The scanner hears no two rows in order in the last DECSTBM, and it leaves
      the terminal margins. */
  predicate Unheard(rows: nat, ops: seq<Op>) {
    match LastMargins(ops)
    case None => false
    case Some((before, ps)) => Heard(ps).None? && LeavesMargins(rows, before, ps)
  }

  lemma {:induction false} MarginsByTheLast(rows: nat, ops: seq<Op>)
    ensures match LastMargins(ops)
            case None => Margins(rows, ops) == None && Recorded(ops) == None
            case Some((before, ps)) =>
              && Recorded(ops) == Heard(ps)
              && Margins(rows, ops) == (if ps == [] then None
                                        else if Refused(rows, ps) then Margins(rows, before) else Spanned(Some(Asked(rows, ps)), rows))
    decreases |ops|
  {
    hide Asked, Refused, Heard;
    if ops != [] {
      MarginsByTheLast(rows, ops[..|ops| - 1]);
    }
  }

  lemma {:induction false} MarginsOnScreen(rows: nat, ops: seq<Op>)
    ensures Margins(rows, ops).Some? ==> 1 <= Margins(rows, ops).value.0 < Margins(rows, ops).value.1 <= rows
    decreases |ops|
  {
    if ops != [] {
      MarginsOnScreen(rows, ops[..|ops| - 1]);
    }
  }

  lemma MarginsAgreeExactly(rows: nat, ops: seq<Op>)
    ensures Margins(rows, ops) == Spanned(Recorded(ops), rows) <==> HeardAlike(rows, ops)
    ensures Margins(rows, ops).Some? && Recorded(ops).None? <==> Unheard(rows, ops)
  {
    MarginsByTheLast(rows, ops);
    hide Margins, Recorded, LastMargins;
    if LastMargins(ops).Some? {
      MarginsOnScreen(rows, LastMargins(ops).value.0);
      HeardOrAsked(rows, LastMargins(ops).value.1);
    }
  }

  /** A pair of rows the scanner records is what the terminal takes, as far as
      it is on the screen. */
  lemma HeardOrAsked(rows: nat, ps: seq<nat>)
    ensures Heard(ps).Some? && Heard(ps).value.1 <= rows ==> !Refused(rows, ps) && Asked(rows, ps) == Heard(ps).value
    ensures Heard(ps).Some? && Heard(ps).value.1 > rows ==> Asked(rows, ps).1 == rows
    ensures Heard(ps).Some? && Refused(rows, ps) ==> Heard(ps).value.1 > rows
  {
  }

  // ---- one control function ----

  /** A title, without its control characters. */
  function Cleaned(title: Option<string>): Option<string> { if title.Some? then Some(Printable(title.value)) else None }

  /** Everything but the margins that both keep. */
  predicate Agree(t: Terminal, st: State) {
    && Cleaned(t.title) == st.title && forall m :: m in SCANNED_MODES ==> (m in t.modes <==> IsOn(st.modes, m))
  }

  lemma {:induction false} DecsetAgrees(t: Terminal, modes: seq<(nat, bool)>, ps: seq<nat>, m: nat)
    requires Valid(t) && m in SCANNED_MODES && (m in t.modes <==> IsOn(modes, m))
    ensures m in DecsetAll(t, ps).modes <==> IsOn(SetScanned(modes, U16s(ps), true), m)
    decreases |ps|
  {
    hide Cleared, Shaped, MoveTo;
    if ps != [] {
      var t1 := Decset(t, ps[0]);
      var next := if ps[0] in SCANNED_MODES then Set(modes, ps[0], true) else modes;
      IsOnOfSet(modes, ps[0], true, m);
      DecsetOne(t, ps[0], m);
      ScannedStep(modes, ps, true);
      DecsetAgrees(t1, next, ps[1..], m);
    }
  }

  lemma DecsetOne(t: Terminal, code: nat, m: nat)
    requires Valid(t) && m in SCANNED_MODES
    ensures m in Decset(t, code).modes <==> m == code || m in t.modes
  {
    hide Cleared, Shaped;
  }

  lemma ScannedStep(modes: seq<(nat, bool)>, ps: seq<nat>, on: bool)
    requires ps != []
    ensures SetScanned(modes, U16s(ps), on)
         == SetScanned(if ps[0] in SCANNED_MODES then Set(modes, ps[0], on) else modes, U16s(ps[1..]), on)
  {
    if ps[0] < 0x10000 {
      assert U16s(ps) == [ps[0]] + U16s(ps[1..]) && U16s(ps)[1..] == U16s(ps[1..]);
    } else {
      assert U16s(ps) == U16s(ps[1..]) && ps[0] !in SCANNED_MODES;
    }
  }

  lemma {:induction false} DecrstAgrees(emu: Emulator, t: Terminal, modes: seq<(nat, bool)>, ps: seq<nat>, m: nat)
    requires Valid(t) && m in SCANNED_MODES && (m in t.modes <==> IsOn(modes, m))
    ensures m in DecrstAll(emu, t, ps).modes <==> IsOn(SetScanned(modes, U16s(ps), false), m)
    decreases |ps|
  {
    hide Cleared, Shaped, MoveTo;
    if ps != [] {
      var t1 := Decrst(emu, t, ps[0]);
      var next := if ps[0] in SCANNED_MODES then Set(modes, ps[0], false) else modes;
      IsOnOfSet(modes, ps[0], false, m);
      DecrstOne(emu, t, ps[0], m);
      ScannedStep(modes, ps, false);
      DecrstAgrees(emu, t1, next, ps[1..], m);
    }
  }

  lemma DecrstOne(emu: Emulator, t: Terminal, code: nat, m: nat)
    requires Valid(t) && m in SCANNED_MODES
    ensures m in Decrst(emu, t, code).modes <==> m != code && m in t.modes
  {
    hide Shaped;
  }

  /** Only a DECSTBM and a reset change the margins, and a title only its own
      function and a reset. */
  predicate SameRest(t': Terminal, t: Terminal) { t'.title == t.title && t'.region == t.region && t'.rows == t.rows && t'.cols == t.cols }

  lemma {:induction false} DecsetKeepsRest(t: Terminal, ps: seq<nat>)
    requires Valid(t)
    ensures SameRest(DecsetAll(t, ps), t)
    decreases |ps|
  {
    hide Cleared, Shaped;
    if ps != [] {
      DecsetKeepsRest(Decset(t, ps[0]), ps[1..]);
    }
  }

  lemma {:induction false} DecrstKeepsRest(emu: Emulator, t: Terminal, ps: seq<nat>)
    requires Valid(t)
    ensures SameRest(DecrstAll(emu, t, ps), t)
    decreases |ps|
  {
    hide Shaped;
    if ps != [] {
      DecrstKeepsRest(emu, Decrst(emu, t, ps[0]), ps[1..]);
    }
  }

  lemma PrivateAgrees(emu: Emulator, t: Terminal, st: State, ps: seq<nat>, fin: Byte)
    requires Valid(t) && Agree(t, st)
    ensures Agree(ExecPrivate(emu, t, ps, fin), ActOp(st, Csi(true, ps, fin)))
    ensures SameRest(ExecPrivate(emu, t, ps, fin), t)
  {
    DecsetKeepsRest(t, ps);
    DecrstKeepsRest(emu, t, ps);
    hide DecsetAll, DecrstAll, SetScanned, U16s, Valid;
    forall m | m in SCANNED_MODES
      ensures m in ExecPrivate(emu, t, ps, fin).modes <==> IsOn(ActOp(st, Csi(true, ps, fin)).modes, m)
    {
      DecsetAgrees(t, st.modes, ps, m);
      DecrstAgrees(emu, t, st.modes, ps, m);
    }
  }

  lemma CsiAgrees(t: Terminal, st: State, ps: seq<nat>, fin: Byte)
    requires Valid(t) && Agree(t, st)
    ensures var t' := ExecCsi(t, ps, fin);
      && Agree(t', ActOp(st, Csi(false, ps, fin))) && t'.rows == t.rows && t'.cols == t.cols
      && t'.region == if fin != 'r' as int then t.region
                      else if ps == [] then None
                      else if Refused(t.rows, ps) then t.region else Spanned(Some(Asked(t.rows, ps)), t.rows)
  {
    hide Cleared, Sgr, Shaped, Region, U16, IsOn, Cleaned;
  }

  lemma ResetAgrees(cols: nat, rows: nat, st: State)
    ensures Agree(Fresh(cols, rows), st.(modes := [], region := None, title := None))
    ensures Fresh(cols, rows).rows == rows && Fresh(cols, rows).cols == cols && Fresh(cols, rows).region == None
  {
    hide Cleared, Printable;
  }

  lemma OriginIsNotScanned()
    ensures ORIGIN !in SCANNED_MODES
  {
  }

  lemma RestoreAgrees(emu: Emulator, t: Terminal, st: State)
    requires Valid(t) && Agree(t, st)
    ensures Agree(RestoreCursor(emu, t), st) && SameRest(RestoreCursor(emu, t), t)
  {
    OriginIsNotScanned();
    hide Shaped, Cleaned, IsOn;
  }

  lemma EscAgrees(emu: Emulator, t: Terminal, st: State, code: Byte)
    requires Valid(t) && Agree(t, st)
    ensures var t' := Exec(emu, t, Esc(code));
      && Agree(t', ActOp(st, Esc(code))) && t'.rows == t.rows && t'.cols == t.cols
      && t'.region == if code == 0x63 then None else t.region
  {
    hide Agree, Fresh, RestoreCursor;
    if code == 0x63 {
      ResetAgrees(t.cols, t.rows, st);
    } else if code == 0x38 {
      RestoreAgrees(emu, t, st);
    } else {
      SameAgrees(t, Exec(emu, t, Esc(code)), st);
    }
  }

  lemma SameAgrees(t: Terminal, t': Terminal, st: State)
    requires Agree(t, st) && t'.title == t.title && t'.modes == t.modes
    ensures Agree(t', st)
  {
  }

  lemma TextAgrees(emu: Emulator, t: Terminal, c: char)
    requires Valid(t)
    ensures Of(Write(emu, t, c)) == Of(t) && SameRest(Write(emu, t, c), t)
  {
    hide Write;
    WriteKeeps(emu, t, c);
  }

  lemma OpAgrees(emu: Emulator, t: Terminal, st: State, op: Op)
    requires Valid(t) && Agree(t, st)
    ensures var t' := Exec(emu, t, op);
      && Agree(t', ActOp(st, op)) && t'.rows == t.rows && t'.cols == t.cols
      && t'.region == if IsReset(op) then None
                      else if IsMargins(op) && op.params == [] then None
                      else if IsMargins(op) && !Refused(t.rows, op.params) then Spanned(Some(Asked(t.rows, op.params)), t.rows)
                      else t.region
    ensures ActOp(st, op).region == if IsReset(op) then None else if IsMargins(op) then Heard(op.params) else st.region
    ensures ActOp(st, op).pending == st.pending
  {
    hide Valid, Write, ExecPrivate, ExecCsi, SetScanned, U16s, Refused, Asked;
    match op {
      case Text(c) => TextAgrees(emu, t, c);
      case Csi(private, ps, fin) =>
        if private {
          PrivateAgrees(emu, t, st, ps, fin);
        } else {
          CsiAgrees(t, st, ps, fin);
        }
      case Esc(code) => EscAgrees(emu, t, st, code);
      case _ =>
    }
  }

  // ---- a whole stream ----

  lemma LastExec(emu: Emulator, t: Terminal, ops: seq<Op>)
    requires Valid(t) && ops != []
    ensures ExecAll(emu, t, ops) == Exec(emu, ExecAll(emu, t, ops[..|ops| - 1]), ops[|ops| - 1])
  {
    hide Exec, Valid;
    var before, op := ops[..|ops| - 1], ops[|ops| - 1];
    assert ops == before + [op];
    ExecAllConcat(emu, t, before, [op]);
    assert [op][1..] == [];
  }

  lemma LastAct(st: State, ops: seq<Op>)
    requires ops != []
    ensures ActAll(st, ops) == ActOp(ActAll(st, ops[..|ops| - 1]), ops[|ops| - 1])
  {
    hide ActOp;
    var before, op := ops[..|ops| - 1], ops[|ops| - 1];
    assert ops == before + [op];
    ActAllConcat(st, before, [op]);
    assert [op][1..] == [];
  }

  lemma FreshAgrees(cols: nat, rows: nat)
    requires cols >= 2 && rows >= 1
    ensures Valid(Fresh(cols, rows)) && Agree(Fresh(cols, rows), INITIAL)
    ensures Fresh(cols, rows).rows == rows && Fresh(cols, rows).cols == cols && Fresh(cols, rows).region == None
  {
  }

  /** The terminal and the scanner after any stream of control functions. */
  lemma {:induction false} StreamAgrees(emu: Emulator, cols: nat, rows: nat, ops: seq<Op>)
    requires cols >= 2 && rows >= 1
    ensures Valid(Fresh(cols, rows))
    ensures var t, st := ExecAll(emu, Fresh(cols, rows), ops), ActAll(INITIAL, ops);
      && Agree(t, st) && t.rows == rows && t.cols == cols && st.pending == []
      && t.region == Margins(rows, ops) && st.region == Recorded(ops)
    decreases |ops|
  {
    hide *;
    FreshAgrees(cols, rows);
    if ops == [] {
      NoStream(emu, Fresh(cols, rows), rows);
    } else {
      var before, op := ops[..|ops| - 1], ops[|ops| - 1];
      StreamAgrees(emu, cols, rows, before);
      LastExec(emu, Fresh(cols, rows), ops);
      LastAct(INITIAL, ops);
      OpAgrees(emu, ExecAll(emu, Fresh(cols, rows), before), ActAll(INITIAL, before), op);
      MarginsStep(rows, ops);
    }
  }

  lemma NoStream(emu: Emulator, t: Terminal, rows: nat)
    requires Valid(t)
    ensures ExecAll(emu, t, []) == t && ActAll(INITIAL, []) == INITIAL
    ensures Margins(rows, []) == None && Recorded([]) == None && INITIAL.pending == [] && INITIAL.region == None
  {
  }

  lemma MarginsStep(rows: nat, ops: seq<Op>)
    requires ops != []
    ensures var before, op := ops[..|ops| - 1], ops[|ops| - 1];
      && Margins(rows, ops) == (if IsReset(op) then None
                                else if IsMargins(op) && op.params == [] then None
                                else if IsMargins(op) && !Refused(rows, op.params) then Spanned(Some(Asked(rows, op.params)), rows)
                                else Margins(rows, before))
      && Recorded(ops) == if IsReset(op) then None else if IsMargins(op) then Heard(op.params) else Recorded(before)
  {
  }

  lemma StreamBytes(emu: Emulator, t: Terminal, bytes: seq<Byte>)
    requires Whole(bytes) && Unbroken(bytes) && Valid(t)
    ensures Feed(emu, t, bytes) == ExecAll(emu, t, ReadAll(bytes))
    ensures Scan(INITIAL, bytes) == ActAll(INITIAL, ReadAll(bytes))
  {
    hide Feed, ExecAll, ActAll, ScanFrom, Valid, Whole, Unbroken, ReadAll;
    FeedOfRead(emu, t, bytes);
    ScanOfRead(INITIAL, bytes);
    assert [] + bytes == bytes;
  }

  /** A fresh terminal and a fresh scanner fed the same bytes, whatever they are so
      long as they end between sequences and break none off, always agree on the
      scanned modes and on the title but for its control characters, and on the
      margins exactly when they heard the last DECSTBM alike. */
  lemma {:induction false} FedTheSameBytes(emu: Emulator, cols: nat, rows: nat, bytes: seq<Byte>)
    requires cols >= 2 && rows >= 1 && Whole(bytes) && Unbroken(bytes)
    ensures Valid(Fresh(cols, rows))
    ensures var t, st := Feed(emu, Fresh(cols, rows), bytes), Scan(INITIAL, bytes);
      && (forall m :: m in {5, 9, 1001, 1015, 1016} ==> (m in t.modes <==> IsOn(st.modes, m)))
      && st.title == (if t.title.Some? then Some(Printable(t.title.value)) else None) && st.pending == []
      && (t.region == Spanned(st.region, rows) <==> HeardAlike(rows, ReadAll(bytes)))
  {
    hide Feed, ExecAll, ActAll, ScanFrom, Scan, Valid, Fresh, HeardAlike, Margins, Recorded, Whole, Unbroken, ReadAll;
    StreamAgrees(emu, cols, rows, ReadAll(bytes));
    StreamBytes(emu, Fresh(cols, rows), bytes);
    MarginsAgreeExactly(rows, ReadAll(bytes));
  }

  // ---- a repaint of a live terminal ----

  /** The session's screen as far as the settings go, read off a terminal that
      has been fed what the session has. */
  predicate ReadOff(g: Screen, t: Terminal) {
    && g.cols == t.cols && g.rows == t.rows && g.keypad == t.keypad && g.alt == t.alt
    && forall m :: m in SESSION_MODES ==> (m in g.modes <==> m in t.modes)
  }

  lemma ReadOffIsReceptive(t: Terminal, g: Screen, st: State)
    requires Valid(t) && ReadOff(g, t) && KnownModes(g) && Agree(t, st)
    ensures Receptive(t, g, st) <==> !(t.region.Some? && st.region.None?)
  {
    hide Valid, IsOn, KnownModes;
    forall m | m in t.modes && Known(m) ensures m in g.modes || m in ScannedOn(st) {
    }
    DefaultsAreTracked();
    assert KnownAll(g) by {
      KnownMeans(g);
    }
  }

  predicate KnownAll(g: Screen) { forall m :: m in g.modes ==> m in TRACKED_MODES || m == CURSOR }

  lemma KnownMeans(g: Screen)
    requires KnownModes(g)
    ensures KnownAll(g)
  {
  }

  lemma DefaultsAreTracked()
    ensures forall m :: m in DEFAULT_MODES ==> m in TRACKED_MODES || m == CURSOR
  {
  }

  /** The repaint of a session sent to a terminal that has followed it from the
      start shows its screen, exactly unless the terminal has margins that the
      scanner did not hear. */
  lemma {:induction false} LiveMirrorShowsExactly(emu: Emulator, bytes: seq<Byte>, g: Screen)
    requires g.cols >= 2 && g.rows >= 1 && Whole(bytes) && Unbroken(bytes)
    requires Valid(Fresh(g.cols, g.rows)) && ReadOff(g, Feed(emu, Fresh(g.cols, g.rows), bytes))
    requires Session(emu, g, Scan(INITIAL, bytes))
    ensures var t, sc := Feed(emu, Fresh(g.cols, g.rows), bytes), Scan(INITIAL, bytes);
      && g.rows == |g.cells| && (sc.region.Some? ==> sc.region.value.0 >= 1)
      && (Receptive(t, g, sc) <==> !Unheard(g.rows, ReadAll(bytes)))
      && (Shows(Feed(emu, t, RepaintBytes(g, sc)), emu, g, sc) <==> !Unheard(g.rows, ReadAll(bytes)))
  {
    hide *;
    var t, sc := Feed(emu, Fresh(g.cols, g.rows), bytes), Scan(INITIAL, bytes);
    SizeIs(emu, g, sc);
    StreamAgrees(emu, g.cols, g.rows, ReadAll(bytes));
    StreamBytes(emu, Fresh(g.cols, g.rows), bytes);
    MarginsAgreeExactly(g.rows, ReadAll(bytes));
    ReadOffIsReceptive(t, g, sc);
    ShowsExactlyWhenReceptive(emu, t, g, sc);
  }

  /** And so does a replay of the whole history: a reset, all the session wrote
      and the repaint, on any terminal of the size. */
  lemma {:induction false} WholeReplayShowsExactly(emu: Emulator, before: Terminal, bytes: seq<Byte>, g: Screen)
    requires g.cols >= 2 && g.rows >= 1 && Whole(bytes) && Unbroken(bytes)
    requires Valid(before) && before.cols == g.cols && before.rows == g.rows
    requires Valid(Fresh(g.cols, g.rows)) && ReadOff(g, Feed(emu, Fresh(g.cols, g.rows), bytes))
    requires Session(emu, g, Scan(INITIAL, bytes))
    ensures var sc := Scan(INITIAL, bytes);
      && g.rows == |g.cells| && (sc.region.Some? ==> sc.region.value.0 >= 1)
      && (Shows(Feed(emu, before, [ESC, 0x63] + (bytes + RepaintBytes(g, sc))), emu, g, sc)
          <==> !Unheard(g.rows, ReadAll(bytes)))
  {
    hide *;
    var sc := Scan(INITIAL, bytes);
    SizeIs(emu, g, sc);
    ReplayShowsExactly(emu, before, bytes, g, sc);
    LiveMirrorShowsExactly(emu, bytes, g);
  }

  /** A live terminal that is not receptive to its own session's repaint: a
      DECSTBM that names only the top row. */
  lemma AMarginUnheard(emu: Emulator, g: Screen)
    ensures AllWritable([Csi(false, [5], 'r' as int)]) && Valid(Fresh(80, 24))
    ensures var bytes := PrintAll([Csi(false, [5], 'r' as int)]);
      var t, sc := Feed(emu, Fresh(80, 24), bytes), Scan(INITIAL, bytes);
      t.region == Some((5, 24)) && sc.region == None && !Receptive(t, g, sc)
  {
    var ops := [Csi(false, [5], 'r' as int)];
    assert AllWritable(ops);
    hide Feed, ExecAll, ActAll, ScanFrom, Scan, PrintAll, Valid, Fresh, Exec, ActOp;
    StreamAgrees(emu, 80, 24, ops);
    PrintedBytes(emu, Fresh(80, 24), ops);
    MarginsStep(24, ops);
  }

  lemma PrintedBytes(emu: Emulator, t: Terminal, ops: seq<Op>)
    requires AllWritable(ops) && Valid(t)
    ensures Feed(emu, t, PrintAll(ops)) == ExecAll(emu, t, ops) && Scan(INITIAL, PrintAll(ops)) == ActAll(INITIAL, ops)
  {
    hide Feed, ExecAll, ActAll, ScanFrom, Valid, ReadAll;
    FeedOfRead(emu, t, PrintAll(ops));
    ReadAllOfPrint(ops);
    var none: seq<Byte> := [];
    ScanOfOps(INITIAL, ops, none);
    NothingToScan(ActAll(INITIAL, ops));
    assert PrintAll(ops) + none == PrintAll(ops) && [] + PrintAll(ops) == PrintAll(ops);
  }
}
