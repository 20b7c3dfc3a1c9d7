/** The repaint theorem: rows, margins, modes, pen, cursor and title together. */
module RestoreScreen {
  import opened Utf8
  import opened Decimal
  import opened Ansi
  import opened Terminal
  import opened Repaint
  import opened Restore
  import Scanner

  // ---- the statement ----

  /** Whether the way round origin mode costs the client origin mode itself. */
  predicate LosesOrigin(emu: Emulator, g: Screen, sc: Scanner.State) {
    emu.decrcRestoresOrigin && Outside(g, sc)
  }

  /** What the daemon knows of the modes in the end. */
  function FinalModes(emu: Emulator, g: Screen, sc: Scanner.State): set<nat> {
    g.modes + ScannedOn(sc) - (if LosesOrigin(emu, g, sc) then {ORIGIN} else {})
  }

  /** The client's terminal after the repaint: the session's screen, pen,
      cursor, modes, margins and title, and everything else as it was. */
  function Mirror(emu: Emulator, t: Terminal, g: Screen, sc: Scanner.State): Terminal
    requires g.cols >= 1
  {
    var entering := g.alt && !t.alt;
    t.(cells := Shown(g.cells),
       hidden := if entering then t.cells else t.hidden,
       alt := g.alt,
       row := CursorRow(g), col := CursorCol(g), wrap := false,
       pen := Degrade(g.pen),
       saved := if Outside(g, sc) then Saved(CursorRow(g), CursorCol(g), Degrade(g.pen), false)
                else if entering then Saved(t.row, t.col, t.pen, ORIGIN in t.modes)
                else t.saved,
       modes := FinalModes(emu, g, sc) + Untold(t.modes),
       keypad := g.keypad,
       region := Spanned(sc.region, t.rows),
       title := sc.title)
  }

  // ---- the head ----

  function AfterHead(t: Terminal, g: Screen): Terminal {
    var entering := g.alt && !t.alt;
    t.(cells := Cleared(t.cols, t.rows, BACKGROUND),
       hidden := if entering then t.cells else t.hidden,
       alt := g.alt, row := 0, col := 0, wrap := false, pen := PLAIN,
       saved := if entering then Saved(t.row, t.col, t.pen, ORIGIN in t.modes) else t.saved,
       modes := t.modes - {ORIGIN} + {SYNC})
  }

  lemma ExecSet(emu: Emulator, t: Terminal, code: nat)
    requires Valid(t)
    ensures Exec(emu, t, SetMode(code)) == Decset(t, code)
    ensures Exec(emu, t, ResetMode(code)) == Decrst(emu, t, code)
  {
    assert [code][1..] == [];
    assert DecsetAll(t, [code]) == DecsetAll(Decset(t, code), []);
    assert DecrstAll(emu, t, [code]) == DecrstAll(emu, Decrst(emu, t, code), []);
  }

  lemma ExecOpt(emu: Emulator, t: Terminal, on: bool, op: Op, rest: seq<Op>)
    requires Valid(t)
    ensures ExecAll(emu, t, (if on then [op] else []) + rest)
         == ExecAll(emu, if on then Exec(emu, t, op) else t, rest)
  {
    if on {
      ExecCons(emu, t, op, rest);
    } else {
      assert [] + rest == rest;
    }
  }

  lemma ExecClear(emu: Emulator, t: Terminal)
    requires Valid(t) && ORIGIN !in t.modes
    ensures ExecAll(emu, t, [Csi(false, [0], 'm' as int), Csi(false, [2], 'J' as int), Csi(false, [], 'H' as int)])
         == t.(cells := Cleared(t.cols, t.rows, BACKGROUND), pen := PLAIN, row := 0, col := 0, wrap := false)
  {
    var m, j, h := Csi(false, [0], 'm' as int), Csi(false, [2], 'J' as int), Csi(false, [], 'H' as int);
    assert [m, j, h] == [m] + ([j] + [h]);
    ExecCons(emu, t, m, [j] + [h]);
    assert [0][1..] == [] && Sgr(t.pen, [0]) == Sgr(PLAIN, []) == PLAIN;
    var t1 := t.(pen := PLAIN);
    assert Exec(emu, t, m) == t1;
    ExecCons(emu, t1, j, [h]);
    var t2 := t1.(cells := Cleared(t.cols, t.rows, BACKGROUND));
    assert Exec(emu, t1, j) == t2;
    ExecOne(emu, t2, h);
  }

  lemma EntersAlternate(emu: Emulator, t: Terminal, on: bool, rest: seq<Op>)
    requires Valid(t) && (t.alt ==> on)
    ensures var t' := if on && !t.alt then Save(t).(alt := true, hidden := t.cells, cells := Cleared(t.cols, t.rows, t.pen.bg)) else t;
      ExecAll(emu, t, (if on then [SetMode(ALTERNATE)] else []) + rest) == ExecAll(emu, t', rest)
  {
    ExecOpt(emu, t, on, SetMode(ALTERNATE), rest);
    ExecSet(emu, t, ALTERNATE);
  }

  lemma LeavesOrigin(emu: Emulator, t: Terminal, on: bool, rest: seq<Op>)
    requires Valid(t)
    ensures var t' := if on then MoveTo(t.(modes := t.modes - {ORIGIN}), 1, 1) else t;
      ExecAll(emu, t, (if on then [ResetMode(ORIGIN)] else []) + rest) == ExecAll(emu, t', rest)
  {
    ExecOpt(emu, t, on, ResetMode(ORIGIN), rest);
    ExecSet(emu, t, ORIGIN);
  }

  lemma SyncExec(emu: Emulator, t: Terminal, rest: seq<Op>)
    requires Valid(t)
    ensures ExecAll(emu, t, [SetMode(SYNC)] + rest) == ExecAll(emu, t.(modes := t.modes + {SYNC}), rest)
  {
    hide ExecAll, Exec, Shaped;
    ExecCons(emu, t, SetMode(SYNC), rest);
    ExecSet(emu, t, SYNC);
    assert t.modes - Rivals(SYNC) + {SYNC} == t.modes + {SYNC};
  }

  lemma HeadExec(emu: Emulator, t: Terminal, g: Screen)
    requires Valid(t) && (t.alt ==> g.alt) && (ORIGIN in t.modes ==> ORIGIN in g.modes)
    ensures ExecAll(emu, t, HeadOps(g)) == AfterHead(t, g)
  {
    hide ExecAll, Exec, Cleared, Shaped;
    var clear := [Csi(false, [0], 'm' as int), Csi(false, [2], 'J' as int), Csi(false, [], 'H' as int)];
    var r2 := (if ORIGIN in g.modes then [ResetMode(ORIGIN)] else []) + clear;
    SyncExec(emu, t, (if g.alt then [SetMode(ALTERNATE)] else []) + r2);
    var t1 := t.(modes := t.modes + {SYNC});
    EntersAlternate(emu, t1, g.alt, r2);
    var t2 := if g.alt && !t.alt
              then Save(t1).(alt := true, hidden := t.cells, cells := Cleared(t.cols, t.rows, t.pen.bg)) else t1;
    LeavesOrigin(emu, t2, ORIGIN in g.modes, clear);
    var t3 := if ORIGIN in g.modes then MoveTo(t2.(modes := t2.modes - {ORIGIN}), 1, 1) else t2;
    ExecClear(emu, t3);
    assert t3.modes == t.modes - {ORIGIN} + {SYNC};
  }

  // ---- the rows ----

  /** `t'` is `t` with other text, another pen and the cursor anywhere. */
  predicate Repainted(t': Terminal, t: Terminal, cells: Grid, pen: Attrs) {
    t' == t.(cells := cells, pen := pen, row := t'.row, col := t'.col, wrap := t'.wrap)
  }

  function BlankLine(n: nat): (l: seq<Glyph>)
    ensures |l| == n && forall i :: 0 <= i < n ==> l[i] == Blank(BACKGROUND)
  {
    seq(n, i => Blank(BACKGROUND))
  }

  /** Where the default cells a row ends with are left out, the clear drew them. */
  lemma PaintedIsViews(row: seq<Cell>, n: nat)
    requires n <= |row| && forall i :: n <= i < |row| ==> row[i] == DEFAULT_CELL
    ensures Painted(BlankLine(|row|), row, 0, n) == Views(row)
  {
    assert View(DEFAULT_CELL) == Blank(BACKGROUND);
    var line := Painted(BlankLine(|row|), row, 0, n);
    forall i | 0 <= i < |row| ensures line[i] == Views(row)[i] {
      if i >= n {
        assert line[i] == BlankLine(|row|)[i];
      }
    }
  }

  lemma RowPaintsSome(emu: Emulator, t: Terminal, row: seq<Cell>, r: nat, pen: Attrs)
    requires Valid(t) && |row| == t.cols && GoodRow(emu, row) && r < t.rows && Used(row) > 0
    requires ORIGIN !in t.modes && t.pen == Degrade(pen) && t.cells[r] == BlankLine(t.cols)
    ensures ExecAll(emu, t, RowOps(row, r, pen))
         == AfterCells(t.(row := r, col := 0, wrap := false), row, 0, Used(row), pen)
  {
    hide ExecAll, CellsOps, Shaped;
    ExecCons(emu, t, Cup(r + 1, 1), CellsOps(row, 0, Used(row), pen));
    var t1 := t.(row := r, col := 0, wrap := false);
    assert Exec(emu, t, Cup(r + 1, 1)) == t1;
    assert WellPaired(emu, row, 0);
    CellsPaint(emu, t1, row, 0, Used(row), pen);
  }

  lemma AfterRow(t: Terminal, row: seq<Cell>, r: nat, n: nat, pen: Attrs)
    requires Valid(t) && |row| == t.cols && r < t.rows && n <= |row|
    requires Painted(t.cells[r], row, 0, n) == Views(row)
    ensures Repainted(AfterCells(t.(row := r, col := 0, wrap := false), row, 0, n, pen),
                      t, t.cells[r := Views(row)], Degrade(CellsPen(row, 0, n, pen)))
  {
  }

  lemma NothingPainted(t: Terminal, row: seq<Cell>, r: nat)
    requires Valid(t) && |row| == t.cols && r < t.rows && Used(row) == 0
    requires t.cells[r] == BlankLine(t.cols)
    ensures Views(row) == BlankLine(t.cols) && t.cells[r := Views(row)] == t.cells
  {
    PaintedIsViews(row, 0);
    var line := BlankLine(|row|);
    assert Painted(line, row, 0, 0) == line;
  }

  lemma RowPaints(emu: Emulator, t: Terminal, row: seq<Cell>, r: nat, pen: Attrs)
    requires Valid(t) && |row| == t.cols && GoodRow(emu, row) && r < t.rows
    requires ORIGIN !in t.modes && t.pen == Degrade(pen) && t.cells[r] == BlankLine(t.cols)
    ensures Repainted(ExecAll(emu, t, RowOps(row, r, pen)), t, t.cells[r := Views(row)], Degrade(RowPen(row, pen)))
  {
    if Used(row) == 0 {
      NothingPainted(t, row, r);
    } else {
      RowPaintsSome(emu, t, row, r, pen);
      PaintedIsViews(row, Used(row));
      AfterRow(t, row, r, Used(row), pen);
    }
  }

  predicate GoodRows(emu: Emulator, rows: seq<seq<Cell>>, cols: nat) {
    forall r :: 0 <= r < |rows| ==> |rows[r]| == cols && GoodRow(emu, rows[r])
  }

  /** The first `n` rows shown and the rest blank. */
  function Upto(rows: seq<seq<Cell>>, cols: nat, n: nat): (cells: Grid)
    requires n <= |rows|
    ensures |cells| == |rows|
    ensures forall r :: 0 <= r < |rows| ==> cells[r] == (if r < n then Views(rows[r]) else BlankLine(cols))
  {
    seq(|rows|, r requires 0 <= r < |rows| => if r < n then Views(rows[r]) else BlankLine(cols))
  }

  lemma UptoStep(rows: seq<seq<Cell>>, cols: nat, n: nat)
    requires n < |rows|
    ensures Upto(rows, cols, n)[n := Views(rows[n])] == Upto(rows, cols, n + 1)
  {
  }

  lemma UptoEnds(rows: seq<seq<Cell>>, cols: nat)
    ensures Upto(rows, cols, 0) == Cleared(cols, |rows|, BACKGROUND)
    ensures Upto(rows, cols, |rows|) == Shown(rows)
  {
    forall r | 0 <= r < |rows| ensures Cleared(cols, |rows|, BACKGROUND)[r] == BlankLine(cols) {
    }
  }

  lemma RowsStep(emu: Emulator, t0: Terminal, t: Terminal, rows: seq<seq<Cell>>, k: nat)
    requires GoodRows(emu, rows, t.cols) && k < |rows| == t.rows
    requires Valid(t) && ORIGIN !in t.modes
    requires Repainted(t, t0, Upto(rows, t.cols, k), Degrade(RowsPen(rows, k)))
    ensures Repainted(ExecAll(emu, t, RowOps(rows[k], k, RowsPen(rows, k))),
                      t0, Upto(rows, t.cols, k + 1), Degrade(RowsPen(rows, k + 1)))
  {
    UptoStep(rows, t.cols, k);
    RowPaints(emu, t, rows[k], k, RowsPen(rows, k));
  }

  lemma RowsExec(emu: Emulator, t: Terminal, rows: seq<seq<Cell>>, k: nat)
    requires Valid(t) && k < |rows|
    ensures ExecAll(emu, t, RowsOps(rows, k + 1))
         == ExecAll(emu, ExecAll(emu, t, RowsOps(rows, k)), RowOps(rows[k], k, RowsPen(rows, k)))
  {
    ExecAllConcat(emu, t, RowsOps(rows, k), RowOps(rows[k], k, RowsPen(rows, k)));
  }

  predicate RowsPainted(t0: Terminal, t: Terminal, rows: seq<seq<Cell>>, n: nat) {
    n <= |rows| && Repainted(t, t0, Upto(rows, t0.cols, n), Degrade(RowsPen(rows, n)))
  }

  lemma NoRows(emu: Emulator, t: Terminal, rows: seq<seq<Cell>>)
    requires Valid(t) && |rows| == t.rows && t.pen == PLAIN && t.cells == Cleared(t.cols, t.rows, BACKGROUND)
    ensures ExecAll(emu, t, RowsOps(rows, 0)) == t && RowsPainted(t, t, rows, 0)
  {
    UptoEnds(rows, t.cols);
  }

  lemma RowsPaintNext(emu: Emulator, t: Terminal, rows: seq<seq<Cell>>, k: nat)
    requires GoodRows(emu, rows, t.cols) && k < |rows| == t.rows
    requires Valid(t) && ORIGIN !in t.modes
    requires RowsPainted(t, ExecAll(emu, t, RowsOps(rows, k)), rows, k)
    ensures RowsPainted(t, ExecAll(emu, t, RowsOps(rows, k + 1)), rows, k + 1)
  {
    RowsExec(emu, t, rows, k);
    RowsStep(emu, t, ExecAll(emu, t, RowsOps(rows, k)), rows, k);
  }

  lemma {:induction false} RowsPaint(emu: Emulator, t: Terminal, rows: seq<seq<Cell>>, n: nat)
    requires GoodRows(emu, rows, t.cols) && n <= |rows| == t.rows
    requires Valid(t) && ORIGIN !in t.modes
    requires t.pen == PLAIN && t.cells == Cleared(t.cols, t.rows, BACKGROUND)
    ensures RowsPainted(t, ExecAll(emu, t, RowsOps(rows, n)), rows, n)
    decreases n
  {
    hide *;
    if n == 0 {
      NoRows(emu, t, rows);
    } else {
      RowsPaint(emu, t, rows, n - 1);
      RowsPaintNext(emu, t, rows, n - 1);
    }
  }

  // ---- the tail ----

  /** `t'` is `t` with other modes and the cursor anywhere. */
  predicate Remoded(t': Terminal, t: Terminal, modes: set<nat>) {
    t' == t.(modes := modes, row := t'.row, col := t'.col, wrap := t'.wrap)
  }

  /** What a part of the repaint that may say nothing leaves. */
  function Either<T>(said: Option<T>, was: Option<T>): Option<T> { if said.Some? then said else was }

  /** The margins once the session's have been said, if it has any. */
  function Margined(said: Option<(nat, nat)>, was: Option<(nat, nat)>, rows: nat): Option<(nat, nat)> {
    if said.Some? then Spanned(said, rows) else was
  }

  lemma RegionExec(emu: Emulator, t: Terminal, sc: Scanner.State)
    requires Valid(t) && GoodRegion(sc, t.rows)
    ensures Remoded(ExecAll(emu, t, RegionOps(sc.region)), t.(region := Margined(sc.region, t.region, t.rows)), t.modes)
  {
    if sc.region.Some? {
      ExecOne(emu, t, Csi(false, [sc.region.value.0, sc.region.value.1], 'r' as int));
    }
  }

  /** The modes once the tracked ones among `codes` have been asserted. */
  function Asserted(on: set<nat>, target: set<nat>, codes: seq<nat>): set<nat>
    decreases |codes|
  {
    if codes == [] then on
    else
      var c := codes[0];
      Asserted(if (c in target) == (c in DEFAULT_MODES) then on
               else if c in target then on - Rivals(c) + {c} else on - {c}, target, codes[1..])
  }

  lemma AssertOne(emu: Emulator, t: Terminal, target: set<nat>, codes: seq<nat>)
      returns (t1: Terminal)
    requires Valid(t) && codes != [] && codes[0] != ALTERNATE
    ensures Valid(t1) && Remoded(t1, t, t1.modes)
    ensures Asserted(t.modes, target, codes) == Asserted(t1.modes, target, codes[1..])
    ensures ExecAll(emu, t, TrackedOps(target, codes)) == ExecAll(emu, t1, TrackedOps(target, codes[1..]))
  {
    hide ExecAll, Exec;
    var c, rest := codes[0], TrackedOps(target, codes[1..]);
    t1 := t;
    if (c in target) == (c in DEFAULT_MODES) {
      assert [] + rest == rest;
    } else {
      var op := if c in target then SetMode(c) else ResetMode(c);
      ExecCons(emu, t, op, rest);
      ExecSet(emu, t, c);
      t1 := if c in target then Decset(t, c) else Decrst(emu, t, c);
    }
  }

  lemma {:induction false} TrackedExec(emu: Emulator, t: Terminal, target: set<nat>, codes: seq<nat>)
    requires Valid(t) && ALTERNATE !in codes
    ensures Remoded(ExecAll(emu, t, TrackedOps(target, codes)), t, Asserted(t.modes, target, codes))
    decreases |codes|
  {
    hide Exec, Valid, Decset, Decrst;
    if codes != [] {
      var t1 := AssertOne(emu, t, target, codes);
      TrackedExec(emu, t1, target, codes[1..]);
    }
  }

  predicate Changes(m: nat, target: set<nat>) { (m in target) != (m in DEFAULT_MODES) }

  predicate DisplacedBy(m: nat, target: set<nat>, codes: seq<nat>) {
    exists r :: r in codes && r in target && Changes(r, target) && m in Rivals(r)
  }

  /** Asserting what differs from a fresh terminal: what differs is as in the
      session, and the rest as it was unless a rival displaced it. */
  lemma {:induction false} AssertedIs(on: set<nat>, target: set<nat>, codes: seq<nat>, m: nat)
    requires forall r :: r in target ==> target !! Rivals(r)
    requires forall r :: r in codes ==> Rivals(r) !! DEFAULT_MODES
    requires forall i, j :: 0 <= i < j < |codes| ==> codes[i] != codes[j]
    ensures m in Asserted(on, target, codes) <==>
      if m in codes && Changes(m, target) then m in target else m in on && !DisplacedBy(m, target, codes)
    decreases |codes|
  {
    if codes != [] {
      var c, rest := codes[0], codes[1..];
      RestOf(codes, m);
      var next := if !Changes(c, target) then on
                  else if c in target then on - Rivals(c) + {c} else on - {c};
      DisplacedRest(target, codes, m);
      AssertedIs(next, target, rest, m);
    }
  }

  lemma RestOf(codes: seq<nat>, m: nat)
    requires codes != [] && forall i, j :: 0 <= i < j < |codes| ==> codes[i] != codes[j]
    ensures m in codes <==> m == codes[0] || m in codes[1..]
    ensures codes[0] !in codes[1..]
  {
    if m in codes[1..] {
      var i :| 0 <= i < |codes[1..]| && codes[1..][i] == m;
      assert codes[i + 1] == m;
    }
  }

  lemma DisplacedRest(target: set<nat>, codes: seq<nat>, m: nat)
    requires codes != []
    ensures DisplacedBy(m, target, codes) <==>
      (codes[0] in target && Changes(codes[0], target) && m in Rivals(codes[0])) || DisplacedBy(m, target, codes[1..])
  {
    assert forall r :: r in codes <==> r == codes[0] || r in codes[1..];
  }

  predicate Plain(codes: seq<nat>) {
    forall m :: m in codes ==> Rivals(m) == {} && m != ALTERNATE && m != ORIGIN
  }

  function OnAmong(on: seq<(nat, bool)>, codes: seq<nat>): set<nat> {
    set m | m in codes && Scanner.IsOn(on, m)
  }

  lemma ScanOne(emu: Emulator, t: Terminal, on: seq<(nat, bool)>, codes: seq<nat>) returns (t1: Terminal)
    requires Valid(t) && codes != [] && Plain(codes)
    ensures t1 == t.(modes := t.modes + if Scanner.IsOn(on, codes[0]) then {codes[0]} else {})
    ensures ExecAll(emu, t, ScannedOps(on, codes)) == ExecAll(emu, t1, ScannedOps(on, codes[1..]))
  {
    hide ExecAll, Exec;
    var c, rest := codes[0], ScannedOps(on, codes[1..]);
    ExecOpt(emu, t, Scanner.IsOn(on, c), SetMode(c), rest);
    ExecSet(emu, t, c);
    t1 := if Scanner.IsOn(on, c) then Decset(t, c) else t;
    assert c in codes;
    assert t.modes - {} + {c} == t.modes + {c};
    assert t.modes + {} == t.modes;
  }

  lemma {:induction false} ScannedExec(emu: Emulator, t: Terminal, on: seq<(nat, bool)>, codes: seq<nat>)
    requires Valid(t) && Plain(codes)
    ensures ExecAll(emu, t, ScannedOps(on, codes)) == t.(modes := t.modes + OnAmong(on, codes))
    decreases |codes|
  {
    hide Exec;
    if codes == [] {
      assert t.modes + OnAmong(on, codes) == t.modes;
    } else {
      var t1 := ScanOne(emu, t, on, codes);
      assert forall m :: m in codes[1..] ==> m in codes;
      ScannedExec(emu, t1, on, codes[1..]);
      assert forall m :: m in codes <==> m == codes[0] || m in codes[1..];
      assert t1.modes + OnAmong(on, codes[1..]) == t.modes + OnAmong(on, codes);
    }
  }

  /** The modes once the tracked and the scanned ones have been stated. */
  function Stated(on: set<nat>, g: Screen, sc: Scanner.State): set<nat> {
    Asserted(on, g.modes, TRACKED_MODES) + ScannedOn(sc)
  }

  lemma RivalsAreTracked(m: nat)
    ensures Rivals(m) !! DEFAULT_MODES
    ensures forall r :: r in Rivals(m) ==> r in TRACKED_MODES
    ensures Rivals(m) != {} ==> m in TRACKED_MODES && m !in DEFAULT_MODES
  {
  }

  lemma StatedIs(on: set<nat>, g: Screen, sc: Scanner.State, m: nat)
    requires forall r :: r in g.modes ==> g.modes !! Rivals(r)
    ensures m in Stated(on, g, sc) <==>
      || m in ScannedOn(sc)
      || if m in TRACKED_MODES && Changes(m, g.modes) then m in g.modes else m in on && !Displaced(m, g)
  {
    hide Asserted;
    forall r ensures Rivals(r) !! DEFAULT_MODES {
      RivalsAreTracked(r);
    }
    AssertedIs(on, g.modes, TRACKED_MODES, m);
    if Displaced(m, g) {
      var r :| r in g.modes && m in Rivals(r);
      RivalsAreTracked(r);
      assert r in TRACKED_MODES && r in g.modes && Changes(r, g.modes) && m in Rivals(r);
    }
  }

  /** The modes between the head and the tail's own two: what the session has
      set, and the rest as the client had it. */
  ghost predicate SessionModes(modes: set<nat>, was: set<nat>, g: Screen, sc: Scanner.State) {
    forall m :: m in modes <==> if m in TRACKED_MODES then m in g.modes
                                else if m in Scanner.SCANNED_MODES then m in ScannedOn(sc) else m in was
  }

  predicate KnownModes(g: Screen) {
    && (forall m :: m in g.modes ==> m in TRACKED_MODES || m == CURSOR)
    && (forall m :: m in g.modes ==> g.modes !! Rivals(m))
  }

  /** A mode that fits comes out as the session has it. */
  lemma FittingModes(on: set<nat>, g: Screen, sc: Scanner.State)
    requires KnownModes(g) && ModesFit(on, g, sc)
    ensures SessionModes(Stated(on, g, sc), on, g, sc)
  {
    hide Stated;
    forall m ensures m in Stated(on, g, sc) <==> if m in TRACKED_MODES then m in g.modes
                                                 else if m in Scanner.SCANNED_MODES then m in ScannedOn(sc) else m in on
    {
      StatedIs(on, g, sc, m);
      if Displaced(m, g) {
        var r :| r in g.modes && m in Rivals(r);
        RivalsAreTracked(r);
      }
    }
  }

  /** Modes, margins and keypad: `t'` is `t` but for these and the cursor. */
  lemma ModesExec(emu: Emulator, t: Terminal, g: Screen, sc: Scanner.State)
    requires Valid(t)
    ensures Remoded(ExecAll(emu, t, ModeOps(g, sc)), t.(keypad := t.keypad || g.keypad), Stated(t.modes, g, sc))
  {
    hide Exec, TrackedOps, ScannedOps, Valid, ExecAll, Asserted;
    var keypad := if g.keypad then [Esc(0x3D)] else [];
    var scanned := ScannedOps(sc.modes, Scanner.SCANNED_MODES);
    ExecAllConcat(emu, t, TrackedOps(g.modes, TRACKED_MODES), scanned + keypad);
    TrackedExec(emu, t, g.modes, TRACKED_MODES);
    var t1 := ExecAll(emu, t, TrackedOps(g.modes, TRACKED_MODES));
    ExecAllConcat(emu, t1, scanned, keypad);
    ScannedExec(emu, t1, sc.modes, Scanner.SCANNED_MODES);
    assert OnAmong(sc.modes, Scanner.SCANNED_MODES) == ScannedOn(sc);
    KeypadExec(emu, t1.(modes := t1.modes + ScannedOn(sc)), g.keypad);
  }

  lemma KeypadExec(emu: Emulator, t: Terminal, on: bool)
    requires Valid(t)
    ensures ExecAll(emu, t, if on then [Esc(0x3D)] else []) == t.(keypad := t.keypad || on)
  {
    ExecOne(emu, t, Esc(0x3D));
  }

  // ---- the cursor ----

  lemma LeaveAndPlace(emu: Emulator, t: Terminal, row: nat, col: nat, rest: seq<Op>)
    requires Valid(t) && row < t.rows && col < t.cols
    ensures var t' := t.(row := row, col := col, wrap := false, modes := t.modes - {ORIGIN});
      ExecAll(emu, t, [ResetMode(ORIGIN)] + ([Cup(row + 1, col + 1)] + rest)) == ExecAll(emu, t', rest)
  {
    hide ExecAll, Shaped;
    ExecCons(emu, t, ResetMode(ORIGIN), [Cup(row + 1, col + 1)] + rest);
    ExecSet(emu, t, ORIGIN);
    ExecCons(emu, t.(modes := t.modes - {ORIGIN}, row := 0, col := 0, wrap := false), Cup(row + 1, col + 1), rest);
  }

  lemma SaveAndReturn(emu: Emulator, t: Terminal, rest: seq<Op>)
    requires Valid(t) && ORIGIN !in t.modes && !t.wrap
    ensures var t' := t.(saved := Saved(t.row, t.col, t.pen, false),
                         modes := if emu.decrcRestoresOrigin then t.modes else t.modes + {ORIGIN});
      ExecAll(emu, t, [Esc(0x37)] + ([SetMode(ORIGIN)] + ([Esc(0x38)] + rest))) == ExecAll(emu, t', rest)
  {
    hide ExecAll, Shaped;
    ExecCons(emu, t, Esc(0x37), [SetMode(ORIGIN)] + ([Esc(0x38)] + rest));
    var t1 := t.(saved := Saved(t.row, t.col, t.pen, false));
    ExecCons(emu, t1, SetMode(ORIGIN), [Esc(0x38)] + rest);
    ExecSet(emu, t1, ORIGIN);
    ExecCons(emu, Decset(t1, ORIGIN), Esc(0x38), rest);
    assert t.modes - {} + {ORIGIN} == t.modes + {ORIGIN} && t.modes + {ORIGIN} - {ORIGIN} == t.modes;
  }

  lemma OutsideExec(emu: Emulator, t: Terminal, row: nat, col: nat, rest: seq<Op>)
    requires Valid(t) && row < t.rows && col < t.cols && ORIGIN in t.modes
    ensures var t' := t.(row := row, col := col, wrap := false, saved := Saved(row, col, t.pen, false),
                         modes := if emu.decrcRestoresOrigin then t.modes - {ORIGIN} else t.modes);
      ExecAll(emu, t, [ResetMode(ORIGIN), Cup(row + 1, col + 1), Esc(0x37), SetMode(ORIGIN), Esc(0x38)] + rest)
      == ExecAll(emu, t', rest)
  {
    hide ExecAll, Exec, Shaped;
    var r3 := [Esc(0x37)] + ([SetMode(ORIGIN)] + ([Esc(0x38)] + rest));
    assert [ResetMode(ORIGIN), Cup(row + 1, col + 1), Esc(0x37), SetMode(ORIGIN), Esc(0x38)] + rest
        == [ResetMode(ORIGIN)] + ([Cup(row + 1, col + 1)] + r3);
    LeaveAndPlace(emu, t, row, col, r3);
    SaveAndReturn(emu, t.(row := row, col := col, wrap := false, modes := t.modes - {ORIGIN}), rest);
    assert t.modes - {ORIGIN} + {ORIGIN} == t.modes;
  }

  lemma InsideExec(emu: Emulator, t: Terminal, g: Screen, sc: Scanner.State, rest: seq<Op>)
    requires Valid(t) && t.cols == g.cols && t.rows == g.rows && g.row < g.rows
    requires t.region == Spanned(sc.region, t.rows) && (ORIGIN in t.modes <==> ORIGIN in g.modes) && !Outside(g, sc)
    ensures ORIGIN in g.modes && sc.region.Some? ==> CursorRow(g) - (sc.region.value.0 - 1) + 1 >= 0
    ensures var row, col := CursorRow(g), CursorCol(g) + 1;
      ExecAll(emu, t, (if ORIGIN in g.modes && sc.region.Some? then [Cup(row - (sc.region.value.0 - 1) + 1, col)]
                       else [Cup(row + 1, col)]) + rest)
      == ExecAll(emu, t.(row := CursorRow(g), col := CursorCol(g), wrap := false), rest)
  {
    hide ExecAll, Shaped;
    var row, col := CursorRow(g), CursorCol(g) + 1;
    if ORIGIN in g.modes && sc.region.Some? {
      ExecCons(emu, t, Cup(row - (sc.region.value.0 - 1) + 1, col), rest);
    } else {
      ExecCons(emu, t, Cup(row + 1, col), rest);
    }
  }

  /** The cursor lands where the session's is, under origin mode or not, inside
      the margins, above them or below. */
  function AfterCursor(emu: Emulator, t: Terminal, g: Screen, sc: Scanner.State): Terminal
    requires g.cols >= 1
  {
    var placed := t.(row := CursorRow(g), col := CursorCol(g), wrap := false);
    var landed := if Outside(g, sc) then
                    placed.(saved := Saved(CursorRow(g), CursorCol(g), t.pen, false),
                            modes := if emu.decrcRestoresOrigin then t.modes - {ORIGIN} else t.modes)
                  else placed;
    landed.(modes := if CURSOR in g.modes then landed.modes + {CURSOR} else landed.modes - {CURSOR})
  }

  lemma VisibilityExec(emu: Emulator, t: Terminal, on: bool)
    requires Valid(t)
    ensures ExecAll(emu, t, [if on then SetMode(CURSOR) else ResetMode(CURSOR)])
         == t.(modes := if on then t.modes + {CURSOR} else t.modes - {CURSOR})
  {
    hide Exec;
    ExecOne(emu, t, if on then SetMode(CURSOR) else ResetMode(CURSOR));
    ExecSet(emu, t, CURSOR);
    assert t.modes - {} + {CURSOR} == t.modes + {CURSOR};
  }

  lemma CursorExec(emu: Emulator, t: Terminal, g: Screen, sc: Scanner.State)
    requires Valid(t) && t.cols == g.cols && t.rows == g.rows && g.row < g.rows
    requires t.region == Spanned(sc.region, t.rows) && (ORIGIN in t.modes <==> ORIGIN in g.modes)
    ensures ExecAll(emu, t, CursorOps(g, sc)) == AfterCursor(emu, t, g, sc)
  {
    hide ExecAll, Exec, Shaped;
    var show := [if CURSOR in g.modes then SetMode(CURSOR) else ResetMode(CURSOR)];
    var placed := t.(row := CursorRow(g), col := CursorCol(g), wrap := false);
    if Outside(g, sc) {
      OutsideExec(emu, t, CursorRow(g), CursorCol(g), show);
      VisibilityExec(emu, placed.(saved := Saved(CursorRow(g), CursorCol(g), t.pen, false),
                                  modes := if emu.decrcRestoresOrigin then t.modes - {ORIGIN} else t.modes),
                     CURSOR in g.modes);
    } else {
      InsideExec(emu, t, g, sc, show);
      VisibilityExec(emu, placed, CURSOR in g.modes);
    }
  }

  // ---- the theorem ----

  lemma PenExec(emu: Emulator, t: Terminal, a: Attrs, rest: seq<Op>)
    requires Valid(t) && Expressible(a)
    ensures ExecAll(emu, t, [SgrOp(a)] + rest) == ExecAll(emu, t.(pen := Degrade(a)), rest)
  {
    hide ExecAll, SgrParams, Sgr;
    ExecCons(emu, t, SgrOp(a), rest);
    SgrIsAbsolute(t.pen, a);
    SgrParamsStart(a);
  }

  lemma SgrParamsStart(a: Attrs)
    ensures SgrParams(a) != []
  {
  }

  lemma EndExec(emu: Emulator, t: Terminal, title: Option<string>)
    requires Valid(t)
    ensures ExecAll(emu, t, TitleOps(title) + [ResetMode(SYNC)])
         == t.(title := Either(title, t.title), modes := t.modes - {SYNC})
  {
    hide ExecAll;
    ExecOpt(emu, t, title.Some?, if title.Some? then Title(title.value) else Other, [ResetMode(SYNC)]);
    var t1 := t.(title := if title.Some? then title else t.title);
    ExecOne(emu, t1, ResetMode(SYNC));
    ExecSet(emu, t1, SYNC);
  }

  /** The tail from the painted screen on. */
  function AfterTail(emu: Emulator, t: Terminal, g: Screen, sc: Scanner.State): Terminal
    requires g.cols >= 1
  {
    t.(row := CursorRow(g), col := CursorCol(g), wrap := false, pen := Degrade(g.pen),
       saved := if Outside(g, sc) then Saved(CursorRow(g), CursorCol(g), Degrade(g.pen), false) else t.saved,
       modes := FinalModes(emu, g, sc) + Untold(t.modes), keypad := g.keypad, region := Spanned(sc.region, t.rows), title := sc.title)
  }

  /** The modes once the cursor has been placed and shown or hidden. */
  function ShownModes(emu: Emulator, on: set<nat>, g: Screen, sc: Scanner.State): set<nat> {
    var kept := if LosesOrigin(emu, g, sc) then on - {ORIGIN} else on;
    if CURSOR in g.modes then kept + {CURSOR} else kept - {CURSOR}
  }

  lemma ScannedApart(sc: Scanner.State)
    ensures forall m :: m in ScannedOn(sc) ==>
      m in Scanner.SCANNED_MODES && m !in TRACKED_MODES && m !in {CURSOR, SYNC, ORIGIN} && m !in DEFAULT_MODES
    ensures !Known(SYNC)
  {
  }

  lemma FinalModesAre(emu: Emulator, g: Screen, sc: Scanner.State, was: set<nat>, between: set<nat>, end: set<nat>)
    requires GoodScreen(emu, g) && SessionModes(between, was, g, sc)
    requires end == ShownModes(emu, between, g, sc) - {SYNC}
    ensures end == FinalModes(emu, g, sc) + Untold(was)
    ensures ORIGIN in between <==> ORIGIN in g.modes
  {
    ScannedApart(sc);
    assert KnownModes(g);
    hide ScannedOn, GoodScreen, LosesOrigin;
    var final := FinalModes(emu, g, sc) + Untold(was);
    forall m ensures m in end <==> m in final {
      assert m in between <==> if m in TRACKED_MODES then m in g.modes
                               else if m in Scanner.SCANNED_MODES then m in ScannedOn(sc) else m in was;
    }
  }

  lemma StyledExec(emu: Emulator, t: Terminal, g: Screen, sc: Scanner.State)
    requires GoodScreen(emu, g) && Valid(t) && t.cols == g.cols && t.rows == g.rows
    requires t.region == Spanned(sc.region, t.rows) && (ORIGIN in t.modes <==> ORIGIN in g.modes)
    ensures ExecAll(emu, t, [SgrOp(g.pen)] + (CursorOps(g, sc) + (TitleOps(sc.title) + [ResetMode(SYNC)])))
         == (var t1 := AfterCursor(emu, t.(pen := Degrade(g.pen)), g, sc);
             t1.(title := Either(sc.title, t.title), modes := t1.modes - {SYNC}))
  {
    hide ExecAll, Exec, CursorOps, TitleOps, Shaped, GoodRow;
    var end := TitleOps(sc.title) + [ResetMode(SYNC)];
    PenExec(emu, t, g.pen, CursorOps(g, sc) + end);
    var t1 := t.(pen := Degrade(g.pen));
    ExecAllConcat(emu, t1, CursorOps(g, sc), end);
    CursorExec(emu, t1, g, sc);
    EndExec(emu, ExecAll(emu, t1, CursorOps(g, sc)), sc.title);
  }

  /** Ready for the tail: the head has been read and everything fits. */
  predicate Settling(t: Terminal, g: Screen, sc: Scanner.State) {
    && Valid(t) && t.cols == g.cols && t.rows == g.rows
    && ModesFit(t.modes, g, sc)
    && (t.keypad ==> g.keypad) && t.alt == g.alt
    && (t.region.Some? ==> sc.region.Some?) && (t.title.Some? ==> sc.title.Some?)
  }

  lemma SettleExec(emu: Emulator, t: Terminal, g: Screen, sc: Scanner.State, rest: seq<Op>) returns (t': Terminal)
    requires Valid(t) && GoodRegion(sc, t.rows)
    ensures Valid(t')
    ensures Remoded(t', t.(region := Margined(sc.region, t.region, t.rows), keypad := t.keypad || g.keypad), Stated(t.modes, g, sc))
    ensures ExecAll(emu, t, RegionOps(sc.region) + (ModeOps(g, sc) + rest)) == ExecAll(emu, t', rest)
  {
    hide ExecAll, Exec, RegionOps, ModeOps, Shaped, Stated;
    ExecAllConcat(emu, t, RegionOps(sc.region), ModeOps(g, sc) + rest);
    RegionExec(emu, t, sc);
    var t1 := ExecAll(emu, t, RegionOps(sc.region));
    ExecAllConcat(emu, t1, ModeOps(g, sc), rest);
    ModesExec(emu, t1, g, sc);
    t' := ExecAll(emu, t1, ModeOps(g, sc));
  }

  lemma CursorIs(emu: Emulator, t: Terminal, g: Screen, sc: Scanner.State)
    requires g.cols >= 1
    ensures AfterCursor(emu, t, g, sc)
         == t.(row := CursorRow(g), col := CursorCol(g), wrap := false, modes := ShownModes(emu, t.modes, g, sc),
               saved := if Outside(g, sc) then Saved(CursorRow(g), CursorCol(g), t.pen, false) else t.saved)
  {
    hide CursorRow, CursorCol, Outside;
  }

  lemma GoodIsKnown(emu: Emulator, g: Screen)
    requires GoodScreen(emu, g)
    ensures KnownModes(g) && g.cols >= 2
  {
    forall m | m in g.modes ensures m in TRACKED_MODES || m == CURSOR {
      TablesAreWhole(m);
    }
    hide GoodRow;
  }

  /** What the pen, the cursor and the title leave of a settled terminal. */
  lemma TailIs(emu: Emulator, t: Terminal, t2: Terminal, g: Screen, sc: Scanner.State)
    requires GoodScreen(emu, g) && Settling(t, g, sc)
    requires Remoded(t2, t.(region := Margined(sc.region, t.region, t.rows), keypad := t.keypad || g.keypad), Stated(t.modes, g, sc))
    ensures t2.cols == g.cols && t2.rows == g.rows && t2.region == Spanned(sc.region, t2.rows) && (ORIGIN in t2.modes <==> ORIGIN in g.modes)
    ensures var t1 := AfterCursor(emu, t2.(pen := Degrade(g.pen)), g, sc);
      t1.(title := Either(sc.title, t2.title), modes := t1.modes - {SYNC}) == AfterTail(emu, t, g, sc)
  {
    GoodIsKnown(emu, g);
    hide GoodScreen, Valid, AfterCursor, ShownModes, SessionModes, ModesFit, KnownModes, Stated, FinalModes, Untold, Degrade,
         CursorRow, CursorCol, Outside;
    FittingModes(t.modes, g, sc);
    CursorIs(emu, t2.(pen := Degrade(g.pen)), g, sc);
    FinalModesAre(emu, g, sc, t.modes, t2.modes, ShownModes(emu, t2.modes, g, sc) - {SYNC});
  }

  lemma TailExec(emu: Emulator, t: Terminal, g: Screen, sc: Scanner.State)
    requires GoodScreen(emu, g) && GoodRegion(sc, g.rows) && Settling(t, g, sc)
    ensures ExecAll(emu, t, TailOps(g, sc)) == AfterTail(emu, t, g, sc)
  {
    hide ExecAll, RegionOps, ModeOps, CursorOps, TitleOps, Shaped, GoodRow, SgrOp, ModesFit, Stated, Remoded, AfterCursor,
         AfterTail, Degrade;
    var styled := [SgrOp(g.pen)] + (CursorOps(g, sc) + (TitleOps(sc.title) + [ResetMode(SYNC)]));
    var t2 := SettleExec(emu, t, g, sc, styled);
    TailIs(emu, t, t2, g, sc);
    StyledExec(emu, t2, g, sc);
  }

  lemma HeadSettles(t: Terminal, g: Screen, sc: Scanner.State)
    requires Receptive(t, g, sc)
    ensures ORIGIN in t.modes ==> ORIGIN in g.modes
    ensures Settling(AfterHead(t, g), g, sc) && Untold(AfterHead(t, g).modes) == Untold(t.modes)
  {
    assert ORIGIN !in ScannedOn(sc);
    assert !Displaced(ORIGIN, g);
    hide Shaped;
    assert Shaped(Cleared(t.cols, t.rows, BACKGROUND), t.cols, t.rows) by {
      ClearedIsShaped(t.cols, t.rows);
    }
  }

  lemma ClearedIsShaped(cols: nat, rows: nat)
    ensures Shaped(Cleared(cols, rows, BACKGROUND), cols, rows)
  {
  }

  lemma {:induction false} OpsRestore(emu: Emulator, t: Terminal, g: Screen, sc: Scanner.State)
    requires GoodScreen(emu, g) && GoodRegion(sc, g.rows) && Receptive(t, g, sc)
    ensures ExecAll(emu, t, RepaintOps(g, sc)) == Mirror(emu, t, g, sc)
  {
    hide ExecAll, Exec, HeadOps, RowsOps, TailOps, Shaped, GoodRow, Upto, Cleared, ModesFit, ScannedOn, Untold;
    ExecAllConcat(emu, t, HeadOps(g), RowsOps(g.cells, g.rows) + TailOps(g, sc));
    HeadSettles(t, g, sc);
    HeadExec(emu, t, g);
    var t1 := AfterHead(t, g);
    ExecAllConcat(emu, t1, RowsOps(g.cells, g.rows), TailOps(g, sc));
    RowsPaint(emu, t1, g.cells, g.rows);
    UptoEnds(g.cells, g.cols);
    TailExec(emu, ExecAll(emu, t1, RowsOps(g.cells, g.rows)), g, sc);
  }
}
