/** What a repaint does to a terminal's settings, whatever they were: the exact
    condition under which they come out as the session's. */
module Settings {
  import opened Utf8
  import opened Decimal
  import opened Ansi
  import opened Terminal
  import opened Repaint
  import opened Restore
  import opened RestoreScreen
  import Scanner

  datatype Settings = Settings(alt: bool, modes: set<nat>, keypad: bool, region: Option<(nat, nat)>, title: Option<string>)

  function Of(t: Terminal): Settings { Settings(t.alt, t.modes, t.keypad, t.region, t.title) }

  // ---- drawing changes no setting ----

  predicate Draws(op: Op) { op.Text? || (op.Csi? && !op.private && op.fin in {'H' as int, 'J' as int, 'm' as int}) }

  predicate AllDraw(ops: seq<Op>) { forall i :: 0 <= i < |ops| ==> Draws(ops[i]) }

  predicate Keeps(t': Terminal, t: Terminal) { Of(t') == Of(t) && t'.cols == t.cols && t'.rows == t.rows }

  lemma NextLineKeeps(t: Terminal)
    requires Valid(t)
    ensures Keeps(NextLine(t), t) && NextLine(t).col == 0
  {
    hide Shaped;
  }

  lemma WideKeeps(t: Terminal, c: char)
    requires Valid(t) && t.col + 1 < t.cols
    ensures Keeps(WriteWide(t, c), t)
  {
    hide Put;
  }

  lemma WriteKeeps(emu: Emulator, t: Terminal, c: char)
    requires Valid(t)
    ensures Keeps(Write(emu, t, c), t)
  {
    hide NextLine, WriteWide, Put, Joined, IsControl;
    NextLineKeeps(t);
    var t1 := if t.wrap && AUTOWRAP in t.modes then NextLine(t) else t;
    NextLineKeeps(t1);
    if t1.col + 1 < t1.cols {
      WideKeeps(t1, c);
    }
    var t2 := NextLine(t1);
    if t2.col + 1 < t2.cols {
      WideKeeps(t2, c);
    }
  }

  lemma DrawsKeeps(emu: Emulator, t: Terminal, op: Op)
    requires Valid(t) && Draws(op)
    ensures Keeps(Exec(emu, t, op), t)
  {
    hide Shaped, Cleared, Write, Sgr;
    if op.Text? {
      WriteKeeps(emu, t, op.c);
    }
  }

  lemma {:induction false} DrawingKeeps(emu: Emulator, t: Terminal, ops: seq<Op>)
    requires Valid(t) && AllDraw(ops)
    ensures Keeps(ExecAll(emu, t, ops), t)
    decreases |ops|
  {
    hide Exec, Draws, Valid;
    if ops != [] {
      DrawsKeeps(emu, t, ops[0]);
      DrawingKeeps(emu, Exec(emu, t, ops[0]), ops[1..]);
    }
  }

  lemma {:induction false} CellsDraw(row: seq<Cell>, i: nat, n: nat, pen: Attrs)
    requires i <= n <= |row|
    ensures AllDraw(CellsOps(row, i, n, pen))
    decreases n - i
  {
    hide AllDraw, CellOps, PenAfter;
    if i < n {
      CellsDraw(row, i + 1, n, PenAfter(row[i], pen));
      CellDraws(row[i], pen);
      BothDraw(CellOps(row[i], pen), CellsOps(row, i + 1, n, PenAfter(row[i], pen)));
    } else {
      NothingDraws();
    }
  }

  lemma NothingDraws()
    ensures AllDraw([])
  {
  }

  lemma CellDraws(cell: Cell, pen: Attrs)
    ensures AllDraw(CellOps(cell, pen))
  {
    hide SgrParams;
  }

  lemma BothDraw(a: seq<Op>, b: seq<Op>)
    requires AllDraw(a) && AllDraw(b)
    ensures AllDraw(a + b)
  {
  }

  lemma RowDraws(row: seq<Cell>, r: nat, pen: Attrs)
    ensures AllDraw(RowOps(row, r, pen))
  {
    CellsDraw(row, 0, Used(row), pen);
    hide CellsOps;
  }

  lemma {:induction false} RowsDraw(rows: seq<seq<Cell>>, n: nat)
    requires n <= |rows|
    ensures AllDraw(RowsOps(rows, n))
  {
    if n > 0 {
      RowsDraw(rows, n - 1);
      RowDraws(rows[n - 1], n - 1, RowsPen(rows, n - 1));
      hide AllDraw, RowOps;
      BothDraw(RowsOps(rows, n - 1), RowOps(rows[n - 1], n - 1, RowsPen(rows, n - 1)));
    }
  }

  // ---- the parts that do ----

  predicate SameSize(t': Terminal, t: Terminal) { t'.cols == t.cols && t'.rows == t.rows }

  lemma SyncSettings(emu: Emulator, t: Terminal, rest: seq<Op>) returns (t': Terminal)
    requires Valid(t)
    ensures Valid(t') && SameSize(t', t) && Of(t') == Of(t).(modes := t.modes + {SYNC})
    ensures ExecAll(emu, t, [SetMode(SYNC)] + rest) == ExecAll(emu, t', rest)
  {
    hide ExecAll, Exec, Shaped;
    ExecCons(emu, t, SetMode(SYNC), rest);
    ExecSet(emu, t, SYNC);
    t' := Decset(t, SYNC);
    assert t.modes - Rivals(SYNC) + {SYNC} == t.modes + {SYNC};
  }

  lemma AltSettings(emu: Emulator, t: Terminal, on: bool, rest: seq<Op>) returns (t': Terminal)
    requires Valid(t)
    ensures Valid(t') && SameSize(t', t) && Of(t') == Of(t).(alt := t.alt || on)
    ensures ExecAll(emu, t, (if on then [SetMode(ALTERNATE)] else []) + rest) == ExecAll(emu, t', rest)
  {
    hide ExecAll, Exec, Cleared, Shaped;
    ExecOpt(emu, t, on, SetMode(ALTERNATE), rest);
    ExecSet(emu, t, ALTERNATE);
    t' := if on then Decset(t, ALTERNATE) else t;
  }

  lemma OriginSettings(emu: Emulator, t: Terminal, on: bool, rest: seq<Op>) returns (t': Terminal)
    requires Valid(t)
    ensures Valid(t') && SameSize(t', t) && Of(t') == Of(t).(modes := t.modes - if on then {ORIGIN} else {})
    ensures ExecAll(emu, t, (if on then [ResetMode(ORIGIN)] else []) + rest) == ExecAll(emu, t', rest)
  {
    hide ExecAll, Exec, Shaped;
    ExecOpt(emu, t, on, ResetMode(ORIGIN), rest);
    ExecSet(emu, t, ORIGIN);
    t' := if on then Decrst(emu, t, ORIGIN) else t;
    assert t.modes - {} == t.modes;
  }

  lemma HeadSettings(emu: Emulator, t: Terminal, g: Screen)
    requires Valid(t)
    ensures var t' := ExecAll(emu, t, HeadOps(g));
      SameSize(t', t) && Of(t') == Of(t).(alt := t.alt || g.alt,
        modes := t.modes + {SYNC} - if ORIGIN in g.modes then {ORIGIN} else {})
  {
    hide ExecAll, Valid;
    var clear := [Csi(false, [0], 'm' as int), Csi(false, [2], 'J' as int), Csi(false, [], 'H' as int)];
    var r2 := (if ORIGIN in g.modes then [ResetMode(ORIGIN)] else []) + clear;
    var t1 := SyncSettings(emu, t, (if g.alt then [SetMode(ALTERNATE)] else []) + r2);
    var t2 := AltSettings(emu, t1, g.alt, r2);
    var t3 := OriginSettings(emu, t2, ORIGIN in g.modes, clear);
    DrawingKeeps(emu, t3, clear);
  }

  lemma CursorSettings(emu: Emulator, t: Terminal, g: Screen, sc: Scanner.State)
    requires Valid(t) && t.cols == g.cols && t.rows == g.rows && g.row < g.rows && GoodRegion(sc, g.rows)
    requires ORIGIN in g.modes ==> ORIGIN in t.modes
    ensures Of(ExecAll(emu, t, CursorOps(g, sc))) == Of(t).(modes := ShownModes(emu, t.modes, g, sc))
  {
    hide ExecAll, Exec, Shaped;
    var show := [if CURSOR in g.modes then SetMode(CURSOR) else ResetMode(CURSOR)];
    var row, col := CursorRow(g), CursorCol(g) + 1;
    if Outside(g, sc) {
      OutsideExec(emu, t, CursorRow(g), CursorCol(g), show);
      VisibilityExec(emu, t.(row := CursorRow(g), col := CursorCol(g), wrap := false,
                             saved := Saved(CursorRow(g), CursorCol(g), t.pen, false),
                             modes := if emu.decrcRestoresOrigin then t.modes - {ORIGIN} else t.modes), CURSOR in g.modes);
    } else {
      var place := if ORIGIN in g.modes && sc.region.Some? then Cup(row - (sc.region.value.0 - 1) + 1, col) else Cup(row + 1, col);
      ExecCons(emu, t, place, show);
      DrawsKeeps(emu, t, place);
      assert CursorOps(g, sc) == [place] + show;
      VisibilityExec(emu, Exec(emu, t, place), CURSOR in g.modes);
    }
  }

  lemma EndSettings(emu: Emulator, t: Terminal, g: Screen, sc: Scanner.State)
    requires GoodScreen(emu, g) && GoodRegion(sc, g.rows)
    requires Valid(t) && t.cols == g.cols && t.rows == g.rows && (ORIGIN in g.modes ==> ORIGIN in t.modes)
    ensures Of(ExecAll(emu, t, [SgrOp(g.pen)] + (CursorOps(g, sc) + (TitleOps(sc.title) + [ResetMode(SYNC)]))))
         == Of(t).(modes := ShownModes(emu, t.modes, g, sc) - {SYNC}, title := Either(sc.title, t.title))
  {
    hide ExecAll, CursorOps, TitleOps, Shaped, GoodRow, Exec;
    var end := TitleOps(sc.title) + [ResetMode(SYNC)];
    PenExec(emu, t, g.pen, CursorOps(g, sc) + end);
    var t1 := t.(pen := Degrade(g.pen));
    ExecAllConcat(emu, t1, CursorOps(g, sc), end);
    CursorSettings(emu, t1, g, sc);
    EndExec(emu, ExecAll(emu, t1, CursorOps(g, sc)), sc.title);
  }

  // ---- the whole repaint ----

  function SettingsAfter(emu: Emulator, s: Settings, g: Screen, sc: Scanner.State): Settings {
    var read := s.modes + {SYNC} - if ORIGIN in g.modes then {ORIGIN} else {};
    Settings(s.alt || g.alt, ShownModes(emu, Stated(read, g, sc), g, sc) - {SYNC}, s.keypad || g.keypad,
             Margined(sc.region, s.region, g.rows), Either(sc.title, s.title))
  }

  /** From any terminal of the session's size. */
  lemma RepaintSettings(emu: Emulator, t: Terminal, g: Screen, sc: Scanner.State)
    requires GoodScreen(emu, g) && GoodRegion(sc, g.rows) && Valid(t) && t.cols == g.cols && t.rows == g.rows
    ensures Of(ExecAll(emu, t, RepaintOps(g, sc))) == SettingsAfter(emu, Of(t), g, sc)
  {
    hide ExecAll, HeadOps, RowsOps, RegionOps, ModeOps, CursorOps, TitleOps, Shaped, GoodRow, Stated, SgrOp;
    ExecAllConcat(emu, t, HeadOps(g), RowsOps(g.cells, g.rows) + TailOps(g, sc));
    HeadSettings(emu, t, g);
    var t1 := ExecAll(emu, t, HeadOps(g));
    ExecAllConcat(emu, t1, RowsOps(g.cells, g.rows), TailOps(g, sc));
    RowsDraw(g.cells, g.rows);
    DrawingKeeps(emu, t1, RowsOps(g.cells, g.rows));
    var t2 := ExecAll(emu, t1, RowsOps(g.cells, g.rows));
    var styled := [SgrOp(g.pen)] + (CursorOps(g, sc) + (TitleOps(sc.title) + [ResetMode(SYNC)]));
    var t3 := SettleExec(emu, t2, g, sc, styled);
    StatedIs(t2.modes, g, sc, ORIGIN);
    EndSettings(emu, t3, g, sc);
  }

  /** One mode, after the repaint. */
  lemma ModeAfter(emu: Emulator, s: Settings, g: Screen, sc: Scanner.State, m: nat)
    requires KnownModes(g)
    ensures m in SettingsAfter(emu, s, g, sc).modes <==>
      if m == SYNC then false
      else if m == CURSOR then CURSOR in g.modes
      else if m == ORIGIN && ORIGIN in g.modes then !LosesOrigin(emu, g, sc)
      else m in ScannedOn(sc) || if m in TRACKED_MODES && Changes(m, g.modes) then m in g.modes else m in s.modes && !Displaced(m, g)
  {
    hide Stated;
    StatedIs(s.modes + {SYNC} - if ORIGIN in g.modes then {ORIGIN} else {}, g, sc, m);
    assert SYNC !in ScannedOn(sc) && CURSOR !in ScannedOn(sc) && ORIGIN !in ScannedOn(sc);
  }

  lemma ModesFitExactly(emu: Emulator, s: Settings, g: Screen, sc: Scanner.State)
    requires KnownModes(g)
    ensures Told(SettingsAfter(emu, s, g, sc).modes) == FinalModes(emu, g, sc) <==> ModesFit(s.modes, g, sc)
  {
    hide SettingsAfter, ScannedOn, LosesOrigin;
    ScannedApart(sc);
    var after, final := Told(SettingsAfter(emu, s, g, sc).modes), FinalModes(emu, g, sc);
    forall m ensures (m in after <==> m in final) <==> OneFits(m, s.modes, g, sc) {
      ModeAfter(emu, s, g, sc, m);
      LosesOnlyOrigin(emu, g, sc);
      OneDisplaced(m, g);
    }
    AllFit(s.modes, g, sc);
  }

  lemma LosesOnlyOrigin(emu: Emulator, g: Screen, sc: Scanner.State)
    ensures LosesOrigin(emu, g, sc) ==> ORIGIN in g.modes
  {
  }

  lemma OneDisplaced(m: nat, g: Screen)
    requires KnownModes(g)
    ensures Displaced(m, g) ==> m !in g.modes && m in TRACKED_MODES && m !in DEFAULT_MODES && m != ORIGIN
  {
    if r :| r in g.modes && m in Rivals(r) {
      RivalsAreTracked(r);
    }
  }

  /** What `ModesFit` says of one mode. */
  predicate OneFits(m: nat, on: set<nat>, g: Screen, sc: Scanner.State) {
    && (m in on && Known(m) ==>
          || m in g.modes || m in ScannedOn(sc) || m == CURSOR
          || Displaced(m, g) || (m in SESSION_MODES && m in DEFAULT_MODES))
    && (m in g.modes && m in DEFAULT_MODES && m != CURSOR ==> m in on)
  }

  lemma AllFit(on: set<nat>, g: Screen, sc: Scanner.State)
    ensures ModesFit(on, g, sc) <==> forall m :: OneFits(m, on, g, sc)
  {
    hide ScannedOn, Displaced;
    if ModesFit(on, g, sc) {
      forall m ensures OneFits(m, on, g, sc) {
      }
    }
    if forall m :: OneFits(m, on, g, sc) {
      forall m | m in on && Known(m) ensures m in g.modes || m in ScannedOn(sc) || m == CURSOR
          || Displaced(m, g) || (m in SESSION_MODES && m in DEFAULT_MODES)
      {
        assert OneFits(m, on, g, sc);
      }
      forall m | m in g.modes && m in DEFAULT_MODES && m != CURSOR ensures m in on {
        assert OneFits(m, on, g, sc);
      }
    }
  }

  /** The settings the daemon knows are the session's. */
  predicate SettingsRight(s: Settings, emu: Emulator, g: Screen, sc: Scanner.State) {
    s.alt == g.alt && Told(s.modes) == FinalModes(emu, g, sc) && s.keypad == g.keypad && s.region == Spanned(sc.region, g.rows)
    && s.title == sc.title
  }

  /** The settings come out as the session's exactly when the terminal was
      receptive. */
  lemma SettingsExactly(emu: Emulator, t: Terminal, g: Screen, sc: Scanner.State)
    requires GoodScreen(emu, g) && GoodRegion(sc, g.rows) && Valid(t) && t.cols == g.cols && t.rows == g.rows
    ensures SettingsRight(Of(ExecAll(emu, t, RepaintOps(g, sc))), emu, g, sc) <==> Receptive(t, g, sc)
  {
    GoodIsKnown(emu, g);
    hide ExecAll, RepaintOps, FinalModes, ModesFit, GoodScreen, KnownModes, Told, ShownModes, Stated, Shaped;
    RepaintSettings(emu, t, g, sc);
    ModesFitExactly(emu, Of(t), g, sc);
  }
}
