/** What clients see: when a repaint shows the session's screen, exactly, and the
    replays that put history before it. */
module Replay {
  import opened Utf8
  import opened Decimal
  import opened Ansi
  import opened Terminal
  import opened Repaint
  import opened Restore
  import opened RestoreScreen
  import opened Settings
  import opened Scanner
  import opened Rescan

  /** The same cells, pen, cursor, visibility, margins and title, and every known
      mode but for origin mode in the one case. */
  predicate Shows(shown: Terminal, emu: Emulator, g: Screen, sc: State) {
    && shown.cells == Shown(g.cells) && shown.pen == Degrade(g.pen)
    && shown.row == (if g.row > 0 then g.row else 0) && shown.col == (if g.col < g.cols then g.col else g.cols - 1)
    && SettingsRight(Of(shown), emu, g, sc)
  }

  predicate Session(emu: Emulator, g: Screen, sc: State) { GoodScreen(emu, g) && StateOk(sc) && GoodRegion(sc, g.rows) }

  lemma SizeIs(emu: Emulator, g: Screen, sc: State)
    requires Session(emu, g, sc)
    ensures g.cols >= 2 && g.rows >= 1 && g.rows == |g.cells| && KnownModes(g)
    ensures sc.region.Some? ==> sc.region.value.0 >= 1
  {
  }

  // ---- one repaint ----

  lemma ToldOfFinal(emu: Emulator, g: Screen, sc: State, on: set<nat>)
    requires KnownModes(g)
    ensures Told(FinalModes(emu, g, sc) + Untold(on)) == FinalModes(emu, g, sc)
    ensures CURSOR in FinalModes(emu, g, sc) <==> CURSOR in g.modes
  {
    ScannedApart(sc);
    hide ScannedOn;
  }

  lemma MirrorShows(emu: Emulator, t: Terminal, g: Screen, sc: State)
    requires g.cols >= 2 && t.rows == g.rows && KnownModes(g)
    ensures Shows(Mirror(emu, t, g, sc), emu, g, sc)
  {
    ToldOfFinal(emu, g, sc, t.modes);
    hide Shown, FinalModes, Told, Untold;
  }

  /** On any terminal of the session's size: the repaint shows its screen
      exactly when nothing is set there that the session does not have and the
      repaint does not say. */
  lemma {:induction false} ShowsExactlyWhenReceptive(emu: Emulator, t: Terminal, g: Screen, sc: State)
    requires Session(emu, g, sc) && Valid(t) && t.cols == g.cols && t.rows == g.rows
    ensures g.rows == |g.cells| && (sc.region.Some? ==> sc.region.value.0 >= 1)
    ensures Shows(Feed(emu, t, RepaintBytes(g, sc)), emu, g, sc) <==> Receptive(t, g, sc)
  {
    hide *;
    SizeIs(emu, g, sc);
    Parts(emu, g, sc);
    if Receptive(t, g, sc) {
      RepaintRestores(emu, t, g, sc);
      MirrorShows(emu, t, g, sc);
    } else {
      RepaintFeeds(emu, t, g, sc);
      SettingsExactly(emu, t, g, sc);
      ShowsSettings(ExecAll(emu, t, RepaintOps(g, sc)), emu, g, sc);
    }
  }

  lemma Parts(emu: Emulator, g: Screen, sc: State)
    requires Session(emu, g, sc)
    ensures GoodScreen(emu, g) && StateOk(sc) && GoodRegion(sc, g.rows)
  {
  }

  lemma ShowsSettings(shown: Terminal, emu: Emulator, g: Screen, sc: State)
    ensures Shows(shown, emu, g, sc) ==> SettingsRight(Of(shown), emu, g, sc)
  {
    hide SettingsRight, Shown;
  }

  /** The one thing a repaint can cost a receptive terminal: origin mode, when
      the cursor is outside the margins and its DECRC restores origin mode. */
  lemma {:induction false} ModesRestoredExactlyUnless(emu: Emulator, t: Terminal, g: Screen, sc: State)
    requires Session(emu, g, sc) && Receptive(t, g, sc)
    ensures g.rows == |g.cells| && (sc.region.Some? ==> sc.region.value.0 >= 1)
    ensures Told(Feed(emu, t, RepaintBytes(g, sc)).modes) == g.modes + ScannedOn(sc)
            <==> !(emu.decrcRestoresOrigin && Outside(g, sc))
  {
    hide RepaintBytes, Feed, GoodScreen, ScannedOn, Receptive;
    SizeIs(emu, g, sc);
    RepaintRestores(emu, t, g, sc);
    ToldOfFinal(emu, g, sc, t.modes);
    if LosesOrigin(emu, g, sc) {
      assert ORIGIN in g.modes + ScannedOn(sc) && ORIGIN !in FinalModes(emu, g, sc);
    } else {
      assert g.modes + ScannedOn(sc) - {} == g.modes + ScannedOn(sc);
    }
  }

  /** Mode by mode: after the repaint a receptive terminal has just those of the
      emulator's modes that the session has, but for origin mode in the one case,
      and just those of the unnamed ones that the scanner has on. */
  lemma {:induction false} EveryModeComesOut(emu: Emulator, t: Terminal, g: Screen, sc: State, m: nat)
    requires Paintable(emu, g) && StateOk(sc) && GoodRegion(sc, g.rows) && Receptive(t, g, sc)
    requires g.modes <= {1, 6, 7, 25, 1000, 1002, 1003, 1004, 1005, 1006, 1007, 2004}
    ensures g.rows == |g.cells| && (sc.region.Some? ==> sc.region.value.0 >= 1)
    ensures m in {1, 6, 7, 25, 1000, 1002, 1003, 1004, 1005, 1006, 1007, 2004} ==>
      (m in Feed(emu, t, RepaintBytes(g, sc)).modes <==>
         m in g.modes && !(m == 6 && emu.decrcRestoresOrigin && Outside(g, sc)))
    ensures m in {5, 9, 1001, 1015, 1016} ==> (m in Feed(emu, t, RepaintBytes(g, sc)).modes <==> IsOn(sc.modes, m))
  {
    AllAreSessionModes(emu, g, sc);
    hide RepaintBytes, Feed, GoodScreen, Paintable, Receptive;
    SizeIs(emu, g, sc);
    RepaintRestores(emu, t, g, sc);
    OneFinalMode(emu, g, sc, t.modes, m);
  }

  lemma AllAreSessionModes(emu: Emulator, g: Screen, sc: State)
    requires Paintable(emu, g) && StateOk(sc) && GoodRegion(sc, g.rows)
    requires g.modes <= {1, 6, 7, 25, 1000, 1002, 1003, 1004, 1005, 1006, 1007, 2004}
    ensures GoodScreen(emu, g) && Session(emu, g, sc)
  {
    hide Paintable;
  }

  lemma OneFinalMode(emu: Emulator, g: Screen, sc: State, on: set<nat>, m: nat)
    requires KnownModes(g)
    ensures var after := FinalModes(emu, g, sc) + Untold(on);
      && (m in {1, 6, 7, 25, 1000, 1002, 1003, 1004, 1005, 1006, 1007, 2004} ==>
           (m in after <==> m in g.modes && !(m == 6 && emu.decrcRestoresOrigin && Outside(g, sc))))
      && (m in {5, 9, 1001, 1015, 1016} ==> (m in after <==> IsOn(sc.modes, m)))
  {
    hide Outside, IsOn;
    TablesAreWhole(m);
  }

  // ---- receptive terminals ----

  lemma FreshIsReceptive(emu: Emulator, g: Screen, sc: State)
    requires Session(emu, g, sc)
    ensures Receptive(Fresh(g.cols, g.rows), g, sc)
  {
    hide Cleared, GoodRow;
  }

  /** A terminal that, setting by setting, has what the session has or what a
      fresh one would. */
  predicate HasOneOrOther(t: Terminal, g: Screen, sc: State) {
    && Valid(t) && t.cols == g.cols && t.rows == g.rows
    && (forall m :: m in SESSION_MODES && m != CURSOR ==> (m in t.modes <==> m in g.modes) || (m in t.modes <==> m in DEFAULT_MODES))
    && (forall m :: m in UNNAMED_MODES ==> m in t.modes ==> m in ScannedOn(sc))
    && t.keypad in {g.keypad, false} && t.alt in {g.alt, false}
    && t.region in {Spanned(sc.region, g.rows), None} && t.title in {sc.title, None}
  }

  lemma OneOrOtherIsReceptive(emu: Emulator, t: Terminal, g: Screen, sc: State)
    requires Session(emu, g, sc) && HasOneOrOther(t, g, sc)
    ensures Receptive(t, g, sc)
  {
    hide GoodRow, Shaped;
  }

  /** A client once repainted is receptive to every later repaint of the same
      session, whatever was lost on the way. */
  lemma MirrorIsReceptive(emu: Emulator, t: Terminal, g: Screen, sc: State)
    requires Session(emu, g, sc) && Valid(t) && t.cols == g.cols && t.rows == g.rows
    ensures g.cols >= 1 && (Valid(Mirror(emu, t, g, sc)) ==> Receptive(Mirror(emu, t, g, sc), g, sc))
  {
    SizeIs(emu, g, sc);
    ScannedApart(sc);
    hide GoodRow, Shaped, ScannedOn, Shown;
  }

  lemma {:induction false} RepaintedStaysReceptive(emu: Emulator, t: Terminal, g: Screen, sc: State)
    requires Session(emu, g, sc) && Receptive(t, g, sc)
    ensures g.rows == |g.cells| && (sc.region.Some? ==> sc.region.value.0 >= 1)
    ensures Receptive(Feed(emu, t, RepaintBytes(g, sc)), g, sc)
  {
    hide *;
    SizeIs(emu, g, sc);
    Parts(emu, g, sc);
    ReceptiveSize(t, g, sc);
    RepaintRestores(emu, t, g, sc);
    MirrorIsReceptive(emu, t, g, sc);
  }

  lemma ReceptiveSize(t: Terminal, g: Screen, sc: State)
    requires Receptive(t, g, sc)
    ensures Valid(t) && t.cols == g.cols && t.rows == g.rows
  {
  }

  // ---- replays ----

  lemma ResetExec(emu: Emulator, t: Terminal)
    requires Valid(t)
    ensures Exec(emu, t, Esc(0x63)) == Fresh(t.cols, t.rows) && Writable(Esc(0x63)) && Print(Esc(0x63)) == [ESC, 0x63]
  {
    hide Cleared;
  }

  /** What a reattached client writes: a reset, the history the daemon retained
      and the repaint. If the history ends between sequences, the screen shows
      exactly when the history leaves a receptive terminal. */
  lemma {:induction false} ReplayShowsExactly(emu: Emulator, t: Terminal, history: seq<Byte>, g: Screen, sc: State)
    requires Session(emu, g, sc) && Valid(t) && t.cols == g.cols && t.rows == g.rows && Whole(history)
    ensures g.rows == |g.cells| && (sc.region.Some? ==> sc.region.value.0 >= 1) && Valid(Fresh(g.cols, g.rows))
    ensures Shows(Feed(emu, t, [ESC, 0x63] + (history + RepaintBytes(g, sc))), emu, g, sc)
            <==> Receptive(Feed(emu, Fresh(g.cols, g.rows), history), g, sc)
  {
    hide *;
    SizeIs(emu, g, sc);
    ResetExec(emu, t);
    var blank := Fresh(g.cols, g.rows);
    FeedOne(emu, t, Esc(0x63), history + RepaintBytes(g, sc));
    FeedConcat(emu, blank, history, RepaintBytes(g, sc));
    FeedKeepsSize(emu, blank, history);
    FreshSize(g.cols, g.rows);
    ShowsExactlyWhenReceptive(emu, Feed(emu, blank, history), g, sc);
  }

  lemma FreshSize(cols: nat, rows: nat)
    ensures Fresh(cols, rows).cols == cols && Fresh(cols, rows).rows == rows
  {
  }

  /** On a terminal just opened; and so, as `ReplayShowsExactly` says of an empty
      history, on any terminal after a reset. */
  lemma {:induction false} FreshTerminalShowsTheScreen(emu: Emulator, g: Screen, sc: State)
    requires Session(emu, g, sc)
    ensures g.rows == |g.cells| && (sc.region.Some? ==> sc.region.value.0 >= 1) && Valid(Fresh(g.cols, g.rows))
    ensures Shows(Feed(emu, Fresh(g.cols, g.rows), RepaintBytes(g, sc)), emu, g, sc)
  {
    hide *;
    SizeIs(emu, g, sc);
    FreshIsReceptive(emu, g, sc);
    ReceptiveSize(Fresh(g.cols, g.rows), g, sc);
    ShowsExactlyWhenReceptive(emu, Fresh(g.cols, g.rows), g, sc);
  }

  // ---- a session that loses origin mode ----

  /** Two columns and three rows of blanks, the cursor above a region under
      origin mode, seen on a terminal whose DECRC restores origin mode. */
  const STRICT := Emulator((c: char) => 1, true)
  const BLANKS: Screen :=
    Screen(2, 3, [[DEFAULT_CELL, DEFAULT_CELL], [DEFAULT_CELL, DEFAULT_CELL], [DEFAULT_CELL, DEFAULT_CELL]],
           PLAIN, 0, 0, false, false, {ORIGIN, AUTOWRAP})
  const LOW: State := State([], Some((2, 3)), None, [])

  lemma BlanksAreGood()
    ensures Session(STRICT, BLANKS, LOW) && Outside(BLANKS, LOW)
  {
    assert GoodRow(STRICT, [DEFAULT_CELL, DEFAULT_CELL]);
  }

  /** It comes out without its origin mode. */
  lemma OriginModeIsLost()
    ensures Session(STRICT, BLANKS, LOW) && Valid(Fresh(2, 3)) && ORIGIN in BLANKS.modes
    ensures ORIGIN !in Feed(STRICT, Fresh(2, 3), RepaintBytes(BLANKS, LOW)).modes
  {
    hide *;
    BlanksAreGood();
    FreshIsReceptive(STRICT, BLANKS, LOW);
    BlanksSize();
    ReceptiveSize(Fresh(2, 3), BLANKS, LOW);
    Parts(STRICT, BLANKS, LOW);
    RepaintRestores(STRICT, Fresh(2, 3), BLANKS, LOW);
    OriginGone(Fresh(2, 3));
  }

  lemma BlanksSize()
    ensures BLANKS.cols == 2 && BLANKS.rows == 3 && ORIGIN in BLANKS.modes
    ensures |BLANKS.cells| == 3 && LOW.region == Some((2, 3))
  {
  }

  lemma OriginGone(t: Terminal)
    ensures BLANKS.cols >= 1 && ORIGIN !in Mirror(STRICT, t, BLANKS, LOW).modes
  {
    BlanksAreGood();
  }
}
