/** Feeding a repaint to a terminal leaves it showing the screen repainted. */
module Restore {
  import opened Utf8
  import opened Decimal
  import opened Ansi
  import opened Terminal
  import opened Repaint
  import Scanner

  // ---- what must come out ----

  /** The rendition a client ends up with: the underline shapes no SGR here
      names come out as the plain underline. */
  function Degrade(a: Attrs): Attrs {
    a.(underline := AnyUnderline(a) && !a.double, curl := false, dotted := false, dashed := false)
  }

  function View(cell: Cell): Glyph {
    Glyph(cell.c, cell.zerowidth, Degrade(cell.attrs),
          if cell.wide then Head else if cell.spacer then Tail else Single)
  }

  function Views(cells: seq<Cell>): (v: seq<Glyph>)
    ensures |v| == |cells| && forall i :: 0 <= i < |v| ==> v[i] == View(cells[i])
  {
    seq(|cells|, i requires 0 <= i < |cells| => View(cells[i]))
  }

  function Shown(rows: seq<seq<Cell>>): (g: Grid)
    ensures |g| == |rows| && forall r :: 0 <= r < |g| ==> g[r] == Views(rows[r])
  {
    seq(|rows|, r requires 0 <= r < |rows| => Views(rows[r]))
  }

  // ---- which screens ----

  /** A colour an SGR can say: sixteen names, the default, the palette, RGB. */
  predicate Sayable(c: Colour, default: Colour) {
    match c
    case Named(i) => c == default || i < 16
    case Indexed(i) => i < 256
    case Rgb(r, g, b) => r < 256 && g < 256 && b < 256
  }

  predicate Expressible(a: Attrs) { Sayable(a.fg, FOREGROUND) && Sayable(a.bg, BACKGROUND) }

  predicate GoodText(emu: Emulator, cell: Cell, columns: nat) {
    && !IsControl(cell.c) && emu.width(cell.c) == columns
    && forall i :: 0 <= i < |cell.zerowidth| ==> !IsControl(cell.zerowidth[i]) && emu.width(cell.zerowidth[i]) == 0
  }

  /** A wide character is followed by its spacer, and nothing else has one. */
  predicate WellPaired(emu: Emulator, row: seq<Cell>, i: nat)
    requires i < |row|
  {
    && !row[i].leading && Expressible(row[i].attrs)
    && (if row[i].spacer then i > 0 && row[i - 1].wide && !row[i].wide
        else GoodText(emu, row[i], if row[i].wide then 2 else 1))
    && (row[i].wide ==>
          && i + 1 < |row| && row[i + 1].spacer && row[i + 1].c == ' ' && row[i + 1].zerowidth == ""
          && row[i + 1].attrs == row[i].attrs)
  }

  predicate GoodRow(emu: Emulator, row: seq<Cell>) {
    forall i :: 0 <= i < |row| ==> WellPaired(emu, row, i)
  }

  /** The private modes the emulator keeps, and those it has no name for. */
  const SESSION_MODES: set<nat> := {1, 6, 7, 25, 1000, 1002, 1003, 1004, 1005, 1006, 1007, 2004}
  const UNNAMED_MODES: set<nat> := {5, 9, 1001, 1015, 1016}

  /** The tables the repaint and the scanner work from leave out none of them but
      the visible cursor, which is placed with the cursor. */
  lemma TablesAreWhole(m: nat)
    ensures m in SESSION_MODES <==> m in TRACKED_MODES || m == CURSOR
    ensures m in UNNAMED_MODES <==> m in Scanner.SCANNED_MODES
  {
  }

  /** Printable cells in well-formed pairs, a pen an SGR can say, a cursor on the
      screen and no two rival modes. */
  predicate Paintable(emu: Emulator, g: Screen) {
    && g.cols >= 2 && g.rows >= 1 && |g.cells| == g.rows
    && (forall r :: 0 <= r < g.rows ==> |g.cells[r]| == g.cols && GoodRow(emu, g.cells[r]))
    && Expressible(g.pen) && g.row < g.rows
    && (forall m :: m in g.modes ==> g.modes !! Rivals(m))
  }

  predicate GoodScreen(emu: Emulator, g: Screen) { Paintable(emu, g) && g.modes <= SESSION_MODES }

  predicate GoodRegion(sc: Scanner.State, rows: nat) {
    sc.region.Some? ==> 1 <= sc.region.value.0 < sc.region.value.1 <= rows
  }

  function ScannedOn(sc: Scanner.State): set<nat> {
    set m | m in UNNAMED_MODES && Scanner.IsOn(sc.modes, m)
  }

  /** The modes the daemon knows of. Any other it neither records nor states. */
  predicate Known(m: nat) { m in SESSION_MODES || m in UNNAMED_MODES }

  function Told(on: set<nat>): set<nat> { set m | m in on && Known(m) }

  function Untold(on: set<nat>): set<nat> { set m | m in on && !Known(m) && m != SYNC }

  /** The modes a repaint of `g` resets by setting a rival. */
  predicate Displaced(m: nat, g: Screen) { exists r :: r in g.modes && m in Rivals(r) }

  /** Every known mode either is as the session has it, or is one the repaint sees to:
      it states what the session changed, and resets what that displaces. */
  predicate ModesFit(on: set<nat>, g: Screen, sc: Scanner.State) {
    && (forall m :: m in on && Known(m) ==>
          || m in g.modes || m in ScannedOn(sc) || m == CURSOR
          || Displaced(m, g) || (m in SESSION_MODES && m in DEFAULT_MODES))
    && (forall m :: m in g.modes && m in DEFAULT_MODES && m != CURSOR ==> m in on)
  }

  /** A terminal of the same size on which nothing is set that the session does
      not have and the repaint does not say. Its text, pen, cursor, saved cursor
      and cursor visibility may be anything. */
  predicate Receptive(t: Terminal, g: Screen, sc: Scanner.State) {
    && Valid(t) && t.cols == g.cols && t.rows == g.rows
    && ModesFit(t.modes, g, sc)
    && (t.keypad ==> g.keypad) && (t.alt ==> g.alt)
    && (t.region.Some? ==> sc.region.Some?) && (t.title.Some? ==> sc.title.Some?)
  }

  // ---- renditions ----

  lemma SgrOne(p: Attrs, k: nat, rest: seq<nat>)
    requires k !in {38, 48}
    ensures Sgr(p, [k] + rest) == Sgr(Rendition(p, k), rest)
  {
    assert ([k] + rest)[1..] == rest;
  }

  lemma SgrOpt(p: Attrs, on: bool, k: nat, rest: seq<nat>)
    requires k !in {38, 48}
    ensures Sgr(p, Opt(on, k) + rest) == Sgr(if on then Rendition(p, k) else p, rest)
  {
    if on {
      SgrOne(p, k, rest);
    } else {
      assert Opt(on, k) + rest == rest;
    }
  }

  lemma SgrIndexed(p: Attrs, foreground: bool, n: nat, rest: seq<nat>)
    requires n < 256
    ensures Sgr(p, [if foreground then 38 else 48, 5, n] + rest) == Sgr(WithColour(p, foreground, Indexed(n)), rest)
  {
    var s := [if foreground then 38 else 48, 5, n] + rest;
    assert s[3..] == rest;
  }

  lemma SgrRgb(p: Attrs, foreground: bool, r: nat, g: nat, b: nat, rest: seq<nat>)
    requires r < 256 && g < 256 && b < 256
    ensures Sgr(p, [if foreground then 38 else 48, 2, r, g, b] + rest)
         == Sgr(WithColour(p, foreground, Rgb(r, g, b)), rest)
  {
    var s := [if foreground then 38 else 48, 2, r, g, b] + rest;
    assert s[5..] == rest;
  }

  lemma SgrNamed(p: Attrs, foreground: bool, i: nat, rest: seq<nat>)
    requires i < 16
    ensures Sgr(p, [(if foreground then 30 else 40) + (if i < 8 then i else 52 + i)] + rest)
         == Sgr(WithColour(p, foreground, Named(i)), rest)
  {
    hide Sgr;
    SgrOne(p, (if foreground then 30 else 40) + (if i < 8 then i else 52 + i), rest);
  }

  lemma SgrColour(p: Attrs, c: Colour, foreground: bool, rest: seq<nat>)
    requires Sayable(c, if foreground then FOREGROUND else BACKGROUND)
    requires (if foreground then p.fg else p.bg) == (if foreground then FOREGROUND else BACKGROUND)
    ensures Sgr(p, ColourParams(c, foreground) + rest) == Sgr(WithColour(p, foreground, c), rest)
  {
    match c {
      case Named(i) =>
        if i >= 16 {
          assert ColourParams(c, foreground) + rest == rest;
        } else {
          SgrNamed(p, foreground, i, rest);
        }
      case Indexed(i) => SgrIndexed(p, foreground, i, rest);
      case Rgb(r, g, b) => SgrRgb(p, foreground, r, g, b, rest);
    }
  }

  lemma SgrUnderline(p: Attrs, a: Attrs, rest: seq<nat>)
    ensures Sgr(p, UnderlineParams(a) + rest)
         == Sgr(if a.double then Rendition(p, 21) else if AnyUnderline(a) then Rendition(p, 4) else p, rest)
  {
    SgrOpt(p, a.double, 21, rest);
    SgrOpt(p, AnyUnderline(a), 4, rest);
  }

  lemma SgrWeights(p: Attrs, a: Attrs, rest: seq<nat>)
    ensures Sgr(p, [0] + (Opt(a.bold, 1) + (Opt(a.dim, 2) + (Opt(a.italic, 3) + rest))))
         == Sgr(PLAIN.(bold := a.bold, dim := a.dim, italic := a.italic), rest)
  {
    hide Sgr, Opt;
    var r3 := Opt(a.italic, 3) + rest;
    var r2 := Opt(a.dim, 2) + r3;
    SgrOne(p, 0, Opt(a.bold, 1) + r2);
    SgrOpt(PLAIN, a.bold, 1, r2);
    SgrOpt(PLAIN.(bold := a.bold), a.dim, 2, r3);
    SgrOpt(PLAIN.(bold := a.bold, dim := a.dim), a.italic, 3, rest);
  }

  lemma SgrEffects(p: Attrs, a: Attrs, rest: seq<nat>)
    requires !p.inverse && !p.hidden && !p.strikeout
    ensures Sgr(p, Opt(a.inverse, 7) + (Opt(a.hidden, 8) + (Opt(a.strikeout, 9) + rest)))
         == Sgr(p.(inverse := a.inverse, hidden := a.hidden, strikeout := a.strikeout), rest)
  {
    var r2 := Opt(a.strikeout, 9) + rest;
    hide Sgr, Opt;
    SgrOpt(p, a.inverse, 7, Opt(a.hidden, 8) + r2);
    SgrOpt(p.(inverse := a.inverse), a.hidden, 8, r2);
    SgrOpt(p.(inverse := a.inverse, hidden := a.hidden), a.strikeout, 9, rest);
  }

  lemma SgrColours(p: Attrs, fg: Colour, bg: Colour)
    requires Sayable(fg, FOREGROUND) && Sayable(bg, BACKGROUND) && p.fg == FOREGROUND && p.bg == BACKGROUND
    ensures Sgr(p, ColourParams(fg, true) + ColourParams(bg, false)) == p.(fg := fg, bg := bg)
  {
    var none: seq<nat> := [];
    assert ColourParams(bg, false) + none == ColourParams(bg, false);
    SgrColour(p, fg, true, ColourParams(bg, false));
    SgrColour(p.(fg := fg), bg, false, none);
  }

  lemma SgrStyled(p: Attrs, a: Attrs, rest: seq<nat>)
    ensures Sgr(p, [0] + (Opt(a.bold, 1) + (Opt(a.dim, 2) + (Opt(a.italic, 3) + (UnderlineParams(a) + rest)))))
         == Sgr(PLAIN.(bold := a.bold, dim := a.dim, italic := a.italic,
                       underline := AnyUnderline(a) && !a.double, double := a.double), rest)
  {
    SgrWeights(p, a, UnderlineParams(a) + rest);
    SgrUnderline(PLAIN.(bold := a.bold, dim := a.dim, italic := a.italic), a, rest);
  }

  /** An SGR from here says the whole rendition, whatever the pen was. */
  lemma SgrIsAbsolute(p: Attrs, a: Attrs)
    requires Expressible(a)
    ensures Sgr(p, SgrParams(a)) == Degrade(a)
  {
    if a == PLAIN {
      SgrOne(p, 0, []);
      assert [0] + [] == [0];
    } else {
      var colours := ColourParams(a.fg, true) + ColourParams(a.bg, false);
      SgrStyled(p, a, Opt(a.inverse, 7) + (Opt(a.hidden, 8) + (Opt(a.strikeout, 9) + colours)));
      var p2 := PLAIN.(bold := a.bold, dim := a.dim, italic := a.italic,
                       underline := AnyUnderline(a) && !a.double, double := a.double);
      SgrEffects(p2, a, colours);
      SgrColours(p2.(inverse := a.inverse, hidden := a.hidden, strikeout := a.strikeout), a.fg, a.bg);
    }
  }

  // ---- one cell ----

  predicate At(t: Terminal, i: nat) {
    if i < t.cols then t.col == i && !t.wrap else i == t.cols && t.col + 1 == t.cols && t.wrap
  }

  function OnRow(t: Terminal, line: seq<Glyph>): Terminal
    requires t.row < |t.cells|
  {
    t.(cells := t.cells[t.row := line])
  }

  lemma ExecOne(emu: Emulator, t: Terminal, op: Op)
    requires Valid(t)
    ensures ExecAll(emu, t, [op]) == Exec(emu, t, op)
  {
    assert [op][1..] == [];
    assert ExecAll(emu, t, [op]) == ExecAll(emu, Exec(emu, t, op), []);
  }

  lemma ExecCons(emu: Emulator, t: Terminal, op: Op, rest: seq<Op>)
    requires Valid(t)
    ensures ExecAll(emu, t, [op] + rest) == ExecAll(emu, Exec(emu, t, op), rest)
  {
    assert ([op] + rest)[1..] == rest;
  }

  /** The tracked pen justifies leaving an SGR out. */
  lemma PenOpsSetPen(emu: Emulator, t: Terminal, a: Attrs, pen: Attrs)
    requires Valid(t) && Expressible(a) && t.pen == Degrade(pen)
    ensures ExecAll(emu, t, PenOps(a, pen)) == t.(pen := Degrade(a))
  {
    if a != pen {
      ExecOne(emu, t, SgrOp(a));
      SgrIsAbsolute(t.pen, a);
    }
  }

  /** The terminal once the zero-width characters `s` have joined column `at`. */
  function WithZeroWidths(t: Terminal, at: nat, s: string): Terminal
    requires t.row < |t.cells| && at < |t.cells[t.row]|
  {
    var g := t.cells[t.row][at];
    OnRow(t, t.cells[t.row][at := g.(zerowidth := g.zerowidth + s)])
  }

  lemma JoinNone(emu: Emulator, t: Terminal, at: nat)
    requires Valid(t) && Joined(t) == at
    ensures at < |t.cells[t.row]| && ExecAll(emu, t, Texts("")) == WithZeroWidths(t, at, "")
  {
    var line := t.cells[t.row];
    assert line[at].zerowidth + "" == line[at].zerowidth;
    assert line[at := line[at]] == line && t.cells[t.row := line] == t.cells;
  }

  lemma JoinExec(emu: Emulator, t: Terminal, c: char, at: nat)
    requires Valid(t) && Joined(t) == at && !IsControl(c) && emu.width(c) == 0
    ensures at < |t.cells[t.row]| && Exec(emu, t, Text(c)) == WithZeroWidths(t, at, [c])
    ensures Joined(Exec(emu, t, Text(c))) == at
  {
  }

  lemma JoinTwice(t: Terminal, at: nat, a: string, b: string)
    requires t.row < |t.cells| && at < |t.cells[t.row]|
    ensures WithZeroWidths(WithZeroWidths(t, at, a), at, b) == WithZeroWidths(t, at, a + b)
  {
    var line := t.cells[t.row];
    var g := line[at];
    var g1, g2 := g.(zerowidth := g.zerowidth + a), g.(zerowidth := g.zerowidth + (a + b));
    assert g.zerowidth + a + b == g.zerowidth + (a + b);
    assert line[at := g1][at := g2] == line[at := g2];
    assert t.cells[t.row := line[at := g1]][t.row := line[at := g2]] == t.cells[t.row := line[at := g2]];
  }

  lemma JoinOne(emu: Emulator, t: Terminal, s: string, at: nat)
    requires Valid(t) && Joined(t) == at && s != ""
    requires !IsControl(s[0]) && emu.width(s[0]) == 0
    ensures var t1 := Exec(emu, t, Text(s[0]));
      && at < |t.cells[t.row]| && Joined(t1) == at
      && ExecAll(emu, t, Texts(s)) == ExecAll(emu, t1, Texts(s[1..]))
      && t1.row < |t1.cells| && at < |t1.cells[t1.row]|
      && WithZeroWidths(t1, at, s[1..]) == WithZeroWidths(t, at, s)
  {
    hide Exec, ExecAll;
    JoinExec(emu, t, s[0], at);
    ExecCons(emu, t, Text(s[0]), Texts(s[1..]));
    JoinTwice(t, at, [s[0]], s[1..]);
    assert [s[0]] + s[1..] == s;
  }

  lemma {:induction false} ZeroWidthsJoin(emu: Emulator, t: Terminal, s: string, at: nat)
    requires Valid(t) && Joined(t) == at
    requires forall i :: 0 <= i < |s| ==> !IsControl(s[i]) && emu.width(s[i]) == 0
    ensures at < |t.cells[t.row]| && ExecAll(emu, t, Texts(s)) == WithZeroWidths(t, at, s)
    decreases |s|
  {
    hide *;
    if s == "" {
      JoinNone(emu, t, at);
    } else {
      JoinOne(emu, t, s, at);
      ZeroWidthsJoin(emu, Exec(emu, t, Text(s[0])), s[1..], at);
    }
  }

  lemma PutsOne(emu: Emulator, t: Terminal, c: char, i: nat)
    requires Valid(t) && i < t.cols && At(t, i) && !IsControl(c) && emu.width(c) == 1
    ensures Exec(emu, t, Text(c)) == Placed(OnRow(t, t.cells[t.row][i := Glyph(c, [], t.pen, Single)]), i + 1)
  {
  }

  lemma WriteNarrow(emu: Emulator, t: Terminal, cell: Cell, i: nat)
    requires Valid(t) && i < t.cols && At(t, i)
    requires GoodText(emu, cell, 1) && !cell.wide && !cell.spacer && t.pen == Degrade(cell.attrs)
    ensures ExecAll(emu, t, [Text(cell.c)] + Texts(cell.zerowidth))
         == Placed(OnRow(t, t.cells[t.row][i := View(cell)]), i + 1)
  {
    hide Exec, ExecAll;
    PutsOne(emu, t, cell.c, i);
    var t1 := Exec(emu, t, Text(cell.c));
    ExecCons(emu, t, Text(cell.c), Texts(cell.zerowidth));
    var line := t.cells[t.row];
    var bare := View(cell).(zerowidth := []);
    assert t1.cells[t.row] == line[i := bare];
    ZeroWidthsJoin(emu, t1, cell.zerowidth, i);
    assert bare.zerowidth + cell.zerowidth == cell.zerowidth;
    var full := line[i := View(cell)];
    assert t1.cells[t.row][i := View(cell)] == full;
    assert t1.cells[t.row := full] == t.cells[t.row := full];
  }

  lemma PutsPair(emu: Emulator, t: Terminal, c: char, i: nat)
    requires Valid(t) && i + 1 < t.cols && At(t, i) && !IsControl(c) && emu.width(c) == 2
    ensures Exec(emu, t, Text(c))
         == Placed(OnRow(t, t.cells[t.row][i := Glyph(c, [], t.pen, Head)][i + 1 := Glyph(' ', [], t.pen, Tail)]), i + 2)
  {
    var line := t.cells[t.row];
    var head := line[i := Glyph(c, [], t.pen, Head)];
    assert Exec(emu, t, Text(c)) == WriteWide(t, c);
    assert t.cells[t.row := head][t.row] == head;
    var both := head[i + 1 := Glyph(' ', [], t.pen, Tail)];
    assert t.cells[t.row := head][t.row := both] == t.cells[t.row := both];
  }

  lemma WriteWidePair(emu: Emulator, t: Terminal, cell: Cell, spacer: Cell, i: nat)
    requires Valid(t) && i + 1 < t.cols && At(t, i)
    requires GoodText(emu, cell, 2) && cell.wide && t.pen == Degrade(cell.attrs)
    requires spacer.spacer && !spacer.wide && spacer.c == ' ' && spacer.zerowidth == "" && spacer.attrs == cell.attrs
    ensures ExecAll(emu, t, [Text(cell.c)] + Texts(cell.zerowidth))
         == Placed(OnRow(t, t.cells[t.row][i := View(cell)][i + 1 := View(spacer)]), i + 2)
  {
    hide Exec, ExecAll;
    PutsPair(emu, t, cell.c, i);
    var t1 := Exec(emu, t, Text(cell.c));
    var line := t.cells[t.row];
    var bare := View(cell).(zerowidth := []);
    assert t1.cells[t.row] == line[i := bare][i + 1 := View(spacer)];
    assert Joined(t1) == i;
    ExecCons(emu, t, Text(cell.c), Texts(cell.zerowidth));
    ZeroWidthsJoin(emu, t1, cell.zerowidth, i);
    assert bare.zerowidth + cell.zerowidth == cell.zerowidth;
    var full := line[i := View(cell)][i + 1 := View(spacer)];
    assert t1.cells[t.row][i := View(cell)] == full;
    assert t1.cells[t.row := full] == t.cells[t.row := full];
  }

  // ---- one row ----

  function Painted(line: seq<Glyph>, row: seq<Cell>, i: nat, n: nat): (l: seq<Glyph>)
    requires i <= n <= |row| && |line| == |row|
    ensures |l| == |row|
  {
    line[..i] + Views(row[i..n]) + line[n..]
  }

  lemma PaintedStep(line: seq<Glyph>, row: seq<Cell>, i: nat, k: nat, n: nat, line': seq<Glyph>)
    requires i <= k <= n <= |row| && |line| == |row| == |line'|
    requires line' == line[..i] + Views(row[i..k]) + line[k..]
    ensures Painted(line', row, k, n) == Painted(line, row, i, n)
  {
    var a, b := Painted(line', row, k, n), Painted(line, row, i, n);
    forall j | 0 <= j < |row| ensures a[j] == b[j] {
    }
  }

  /** The columns a cell that is no spacer takes. */
  function Columns(cell: Cell): nat { if cell.wide then 2 else 1 }

  function PaintedCell(line: seq<Glyph>, row: seq<Cell>, i: nat): (l: seq<Glyph>)
    requires |line| == |row| && i < |row| && i + Columns(row[i]) <= |row|
    ensures |l| == |row|
  {
    line[..i] + Views(row[i..i + Columns(row[i])]) + line[i + Columns(row[i])..]
  }

  lemma CellOpsExec(emu: Emulator, t: Terminal, cell: Cell, pen: Attrs)
    requires Valid(t) && Expressible(cell.attrs) && t.pen == Degrade(pen) && !cell.spacer && !cell.leading
    ensures ExecAll(emu, t, CellOps(cell, pen))
         == ExecAll(emu, t.(pen := Degrade(cell.attrs)), [Text(cell.c)] + Texts(cell.zerowidth))
  {
    ExecAllConcat(emu, t, PenOps(cell.attrs, pen), [Text(cell.c)] + Texts(cell.zerowidth));
    PenOpsSetPen(emu, t, cell.attrs, pen);
  }

  lemma PaintedCellIs(line: seq<Glyph>, row: seq<Cell>, i: nat)
    requires |line| == |row| && i < |row| && i + Columns(row[i]) <= |row|
    ensures PaintedCell(line, row, i)
         == (if row[i].wide then line[i := View(row[i])][i + 1 := View(row[i + 1])] else line[i := View(row[i])])
  {
  }

  lemma CellPaints(emu: Emulator, t: Terminal, row: seq<Cell>, i: nat, pen: Attrs)
    requires Valid(t) && |row| == t.cols && GoodRow(emu, row)
    requires i < |row| && !row[i].spacer && t.pen == Degrade(pen) && At(t, i)
    ensures i + Columns(row[i]) <= |row|
    ensures ExecAll(emu, t, CellOps(row[i], pen))
         == Placed(OnRow(t, PaintedCell(t.cells[t.row], row, i)).(pen := Degrade(row[i].attrs)), i + Columns(row[i]))
  {
    assert WellPaired(emu, row, i);
    CellOpsExec(emu, t, row[i], pen);
    PaintedCellIs(t.cells[t.row], row, i);
    var t1 := t.(pen := Degrade(row[i].attrs));
    if row[i].wide {
      assert WellPaired(emu, row, i + 1);
      WriteWidePair(emu, t1, row[i], row[i + 1], i);
    } else {
      WriteNarrow(emu, t1, row[i], i);
    }
  }

  lemma SpacerIsSilent(row: seq<Cell>, i: nat, n: nat, pen: Attrs)
    requires i < n <= |row| && row[i].spacer
    ensures CellsOps(row, i, n, pen) == CellsOps(row, i + 1, n, pen)
    ensures CellsPen(row, i, n, pen) == CellsPen(row, i + 1, n, pen)
  {
    var rest := CellsOps(row, i + 1, n, pen);
    assert [] + rest == rest;
  }

  lemma NextCell(emu: Emulator, row: seq<Cell>, i: nat, n: nat)
    requires GoodRow(emu, row) && i < n <= |row| && !row[i].spacer && (n < |row| ==> !row[n].spacer)
    ensures var k := i + Columns(row[i]); k <= n && (k < n ==> !row[k].spacer)
    ensures !row[i].leading && (row[i].wide ==> i + 1 < n && row[i + 1].spacer)
  {
    assert WellPaired(emu, row, i);
    var k := i + Columns(row[i]);
    if k < |row| {
      assert WellPaired(emu, row, k);
    }
    if row[i].wide {
      assert WellPaired(emu, row, i + 1);
    }
  }

  lemma RestOfCells(row: seq<Cell>, i: nat, n: nat, pen: Attrs)
    requires i < n <= |row| && !row[i].spacer && !row[i].leading
    requires row[i].wide ==> i + 1 < n && row[i + 1].spacer
    ensures var k := i + Columns(row[i]);
      && CellsOps(row, i, n, pen) == CellOps(row[i], pen) + CellsOps(row, k, n, row[i].attrs)
      && CellsPen(row, i, n, pen) == CellsPen(row, k, n, row[i].attrs)
  {
    hide CellOps;
    var after := CellsOps(row, i + 1, n, row[i].attrs);
    assert CellsOps(row, i, n, pen) == CellOps(row[i], pen) + after;
    if row[i].wide {
      SpacerIsSilent(row, i + 1, n, row[i].attrs);
    }
  }

  lemma ExecRest(emu: Emulator, t: Terminal, row: seq<Cell>, i: nat, n: nat, pen: Attrs, k: nat, after: Terminal)
    requires Valid(t) && GoodRow(emu, row)
    requires i < n <= |row| && !row[i].spacer && (n < |row| ==> !row[n].spacer) && k == i + Columns(row[i])
    requires ExecAll(emu, t, CellOps(row[i], pen)) == after
    ensures k <= n && (k < n ==> !row[k].spacer)
    ensures Valid(after)
    ensures ExecAll(emu, t, CellsOps(row, i, n, pen)) == ExecAll(emu, after, CellsOps(row, k, n, row[i].attrs))
    ensures CellsPen(row, i, n, pen) == CellsPen(row, k, n, row[i].attrs)
  {
    NextCell(emu, row, i, n);
    RestOfCells(row, i, n, pen);
    ExecAllConcat(emu, t, CellOps(row[i], pen), CellsOps(row, k, n, row[i].attrs));
  }

  lemma OnRowTwice(t: Terminal, line: seq<Glyph>, done: seq<Glyph>)
    requires t.row < |t.cells|
    ensures t.cells[t.row := line][t.row] == line
    ensures t.cells[t.row := line][t.row := done] == t.cells[t.row := done]
  {
  }

  function AfterCells(t: Terminal, row: seq<Cell>, i: nat, n: nat, pen: Attrs): Terminal
    requires Valid(t) && |row| == t.cols && i <= n <= |row|
  {
    Placed(OnRow(t, Painted(t.cells[t.row], row, i, n)).(pen := Degrade(CellsPen(row, i, n, pen))), n)
  }

  lemma OneCellOn(t: Terminal, row: seq<Cell>, i: nat, t1: Terminal)
    requires Valid(t) && |row| == t.cols && i < |row| && i + Columns(row[i]) <= |row|
    requires t1 == Placed(OnRow(t, PaintedCell(t.cells[t.row], row, i)).(pen := Degrade(row[i].attrs)), i + Columns(row[i]))
    ensures Valid(t1) && At(t1, i + Columns(row[i])) && t1.cols == t.cols && t1.pen == Degrade(row[i].attrs)
  {
    hide PaintedCell, Degrade;
  }

  lemma AfterCellsStep(t: Terminal, row: seq<Cell>, i: nat, n: nat, pen: Attrs, t1: Terminal)
    requires Valid(t) && Valid(t1) && t1.cols == t.cols && |row| == t.cols && i < n <= |row| && i + Columns(row[i]) <= n
    requires t1 == Placed(OnRow(t, PaintedCell(t.cells[t.row], row, i)).(pen := Degrade(row[i].attrs)), i + Columns(row[i]))
    requires CellsPen(row, i, n, pen) == CellsPen(row, i + Columns(row[i]), n, row[i].attrs)
    ensures AfterCells(t1, row, i + Columns(row[i]), n, row[i].attrs) == AfterCells(t, row, i, n, pen)
  {
    var line := t.cells[t.row];
    PaintedCellFits(line, row, i);
    PaintedStep(line, row, i, i + Columns(row[i]), n, PaintedCell(line, row, i));
    hide CellsPen, Painted, PaintedCell, Degrade, Shaped;
    OnRowTwice(t, PaintedCell(line, row, i), Painted(line, row, i, n));
  }

  lemma PaintedCellFits(line: seq<Glyph>, row: seq<Cell>, i: nat)
    requires |line| == |row| && i < |row| && i + Columns(row[i]) <= |row|
    ensures PaintedCell(line, row, i) == line[..i] + Views(row[i..i + Columns(row[i])]) + line[i + Columns(row[i])..]
  {
  }

  lemma PaintNone(emu: Emulator, t: Terminal, row: seq<Cell>, i: nat, pen: Attrs)
    requires Valid(t) && |row| == t.cols && i <= |row| && At(t, i) && t.pen == Degrade(pen)
    ensures ExecAll(emu, t, CellsOps(row, i, i, pen)) == AfterCells(t, row, i, i, pen)
  {
    assert Painted(t.cells[t.row], row, i, i) == t.cells[t.row];
    assert t.cells[t.row := t.cells[t.row]] == t.cells;
  }

  lemma PaintStep(emu: Emulator, t: Terminal, row: seq<Cell>, i: nat, n: nat, pen: Attrs)
      returns (k: nat, t1: Terminal)
    requires Valid(t) && |row| == t.cols && GoodRow(emu, row)
    requires i < n <= |row| && !row[i].spacer && (n < |row| ==> !row[n].spacer)
    requires t.pen == Degrade(pen) && At(t, i)
    ensures i < k <= n && (k < n ==> !row[k].spacer)
    ensures Valid(t1) && t1.cols == t.cols && t1.pen == Degrade(row[i].attrs) && At(t1, k)
    ensures ExecAll(emu, t, CellsOps(row, i, n, pen)) == ExecAll(emu, t1, CellsOps(row, k, n, row[i].attrs))
    ensures AfterCells(t1, row, k, n, row[i].attrs) == AfterCells(t, row, i, n, pen)
  {
    hide Exec, ExecAll, CellOps, CellsOps, Shaped;
    k, t1 := i + Columns(row[i]), ExecAll(emu, t, CellOps(row[i], pen));
    CellPaints(emu, t, row, i, pen);
    ExecRest(emu, t, row, i, n, pen, k, t1);
    OneCellOn(t, row, i, t1);
    AfterCellsStep(t, row, i, n, pen, t1);
  }

  /** Painting cells `i..n` of a row from column `i`. */
  lemma {:induction false} CellsPaint(emu: Emulator, t: Terminal, row: seq<Cell>, i: nat, n: nat, pen: Attrs)
    requires Valid(t) && |row| == t.cols && GoodRow(emu, row)
    requires i <= n <= |row| && (i < n ==> !row[i].spacer) && (n < |row| ==> !row[n].spacer)
    requires t.pen == Degrade(pen) && At(t, i)
    ensures ExecAll(emu, t, CellsOps(row, i, n, pen)) == AfterCells(t, row, i, n, pen)
    decreases n - i
  {
    hide *;
    if i == n {
      PaintNone(emu, t, row, i, pen);
    } else {
      var k, t1 := PaintStep(emu, t, row, i, n, pen);
      CellsPaint(emu, t1, row, k, n, row[i].attrs);
    }
  }
}
