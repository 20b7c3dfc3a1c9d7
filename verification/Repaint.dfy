/** A session's screen and the control functions that repaint it. */
module Repaint {
  import opened Utf8
  import opened Decimal
  import opened Ansi
  import opened Terminal
  import Scanner

  /** One cell as the emulator holds it. `other` stands for what a repaint does
      not carry: hyperlinks and underline colours. */
  datatype Cell = Cell(
    c: char, zerowidth: seq<char>, attrs: Attrs,
    wide: bool, spacer: bool, leading: bool, wrapline: bool, other: nat)

  const DEFAULT_CELL := Cell(' ', [], PLAIN, false, false, false, false, 0)

  /** The emulator's state: the visible screen, the pen, the cursor and the
      private modes it tracks, by their DECSET numbers. */
  datatype Screen = Screen(
    cols: nat, rows: nat, cells: seq<seq<Cell>>, pen: Attrs, row: int, col: nat,
    alt: bool, keypad: bool, modes: set<nat>)

  const TRACKED_MODES: seq<nat> := [1, 6, 7, 1000, 1002, 1003, 1004, 1005, 1006, 1007, 2004]
  const SYNC := 2026

  // ---- renditions ----

  function Opt(cond: bool, n: nat): seq<nat> { if cond then [n] else [] }

  function ColourParams(c: Colour, foreground: bool): seq<nat> {
    var base := if foreground then 30 else 40;
    var extended := if foreground then 38 else 48;
    match c
    case Named(i) =>
      if c == (if foreground then FOREGROUND else BACKGROUND) then []
      else if i < 8 then [base + i]
      else if i < 16 then [base + 60 + i - 8]
      else [extended, 5, i]
    case Indexed(i) => [extended, 5, i]
    case Rgb(r, g, b) => [extended, 2, r, g, b]
  }

  predicate AnyUnderline(a: Attrs) { a.underline || a.double || a.curl || a.dotted || a.dashed }

  function UnderlineParams(a: Attrs): seq<nat> {
    if a.double then [21] else if AnyUnderline(a) then [4] else []
  }

  /** `sgr`: absolute, from a reset. */
  function SgrParams(a: Attrs): seq<nat> {
    if a == PLAIN then [0] else
      [0] + (Opt(a.bold, 1) + (Opt(a.dim, 2) + (Opt(a.italic, 3) + (UnderlineParams(a)
      + (Opt(a.inverse, 7) + (Opt(a.hidden, 8) + (Opt(a.strikeout, 9)
      + (ColourParams(a.fg, true) + ColourParams(a.bg, false)))))))))
  }

  function SgrOp(a: Attrs): Op { Csi(false, SgrParams(a), 'm' as int) }

  // ---- rows ----

  function Texts(s: string): (ops: seq<Op>)
    ensures |ops| == |s| && forall i :: 0 <= i < |ops| ==> ops[i] == Text(s[i])
  {
    if s == "" then [] else [Text(s[0])] + Texts(s[1..])
  }

  function PenOps(a: Attrs, pen: Attrs): seq<Op> { if a == pen then [] else [SgrOp(a)] }

  function CellOps(cell: Cell, pen: Attrs): seq<Op> {
    if cell.spacer || cell.leading then []
    else PenOps(cell.attrs, pen) + ([Text(cell.c)] + Texts(cell.zerowidth))
  }

  function PenAfter(cell: Cell, pen: Attrs): Attrs {
    if cell.spacer || cell.leading then pen else cell.attrs
  }

  /** Cells `i..n` of a row, painted with `pen` set at first. */
  function CellsOps(row: seq<Cell>, i: nat, n: nat, pen: Attrs): seq<Op>
    requires i <= n <= |row|
    decreases n - i
  {
    if i == n then [] else CellOps(row[i], pen) + CellsOps(row, i + 1, n, PenAfter(row[i], pen))
  }

  function CellsPen(row: seq<Cell>, i: nat, n: nat, pen: Attrs): Attrs
    requires i <= n <= |row|
    decreases n - i
  {
    if i == n then pen else CellsPen(row, i + 1, n, PenAfter(row[i], pen))
  }

  /** How much of a row is kept: up to its last cell that is not the default. */
  function Used(cells: seq<Cell>): (n: nat)
    ensures n <= |cells|
    ensures n > 0 ==> cells[n - 1] != DEFAULT_CELL
    ensures forall i :: n <= i < |cells| ==> cells[i] == DEFAULT_CELL
  {
    if cells == [] then 0
    else if cells[|cells| - 1] != DEFAULT_CELL then |cells|
    else Used(cells[..|cells| - 1])
  }

  function Cup(row: nat, col: nat): Op { Csi(false, [row, col], 'H' as int) }

  function RowOps(cells: seq<Cell>, r: nat, pen: Attrs): seq<Op> {
    var n := Used(cells);
    if n == 0 then [] else [Cup(r + 1, 1)] + CellsOps(cells, 0, n, pen)
  }

  function RowPen(cells: seq<Cell>, pen: Attrs): Attrs { CellsPen(cells, 0, Used(cells), pen) }

  /** The first `n` rows. */
  function RowsOps(rows: seq<seq<Cell>>, n: nat): seq<Op>
    requires n <= |rows|
  {
    if n == 0 then [] else RowsOps(rows, n - 1) + RowOps(rows[n - 1], n - 1, RowsPen(rows, n - 1))
  }

  function RowsPen(rows: seq<seq<Cell>>, n: nat): Attrs
    requires n <= |rows|
  {
    if n == 0 then PLAIN else RowPen(rows[n - 1], RowsPen(rows, n - 1))
  }

  // ---- the whole repaint ----

  function HeadOps(g: Screen): seq<Op> {
    [SetMode(SYNC)]
    + ((if g.alt then [SetMode(ALTERNATE)] else [])
    + ((if ORIGIN in g.modes then [ResetMode(ORIGIN)] else [])
    + [Csi(false, [0], 'm' as int), Csi(false, [2], 'J' as int), Csi(false, [], 'H' as int)]))
  }

  function RegionOps(region: Option<(nat, nat)>): seq<Op> {
    if region.Some? then [Csi(false, [region.value.0, region.value.1], 'r' as int)] else []
  }

  function TrackedOps(modes: set<nat>, codes: seq<nat>): seq<Op> {
    if codes == [] then []
    else
      (if (codes[0] in modes) == (codes[0] in DEFAULT_MODES) then []
       else [if codes[0] in modes then SetMode(codes[0]) else ResetMode(codes[0])])
      + TrackedOps(modes, codes[1..])
  }

  function ScannedOps(on: seq<(nat, bool)>, codes: seq<nat>): seq<Op> {
    if codes == [] then []
    else (if Scanner.IsOn(on, codes[0]) then [SetMode(codes[0])] else []) + ScannedOps(on, codes[1..])
  }

  function ModeOps(g: Screen, sc: Scanner.State): seq<Op> {
    TrackedOps(g.modes, TRACKED_MODES)
    + (ScannedOps(sc.modes, Scanner.SCANNED_MODES)
    + (if g.keypad then [Esc(0x3D)] else []))
  }

  lemma {:induction false} TrackedOpsAre(modes: set<nat>, codes: seq<nat>, op: Op)
    ensures op in TrackedOps(modes, codes) <==>
      exists m :: m in codes && ((m in modes && m !in DEFAULT_MODES && op == SetMode(m))
                                 || (m !in modes && m in DEFAULT_MODES && op == ResetMode(m)))
  {
    if codes != [] {
      TrackedOpsAre(modes, codes[1..], op);
      assert forall m :: m in codes <==> m == codes[0] || m in codes[1..];
    }
  }

  lemma {:induction false} ScannedOpsAre(on: seq<(nat, bool)>, codes: seq<nat>, op: Op)
    ensures op in ScannedOps(on, codes) <==> exists m :: m in codes && Scanner.IsOn(on, m) && op == SetMode(m)
  {
    if codes != [] {
      ScannedOpsAre(on, codes[1..], op);
      assert forall m :: m in codes <==> m == codes[0] || m in codes[1..];
    }
  }

  /** All that the mode part of a repaint says: the emulator's modes the session
      has and a fresh terminal has not, those a fresh terminal has and the session
      has turned off, the unnamed modes that are on, and the keypad. */
  lemma ModeOpsAre(g: Screen, sc: Scanner.State, op: Op)
    ensures op in ModeOps(g, sc) <==>
      || (exists m :: m in {1, 6, 1000, 1002, 1003, 1004, 1005, 1006, 2004} && m in g.modes && op == SetMode(m))
      || (exists m :: m in {7, 1007} && m !in g.modes && op == ResetMode(m))
      || (exists m :: m in {5, 9, 1001, 1015, 1016} && Scanner.IsOn(sc.modes, m) && op == SetMode(m))
      || (g.keypad && op == Esc('=' as int))
  {
    TrackedOpsAre(g.modes, TRACKED_MODES, op);
    ScannedOpsAre(sc.modes, Scanner.SCANNED_MODES, op);
    hide TrackedOps, ScannedOps;
    assert forall m :: m in {1, 6, 1000, 1002, 1003, 1004, 1005, 1006, 2004} <==> m in TRACKED_MODES && m !in DEFAULT_MODES;
    assert forall m :: m in {7, 1007} <==> m in TRACKED_MODES && m in DEFAULT_MODES;
    assert forall m :: m in {5, 9, 1001, 1015, 1016} <==> m in Scanner.SCANNED_MODES;
  }

  function CursorRow(g: Screen): nat { if g.row > 0 then g.row else 0 }

  function CursorCol(g: Screen): nat
    requires g.cols >= 1
  {
    if g.col < g.cols - 1 then g.col else g.cols - 1
  }

  /** Whether the cursor is on a row origin mode cannot address. */
  predicate Outside(g: Screen, sc: Scanner.State) {
    && ORIGIN in g.modes && sc.region.Some?
    && !(sc.region.value.0 - 1 <= CursorRow(g) < sc.region.value.1)
  }

  function CursorOps(g: Screen, sc: Scanner.State): seq<Op>
    requires g.cols >= 1
    requires sc.region.Some? ==> sc.region.value.0 >= 1
  {
    var row, col := CursorRow(g), CursorCol(g) + 1;
    (if Outside(g, sc) then
       [ResetMode(ORIGIN), Cup(row + 1, col), Esc(0x37), SetMode(ORIGIN), Esc(0x38)]
     else if ORIGIN in g.modes && sc.region.Some? then [Cup(row - (sc.region.value.0 - 1) + 1, col)]
     else [Cup(row + 1, col)])
    + [if CURSOR in g.modes then SetMode(CURSOR) else ResetMode(CURSOR)]
  }

  function TitleOps(title: Option<string>): seq<Op> {
    if title.Some? then [Title(title.value)] else []
  }

  function TailOps(g: Screen, sc: Scanner.State): seq<Op>
    requires g.cols >= 1
    requires sc.region.Some? ==> sc.region.value.0 >= 1
  {
    RegionOps(sc.region)
    + (ModeOps(g, sc)
    + ([SgrOp(g.pen)]
    + (CursorOps(g, sc)
    + (TitleOps(sc.title)
    + [ResetMode(SYNC)]))))
  }

  function RepaintOps(g: Screen, sc: Scanner.State): seq<Op>
    requires g.cols >= 1 && g.rows <= |g.cells|
    requires sc.region.Some? ==> sc.region.value.0 >= 1
  {
    HeadOps(g) + (RowsOps(g.cells, g.rows) + TailOps(g, sc))
  }

  function RepaintBytes(g: Screen, sc: Scanner.State): seq<Byte>
    requires g.cols >= 1 && g.rows <= |g.cells|
    requires sc.region.Some? ==> sc.region.value.0 >= 1
  {
    PrintAll(RepaintOps(g, sc))
  }

  const BEGIN_FRAME: seq<Byte> := [0x1B, 0x5B, 0x3F, 0x32, 0x30, 0x32, 0x36, 0x68]
  const END_FRAME: seq<Byte> := [0x1B, 0x5B, 0x3F, 0x32, 0x30, 0x32, 0x36, 0x6C]
  const ENTER_ALTERNATE: seq<Byte> := [0x1B, 0x5B, 0x3F, 0x31, 0x30, 0x34, 0x39, 0x68]
  const LEAVE_ORIGIN: seq<Byte> := [0x1B, 0x5B, 0x3F, 0x36, 0x6C]
  const CLEAR: seq<Byte> := [0x1B, 0x5B, 0x30, 0x6D, 0x1B, 0x5B, 0x32, 0x4A, 0x1B, 0x5B, 0x48]

  /** However the screen is, its repaint is one frame of synchronized output: it
      opens that, enters the alternate screen if the session is on it, leaves
      origin mode if the session has it, clears, and closes the frame at its end. */
  lemma RepaintIsOneFrame(g: Screen, sc: Scanner.State) returns (painted: seq<Byte>)
    requires g.cols >= 1 && g.rows <= |g.cells|
    requires sc.region.Some? ==> sc.region.value.0 >= 1
    ensures RepaintBytes(g, sc) ==
      BEGIN_FRAME + ((if g.alt then ENTER_ALTERNATE else []) + ((if 6 in g.modes then LEAVE_ORIGIN else []) + CLEAR))
      + (painted + END_FRAME)
  {
    var rows := RowsOps(g.cells, g.rows);
    var tail := TailSpoken(g, sc);
    painted := PrintAll(rows) + tail;
    HeadPrints(g);
    PrintAllConcat(HeadOps(g), rows + TailOps(g, sc));
    PrintAllConcat(rows, TailOps(g, sc));
    hide *;
    Assoc(PrintAll(rows), tail, END_FRAME);
  }

  lemma TailSpoken(g: Screen, sc: Scanner.State) returns (tail: seq<Byte>)
    requires g.cols >= 1 && (sc.region.Some? ==> sc.region.value.0 >= 1)
    ensures PrintAll(TailOps(g, sc)) == tail + END_FRAME
  {
    var region, modes, pen, cursor, title :=
      RegionOps(sc.region), ModeOps(g, sc), [SgrOp(g.pen)], CursorOps(g, sc), TitleOps(sc.title);
    PrintSix(region, modes, pen, cursor, title, [ResetMode(SYNC)]);
    FrameMarks();
    tail := PrintAll(region) + (PrintAll(modes) + (PrintAll(pen) + (PrintAll(cursor) + PrintAll(title))));
    hide PrintAll, RegionOps, ModeOps, CursorOps, TitleOps;
    FrameAssoc(PrintAll(region), PrintAll(modes), PrintAll(pen), PrintAll(cursor), PrintAll(title), END_FRAME);
  }

  lemma PrintsFour(n: nat, fin: Byte)
    requires 1000 <= n < 10000
    ensures PrintAll([Csi(true, [n], fin)]) ==
      [0x1B, 0x5B, 0x3F, 48 + n / 1000, 48 + n / 100 % 10, 48 + n / 10 % 10, 48 + n % 10, fin]
  {
    assert n / 10 / 10 == n / 100 && n / 100 / 10 == n / 1000;
    assert Digits(n / 100) == [48 + n / 1000] + [48 + n / 100 % 10];
    assert Digits(n / 10) == Digits(n / 100) + [48 + n / 10 % 10];
    assert Params([n]) == Digits(n) == Digits(n / 10) + [48 + n % 10];
    PrintsOne(Csi(true, [n], fin));
  }

  lemma PrintsShort(n: nat, fin: Byte)
    requires n < 10
    ensures PrintAll([Csi(true, [n], fin)]) == [0x1B, 0x5B, 0x3F, 48 + n, fin]
    ensures PrintAll([Csi(false, [n], fin)]) == [0x1B, 0x5B, 48 + n, fin]
    ensures PrintAll([Csi(false, [], fin)]) == [0x1B, 0x5B, fin]
  {
    PrintsOne(Csi(true, [n], fin));
    PrintsOne(Csi(false, [n], fin));
    PrintsOne(Csi(false, [], fin));
  }

  lemma PrintsOne(op: Op)
    ensures PrintAll([op]) == Print(op)
  {
    assert [op][1..] == [];
    assert Print(op) + [] == Print(op);
  }

  lemma FrameMarks()
    ensures PrintAll([SetMode(SYNC)]) == BEGIN_FRAME && PrintAll([ResetMode(SYNC)]) == END_FRAME
    ensures PrintAll([SetMode(ALTERNATE)]) == ENTER_ALTERNATE && PrintAll([ResetMode(ORIGIN)]) == LEAVE_ORIGIN
  {
    hide PrintAll, Print;
    assert PrintAll([SetMode(SYNC)]) == BEGIN_FRAME by { PrintsFour(2026, 0x68); }
    assert PrintAll([ResetMode(SYNC)]) == END_FRAME by { PrintsFour(2026, 0x6C); }
    assert PrintAll([SetMode(ALTERNATE)]) == ENTER_ALTERNATE by { PrintsFour(1049, 0x68); }
    assert PrintAll([ResetMode(ORIGIN)]) == LEAVE_ORIGIN by { PrintsShort(6, 0x6C); }
  }

  lemma ClearPrints()
    ensures PrintAll([Csi(false, [0], 0x6D), Csi(false, [2], 0x4A), Csi(false, [], 0x48)]) == CLEAR
  {
    hide PrintAll, Print;
    var sgr, ed, cup := Csi(false, [0], 0x6D), Csi(false, [2], 0x4A), Csi(false, [], 0x48);
    PrintAllConcat([sgr], [ed] + [cup]);
    PrintAllConcat([ed], [cup]);
    assert [sgr, ed, cup] == [sgr] + ([ed] + [cup]);
    assert PrintAll([sgr]) == [0x1B, 0x5B, 0x30, 0x6D] by { PrintsShort(0, 0x6D); }
    assert PrintAll([ed]) == [0x1B, 0x5B, 0x32, 0x4A] by { PrintsShort(2, 0x4A); }
    assert PrintAll([cup]) == [0x1B, 0x5B, 0x48] by { PrintsShort(0, 0x48); }
  }

  lemma HeadPrints(g: Screen)
    ensures PrintAll(HeadOps(g)) ==
      BEGIN_FRAME + ((if g.alt then ENTER_ALTERNATE else []) + ((if 6 in g.modes then LEAVE_ORIGIN else []) + CLEAR))
  {
    var a, b, c := [SetMode(SYNC)], if g.alt then [SetMode(ALTERNATE)] else [], if ORIGIN in g.modes then [ResetMode(ORIGIN)] else [];
    var clear := [Csi(false, [0], 0x6D), Csi(false, [2], 0x4A), Csi(false, [], 0x48)];
    PrintAllConcat(a, b + (c + clear));
    PrintAllConcat(b, c + clear);
    PrintAllConcat(c, clear);
    FrameMarks();
    ClearPrints();
    PrintsNothing();
    hide PrintAll;
  }

  lemma PrintsNothing()
    ensures PrintAll([]) == []
  {
  }

  lemma FrameAssoc(a: seq<Byte>, b: seq<Byte>, c: seq<Byte>, d: seq<Byte>, e: seq<Byte>, f: seq<Byte>)
    ensures a + (b + (c + (d + (e + f)))) == (a + (b + (c + (d + e)))) + f
  {
    Assoc(d, e, f);
    Assoc(c, d + e, f);
    Assoc(b, c + (d + e), f);
    Assoc(a, b + (c + (d + e)), f);
  }

  // ---- building the bytes ----

  lemma Assoc(a: seq<Byte>, b: seq<Byte>, c: seq<Byte>)
    ensures (a + b) + c == a + (b + c)
  {
  }

  lemma PrintCons(op: Op, rest: seq<Op>)
    ensures PrintAll([op] + rest) == Print(op) + PrintAll(rest)
    ensures PrintAll([op]) == Print(op)
  {
    assert ([op] + rest)[1..] == rest && [op][1..] == [];
  }

  lemma NothingPrints()
    ensures PrintAll([]) == []
  {
  }

  lemma CellPrints(cell: Cell, pen: Attrs)
    requires !cell.spacer && !cell.leading
    ensures PrintAll(CellOps(cell, pen))
         == PrintAll(PenOps(cell.attrs, pen)) + (Encode(cell.c) + PrintAll(Texts(cell.zerowidth)))
  {
    PrintAllConcat(PenOps(cell.attrs, pen), [Text(cell.c)] + Texts(cell.zerowidth));
    PrintCons(Text(cell.c), Texts(cell.zerowidth));
  }

  lemma CellsPrint(row: seq<Cell>, i: nat, n: nat, pen: Attrs)
    requires i < n <= |row|
    ensures PrintAll(CellsOps(row, i, n, pen))
         == PrintAll(CellOps(row[i], pen)) + PrintAll(CellsOps(row, i + 1, n, PenAfter(row[i], pen)))
  {
    PrintAllConcat(CellOps(row[i], pen), CellsOps(row, i + 1, n, PenAfter(row[i], pen)));
  }

  /** One cell's bytes: an SGR when the pen changes, then its characters. */
  method RenderCell(cell: Cell, pen: Attrs) returns (out: seq<Byte>, tracked: Attrs)
    ensures out == PrintAll(CellOps(cell, pen)) && tracked == PenAfter(cell, pen)
  {
    out, tracked := [], pen;
    if cell.spacer || cell.leading {
      return;
    }
    CellPrints(cell, pen);
    if cell.attrs != pen {
      PrintCons(SgrOp(cell.attrs), []);
      out := Print(SgrOp(cell.attrs));
      tracked := cell.attrs;
    }
    out := out + (Encode(cell.c) + PrintAll(Texts(cell.zerowidth)));
  }

  /** A row's first `n` cells as bytes, and the pen left at their end. */
  method RenderCells(row: seq<Cell>, n: nat, pen: Attrs) returns (out: seq<Byte>, tracked: Attrs)
    requires n <= |row|
    ensures out == PrintAll(CellsOps(row, 0, n, pen)) && tracked == CellsPen(row, 0, n, pen)
  {
    hide PrintAll, CellOps;
    tracked := pen;
    out := [];
    NothingPrints();
    for i := 0 to n
      invariant out + PrintAll(CellsOps(row, i, n, tracked)) == PrintAll(CellsOps(row, 0, n, pen))
      invariant CellsPen(row, i, n, tracked) == CellsPen(row, 0, n, pen)
    {
      CellsPrint(row, i, n, tracked);
      ghost var rest := PrintAll(CellsOps(row, i + 1, n, PenAfter(row[i], tracked)));
      var bytes, after := RenderCell(row[i], tracked);
      Assoc(out, bytes, rest);
      out := out + bytes;
      tracked := after;
    }
  }

  method RenderRow(cells: seq<Cell>, pen: Attrs) returns (rendered: Option<(seq<Byte>, Attrs)>)
    ensures rendered.None? <==> Used(cells) == 0
    ensures rendered.Some? ==>
      rendered.value == (PrintAll(CellsOps(cells, 0, Used(cells), pen)), RowPen(cells, pen))
  {
    var last := |cells|;
    while last > 0 && cells[last - 1] == DEFAULT_CELL
      invariant 0 <= last <= |cells| && Used(cells) == Used(cells[..last])
    {
      assert cells[..last][..last - 1] == cells[..last - 1];
      last := last - 1;
    }
    if last == 0 { return None; }
    assert cells[..last][last - 1] == cells[last - 1];
    var out, tracked := RenderCells(cells, last, pen);
    return Some((out, tracked));
  }

  method TrackedBytes(modes: set<nat>, codes: seq<nat>) returns (out: seq<Byte>)
    ensures out == PrintAll(TrackedOps(modes, codes))
  {
    hide PrintAll, Print;
    NothingPrints();
    out := [];
    for i := 0 to |codes|
      invariant out + PrintAll(TrackedOps(modes, codes[i..])) == PrintAll(TrackedOps(modes, codes))
    {
      var on := codes[i] in modes;
      ghost var rest := TrackedOps(modes, codes[i + 1..]);
      assert codes[i..][0] == codes[i] && codes[i..][1..] == codes[i + 1..];
      assert [] + rest == rest;
      if on == (codes[i] in DEFAULT_MODES) {
        continue;
      }
      var op := if on then SetMode(codes[i]) else ResetMode(codes[i]);
      PrintCons(op, rest);
      Assoc(out, Print(op), PrintAll(rest));
      out := out + Print(op);
    }
  }

  method ScannedBytes(on: seq<(nat, bool)>, codes: seq<nat>) returns (out: seq<Byte>)
    ensures out == PrintAll(ScannedOps(on, codes))
  {
    hide PrintAll, Print;
    NothingPrints();
    out := [];
    for i := 0 to |codes|
      invariant out + PrintAll(ScannedOps(on, codes[i..])) == PrintAll(ScannedOps(on, codes))
    {
      ghost var rest := ScannedOps(on, codes[i + 1..]);
      assert codes[i..][0] == codes[i] && codes[i..][1..] == codes[i + 1..];
      assert [] + rest == rest;
      if Scanner.IsOn(on, codes[i]) {
        PrintCons(SetMode(codes[i]), rest);
        Assoc(out, Print(SetMode(codes[i])), PrintAll(rest));
        out := out + Print(SetMode(codes[i]));
      }
    }
  }

  method ModeBytes(g: Screen, sc: Scanner.State) returns (out: seq<Byte>)
    ensures out == PrintAll(ModeOps(g, sc))
  {
    ghost var keypad := if g.keypad then [Esc(0x3D)] else [];
    ghost var scanned := ScannedOps(sc.modes, Scanner.SCANNED_MODES);
    PrintAllConcat(TrackedOps(g.modes, TRACKED_MODES), scanned + keypad);
    PrintAllConcat(scanned, keypad);
    PrintCons(Esc(0x3D), []);
    out := TrackedBytes(g.modes, TRACKED_MODES);
    var more := ScannedBytes(sc.modes, Scanner.SCANNED_MODES);
    out := out + more;
    if g.keypad {
      out := out + Print(Esc(0x3D));
    }
  }

  lemma AssocSix(a: seq<Byte>, b: seq<Byte>, c: seq<Byte>, d: seq<Byte>, e: seq<Byte>, f: seq<Byte>)
    ensures ((((a + b) + c) + d) + e) + f == a + (b + (c + (d + (e + f))))
  {
    Assoc(((a + b) + c) + d, e, f);
    Assoc((a + b) + c, d, e + f);
    Assoc(a + b, c, d + (e + f));
    Assoc(a, b, c + (d + (e + f)));
  }

  lemma PrintSix(a: seq<Op>, b: seq<Op>, c: seq<Op>, d: seq<Op>, e: seq<Op>, f: seq<Op>)
    ensures PrintAll(a + (b + (c + (d + (e + f)))))
         == PrintAll(a) + (PrintAll(b) + (PrintAll(c) + (PrintAll(d) + (PrintAll(e) + PrintAll(f)))))
  {
    PrintAllConcat(a, b + (c + (d + (e + f))));
    PrintAllConcat(b, c + (d + (e + f)));
    PrintAllConcat(c, d + (e + f));
    PrintAllConcat(d, e + f);
    PrintAllConcat(e, f);
  }

  method TailBytes(g: Screen, sc: Scanner.State) returns (out: seq<Byte>)
    requires g.cols >= 1
    requires sc.region.Some? ==> sc.region.value.0 >= 1
    ensures out == PrintAll(TailOps(g, sc))
  {
    var pen, sync := [SgrOp(g.pen)], [ResetMode(SYNC)];
    PrintSix(RegionOps(sc.region), ModeOps(g, sc), pen, CursorOps(g, sc), TitleOps(sc.title), sync);
    AssocSix(PrintAll(RegionOps(sc.region)), PrintAll(ModeOps(g, sc)), PrintAll(pen),
             PrintAll(CursorOps(g, sc)), PrintAll(TitleOps(sc.title)), PrintAll(sync));
    out := PrintAll(RegionOps(sc.region));
    var modes := ModeBytes(g, sc);
    out := out + modes;
    out := out + PrintAll(pen);
    out := out + PrintAll(CursorOps(g, sc));
    out := out + PrintAll(TitleOps(sc.title));
    out := out + PrintAll(sync);
  }

  lemma RowsPrint(rows: seq<seq<Cell>>, n: nat)
    requires n < |rows|
    ensures var ops := RowOps(rows[n], n, RowsPen(rows, n));
            PrintAll(RowsOps(rows, n + 1)) == PrintAll(RowsOps(rows, n)) + PrintAll(ops)
    ensures Used(rows[n]) == 0 ==> RowsPen(rows, n + 1) == RowsPen(rows, n)
  {
    PrintAllConcat(RowsOps(rows, n), RowOps(rows[n], n, RowsPen(rows, n)));
  }

  method RowBytes(cells: seq<Cell>, row: nat, pen: Attrs) returns (out: seq<Byte>, tracked: Attrs)
    ensures out == PrintAll(RowOps(cells, row, pen)) && tracked == RowPen(cells, pen)
  {
    var rendered := RenderRow(cells, pen);
    match rendered
    case None =>
      out, tracked := [], pen;
    case Some((bytes, ended)) =>
      PrintCons(Cup(row + 1, 1), CellsOps(cells, 0, Used(cells), pen));
      out, tracked := Print(Cup(row + 1, 1)) + bytes, ended;
  }

  method RowsBytes(rows: seq<seq<Cell>>) returns (out: seq<Byte>)
    ensures out == PrintAll(RowsOps(rows, |rows|))
  {
    out := [];
    var pen := PLAIN;
    for row := 0 to |rows|
      invariant pen == RowsPen(rows, row) && out == PrintAll(RowsOps(rows, row))
    {
      RowsPrint(rows, row);
      var bytes, ended := RowBytes(rows[row], row, pen);
      out := out + bytes;
      pen := ended;
    }
  }

  lemma PrintThree(a: seq<Op>, b: seq<Op>, c: seq<Op>)
    ensures PrintAll(a + (b + c)) == (PrintAll(a) + PrintAll(b)) + PrintAll(c)
  {
    PrintAllConcat(a, b + c);
    PrintAllConcat(b, c);
    Assoc(PrintAll(a), PrintAll(b), PrintAll(c));
  }

  /** `repaint`: the screen and what the scanner kept, as bytes. */
  method Repaint(g: Screen, scanner: Scanner.Scanner) returns (out: seq<Byte>)
    requires g.cols >= 1 && g.rows == |g.cells|
    requires scanner.region.Some? ==> scanner.region.value.0 >= 1
    ensures out == RepaintBytes(g, scanner.Contents())
  {
    var sc := scanner.Contents();
    PrintThree(HeadOps(g), RowsOps(g.cells, g.rows), TailOps(g, sc));
    out := PrintAll(HeadOps(g));
    var rows := RowsBytes(g.cells);
    out := out + rows;
    var tail := TailBytes(g, sc);
    out := out + tail;
  }
}
