/** A small terminal: what the control functions a repaint uses mean.

    Cursor position, erasure and rendition follow sections 8.3.21 (CUP), 8.3.39
    (ED) and 8.3.117 (SGR) of ECMA-48; the DEC private modes, margins and
    save/restore follow the VT manuals. Two things emulators differ in are
    parameters: how many columns a character takes, and whether DECRC restores
    origin mode. */
module Terminal {
  import opened Utf8
  import opened Decimal
  import opened Ansi

  datatype Colour = Named(index: nat) | Indexed(index: nat) | Rgb(r: nat, g: nat, b: nat)

  const FOREGROUND: Colour := Named(256)
  const BACKGROUND: Colour := Named(257)

  /** A rendition: colours and the flags an SGR can speak of. */
  datatype Attrs = Attrs(
    fg: Colour, bg: Colour,
    bold: bool, dim: bool, italic: bool, inverse: bool, hidden: bool, strikeout: bool,
    underline: bool, double: bool, curl: bool, dotted: bool, dashed: bool)

  const PLAIN := Attrs(FOREGROUND, BACKGROUND, false, false, false, false, false, false, false, false, false, false, false)

  /** One column of the screen: a character of one column, the first of two
      columns, or the second. */
  datatype Part = Single | Head | Tail
  datatype Glyph = Glyph(c: char, zerowidth: seq<char>, attrs: Attrs, part: Part)

  type Grid = seq<seq<Glyph>>

  datatype Saved = Saved(row: nat, col: nat, attrs: Attrs, origin: bool)

  datatype Emulator = Emulator(width: char -> nat, decrcRestoresOrigin: bool)

  /** `wrap` is the pending wrap: the last column has been written and the next
      character belongs to the next row. `modes` holds the DEC private modes
      that are set; `region` the margins, one-based and inclusive. */
  datatype Terminal = Terminal(
    cols: nat, rows: nat,
    cells: Grid, hidden: Grid, alt: bool,
    row: nat, col: nat, wrap: bool, pen: Attrs, saved: Saved,
    modes: set<nat>, keypad: bool, region: Option<(nat, nat)>, title: Option<string>)

  const ORIGIN := 6
  const AUTOWRAP := 7
  const CURSOR := 25
  const ALTERNATE := 1049
  const DEFAULT_MODES: set<nat> := {7, 25, 1007}

  // ---- the screen ----

  function Blank(bg: Colour): Glyph { Glyph(' ', [], PLAIN.(bg := bg), Single) }

  function Cleared(cols: nat, rows: nat, bg: Colour): (g: Grid)
    ensures |g| == rows && forall r :: 0 <= r < rows ==> |g[r]| == cols
  {
    seq(rows, r => seq(cols, c => Blank(bg)))
  }

  function Fresh(cols: nat, rows: nat): Terminal {
    var blank := Cleared(cols, rows, BACKGROUND);
    Terminal(cols, rows, blank, blank, false, 0, 0, false, PLAIN, Saved(0, 0, PLAIN, false),
             DEFAULT_MODES, false, None, None)
  }

  predicate Shaped(g: Grid, cols: nat, rows: nat) {
    |g| == rows && forall r :: 0 <= r < rows ==> |g[r]| == cols
  }

  /** Margins around the whole screen are none. */
  function Spanned(region: Option<(nat, nat)>, rows: nat): Option<(nat, nat)> {
    if region == Some((1, rows)) then None else region
  }

  predicate Valid(t: Terminal) {
    && t.cols >= 2 && t.rows >= 1
    && Shaped(t.cells, t.cols, t.rows)
    && t.row < t.rows && t.col < t.cols
    && (t.region.Some? ==> 1 <= t.region.value.0 < t.region.value.1 <= t.rows)
    && Spanned(t.region, t.rows) == t.region
  }

  function Put(g: Grid, r: nat, c: nat, glyph: Glyph): Grid
    requires r < |g| && c < |g[r]|
  {
    g[r := g[r][c := glyph]]
  }

  // ---- margins and the cursor ----

  function Top(t: Terminal): nat { if t.region.Some? then t.region.value.0 else 1 }
  function Bottom(t: Terminal): nat { if t.region.Some? then t.region.value.1 else t.rows }

  function Clamp(n: int, lo: int, hi: int): int { if n < lo then lo else if n > hi then hi else n }

  function Param(ps: seq<nat>, i: nat): nat { if i < |ps| then ps[i] else 0 }
  function OrOne(n: nat): nat { if n == 0 then 1 else n }

  /** CUP: under origin mode rows count from the top margin and stop at the
      bottom one. */
  function MoveTo(t: Terminal, row: nat, col: nat): (t': Terminal)
    requires Valid(t)
    ensures Valid(t')
  {
    var r := if ORIGIN in t.modes then Clamp(Top(t) - 1 + OrOne(row) - 1, Top(t) - 1, Bottom(t) - 1)
             else Clamp(OrOne(row) - 1, 0, t.rows - 1);
    t.(row := r, col := Clamp(OrOne(col) - 1, 0, t.cols - 1), wrap := false)
  }

  function Save(t: Terminal): Terminal { t.(saved := Saved(t.row, t.col, t.pen, ORIGIN in t.modes)) }

  function RestoreCursor(emu: Emulator, t: Terminal): (t': Terminal)
    requires Valid(t)
    ensures Valid(t')
  {
    var modes := if !emu.decrcRestoresOrigin then t.modes
                 else if t.saved.origin then t.modes + {ORIGIN} else t.modes - {ORIGIN};
    t.(row := Clamp(t.saved.row, 0, t.rows - 1), col := Clamp(t.saved.col, 0, t.cols - 1),
       wrap := false, pen := t.saved.attrs, modes := modes)
  }

  function SetMargins(t: Terminal, ps: seq<nat>): (t': Terminal)
    requires Valid(t)
    ensures Valid(t')
  {
    var top := OrOne(Param(ps, 0));
    var bottom := if Param(ps, 1) == 0 || Param(ps, 1) > t.rows then t.rows else Param(ps, 1);
    if ps == [] then MoveTo(t.(region := None), 1, 1)
    else if top < bottom then MoveTo(t.(region := Spanned(Some((top, bottom)), t.rows)), 1, 1)
    else t
  }

  // ---- modes ----

  /** Modes of which a terminal keeps at most one: setting one resets these. */
  function Rivals(code: nat): set<nat> {
    if code == 1000 then {1002, 1003}
    else if code == 1002 then {1000, 1003}
    else if code == 1003 then {1000, 1002}
    else if code == 1005 then {1006}
    else if code == 1006 then {1005}
    else {}
  }

  function Decset(t: Terminal, code: nat): (t': Terminal)
    requires Valid(t)
    ensures Valid(t')
  {
    if code == ALTERNATE then
      if t.alt then t
      else Save(t).(alt := true, hidden := t.cells, cells := Cleared(t.cols, t.rows, t.pen.bg))
    else
      var t := t.(modes := t.modes - Rivals(code) + {code});
      if code == ORIGIN then MoveTo(t, 1, 1) else t
  }

  function Decrst(emu: Emulator, t: Terminal, code: nat): (t': Terminal)
    requires Valid(t)
    ensures Valid(t')
  {
    if code == ALTERNATE then
      if t.alt && Shaped(t.hidden, t.cols, t.rows) then RestoreCursor(emu, t.(alt := false, cells := t.hidden)) else t
    else
      var t := t.(modes := t.modes - {code});
      if code == ORIGIN then MoveTo(t, 1, 1) else t
  }

  function DecsetAll(t: Terminal, ps: seq<nat>): (t': Terminal)
    requires Valid(t)
    ensures Valid(t')
    decreases |ps|
  {
    if ps == [] then t else DecsetAll(Decset(t, ps[0]), ps[1..])
  }

  function DecrstAll(emu: Emulator, t: Terminal, ps: seq<nat>): (t': Terminal)
    requires Valid(t)
    ensures Valid(t')
    decreases |ps|
  {
    if ps == [] then t else DecrstAll(emu, Decrst(emu, t, ps[0]), ps[1..])
  }

  // ---- rendition ----

  /** One SGR parameter other than the extended colours. */
  function Rendition(a: Attrs, p: nat): Attrs {
    if p == 0 then PLAIN
    else if p == 1 then a.(bold := true)
    else if p == 2 then a.(dim := true)
    else if p == 3 then a.(italic := true)
    else if p == 4 then a.(underline := true, double := false, curl := false, dotted := false, dashed := false)
    else if p == 21 then a.(underline := false, double := true, curl := false, dotted := false, dashed := false)
    else if p == 7 then a.(inverse := true)
    else if p == 8 then a.(hidden := true)
    else if p == 9 then a.(strikeout := true)
    else if p == 22 then a.(bold := false, dim := false)
    else if p == 23 then a.(italic := false)
    else if p == 24 then a.(underline := false, double := false, curl := false, dotted := false, dashed := false)
    else if p == 27 then a.(inverse := false)
    else if p == 28 then a.(hidden := false)
    else if p == 29 then a.(strikeout := false)
    else if 30 <= p < 38 then a.(fg := Named(p - 30))
    else if p == 39 then a.(fg := FOREGROUND)
    else if 40 <= p < 48 then a.(bg := Named(p - 40))
    else if p == 49 then a.(bg := BACKGROUND)
    else if 90 <= p < 98 then a.(fg := Named(p - 90 + 8))
    else if 100 <= p < 108 then a.(bg := Named(p - 100 + 8))
    else a
  }

  function WithColour(a: Attrs, foreground: bool, c: Colour): Attrs {
    if foreground then a.(fg := c) else a.(bg := c)
  }

  /** SGR: each parameter in turn, `38` and `48` taking an index or a triple
      with them. An index or component past 255 is no colour. */
  function Sgr(a: Attrs, ps: seq<nat>): Attrs
    decreases |ps|
  {
    if ps == [] then a
    else if ps[0] in {38, 48} then
      if |ps| >= 3 && ps[1] == 5 then
        Sgr(if ps[2] < 256 then WithColour(a, ps[0] == 38, Indexed(ps[2])) else a, ps[3..])
      else if |ps| >= 5 && ps[1] == 2 then
        Sgr(if ps[2] < 256 && ps[3] < 256 && ps[4] < 256
            then WithColour(a, ps[0] == 38, Rgb(ps[2], ps[3], ps[4])) else a, ps[5..])
      else a
    else Sgr(Rendition(a, ps[0]), ps[1..])
  }

  // ---- text ----

  /** Move down one row, scrolling the margins when the cursor is on the last. */
  function LineFeed(t: Terminal): (t': Terminal)
    requires Valid(t)
    ensures Valid(t')
  {
    var top, bottom := Top(t) - 1, Bottom(t);
    if t.row == bottom - 1 then
      t.(cells := t.cells[..top] + t.cells[top + 1..bottom]
                  + [seq(t.cols, c => Blank(t.pen.bg))] + t.cells[bottom..])
    else if t.row + 1 < t.rows then t.(row := t.row + 1)
    else t
  }

  function NextLine(t: Terminal): (t': Terminal)
    requires Valid(t)
    ensures Valid(t')
  {
    LineFeed(t).(col := 0, wrap := false)
  }

  /** Leave the cursor after column `after - 1` of its row. */
  function Placed(t: Terminal, after: nat): Terminal {
    if after < t.cols then t.(col := after, wrap := false)
    else t.(col := if t.cols == 0 then 0 else t.cols - 1, wrap := true)
  }

  /** The column whose glyph a zero-width character joins. */
  function Joined(t: Terminal): nat
    requires Valid(t)
  {
    var last := if t.wrap || t.col == 0 then t.col else t.col - 1;
    if t.cells[t.row][last].part == Tail && last > 0 then last - 1 else last
  }

  function Write(emu: Emulator, t: Terminal, c: char): (t': Terminal)
    requires Valid(t)
    ensures Valid(t')
  {
    var w := emu.width(c);
    if IsControl(c) then t
    else if w == 0 then
      var at := Joined(t);
      var g := t.cells[t.row][at];
      t.(cells := Put(t.cells, t.row, at, g.(zerowidth := g.zerowidth + [c])))
    else
      var t := if t.wrap && AUTOWRAP in t.modes then NextLine(t) else t;
      if w == 1 then
        Placed(t.(cells := Put(t.cells, t.row, t.col, Glyph(c, [], t.pen, Single))), t.col + 1)
      else if t.col + 1 < t.cols then WriteWide(t, c)
      else if AUTOWRAP in t.modes then WriteWide(NextLine(t), c)
      else t.(wrap := true)
  }

  function WriteWide(t: Terminal, c: char): (t': Terminal)
    requires Valid(t) && t.col + 1 < t.cols
    ensures Valid(t')
  {
    var head := Put(t.cells, t.row, t.col, Glyph(c, [], t.pen, Head));
    Placed(t.(cells := Put(head, t.row, t.col + 1, Glyph(' ', [], t.pen, Tail))), t.col + 2)
  }

  // ---- control functions ----

  function ExecPrivate(emu: Emulator, t: Terminal, ps: seq<nat>, fin: Byte): (t': Terminal)
    requires Valid(t)
    ensures Valid(t')
  {
    if fin == 'h' as int then DecsetAll(t, ps)
    else if fin == 'l' as int then DecrstAll(emu, t, ps)
    else t
  }

  function ExecCsi(t: Terminal, ps: seq<nat>, fin: Byte): (t': Terminal)
    requires Valid(t)
    ensures Valid(t')
  {
    if fin == 'H' as int then MoveTo(t, Param(ps, 0), Param(ps, 1))
    else if fin == 'J' as int && Param(ps, 0) == 2 then t.(cells := Cleared(t.cols, t.rows, t.pen.bg))
    else if fin == 'm' as int then t.(pen := Sgr(t.pen, if ps == [] then [0] else ps))
    else if fin == 'r' as int then SetMargins(t, ps)
    else t
  }

  function Exec(emu: Emulator, t: Terminal, op: Op): (t': Terminal)
    requires Valid(t)
    ensures Valid(t')
  {
    match op
    case Text(c) => Write(emu, t, c)
    case Title(title) => t.(title := Some(title))
    case Esc(code) =>
      if code == 0x37 then Save(t)
      else if code == 0x38 then RestoreCursor(emu, t)
      else if code == 0x3D then t.(keypad := true)
      else if code == 0x3E then t.(keypad := false)
      else if code == 0x63 then Fresh(t.cols, t.rows)
      else t
    case Csi(private, ps, fin) => if private then ExecPrivate(emu, t, ps, fin) else ExecCsi(t, ps, fin)
    case Other => t
  }

  function ExecAll(emu: Emulator, t: Terminal, ops: seq<Op>): (t': Terminal)
    requires Valid(t)
    ensures Valid(t')
    decreases |ops|
  {
    if ops == [] then t else ExecAll(emu, Exec(emu, t, ops[0]), ops[1..])
  }

  /** What a terminal shows once it has been fed `bytes`. */
  function Feed(emu: Emulator, t: Terminal, bytes: seq<Byte>): (t': Terminal)
    requires Valid(t)
    ensures Valid(t')
    decreases |bytes|
  {
    if bytes == [] then t
    else
      var (op, n) := Next(bytes);
      Feed(emu, Exec(emu, t, op), bytes[n..])
  }

  lemma {:induction false} ExecAllConcat(emu: Emulator, t: Terminal, a: seq<Op>, b: seq<Op>)
    requires Valid(t)
    ensures ExecAll(emu, t, a + b) == ExecAll(emu, ExecAll(emu, t, a), b)
    decreases |a|
  {
    if a == [] {
      assert a + b == b;
    } else {
      assert (a + b)[1..] == a[1..] + b;
      ExecAllConcat(emu, Exec(emu, t, a[0]), a[1..], b);
    }
  }

  lemma FeedOne(emu: Emulator, t: Terminal, op: Op, rest: seq<Byte>)
    requires Valid(t) && Writable(op)
    ensures Feed(emu, t, Print(op) + rest) == Feed(emu, Exec(emu, t, op), rest)
  {
    hide Exec, Print, Next;
    NextOfPrint(op, rest);
    assert (Print(op) + rest)[|Print(op)|..] == rest;
  }

  lemma FeedStep(emu: Emulator, t: Terminal, ops: seq<Op>, rest: seq<Byte>)
    requires Valid(t) && AllWritable(ops) && ops != []
    ensures AllWritable(ops[1..])
    ensures Feed(emu, t, PrintAll(ops) + rest) == Feed(emu, Exec(emu, t, ops[0]), PrintAll(ops[1..]) + rest)
    ensures ExecAll(emu, t, ops) == ExecAll(emu, Exec(emu, t, ops[0]), ops[1..])
  {
    hide Exec, Print, Feed, Writable;
    FeedOne(emu, t, ops[0], PrintAll(ops[1..]) + rest);
    assert PrintAll(ops) + rest == Print(ops[0]) + (PrintAll(ops[1..]) + rest);
  }

  lemma FeedNone(emu: Emulator, t: Terminal, rest: seq<Byte>)
    requires Valid(t)
    ensures Feed(emu, t, PrintAll([]) + rest) == Feed(emu, ExecAll(emu, t, []), rest)
  {
    hide Feed;
    assert PrintAll([]) + rest == rest;
  }

  /** Feeding printed control functions performs exactly those functions. */
  lemma {:induction false} FeedOfPrint(emu: Emulator, t: Terminal, ops: seq<Op>, rest: seq<Byte>)
    requires Valid(t) && AllWritable(ops)
    ensures Feed(emu, t, PrintAll(ops) + rest) == Feed(emu, ExecAll(emu, t, ops), rest)
    decreases |ops|
  {
    hide *;
    if ops == [] {
      FeedNone(emu, t, rest);
    } else {
      FeedStep(emu, t, ops, rest);
      FeedOfPrint(emu, Exec(emu, t, ops[0]), ops[1..], rest);
    }
  }

  /** A stream that ends between sequences, and then another. */
  lemma {:induction false} FeedConcat(emu: Emulator, t: Terminal, a: seq<Byte>, b: seq<Byte>)
    requires Valid(t) && Whole(a)
    ensures Feed(emu, t, a + b) == Feed(emu, Feed(emu, t, a), b)
    decreases |a|
  {
    hide Exec, Next, Complete, Valid;
    if a == [] {
      assert a + b == b;
    } else {
      var (op, n) := Next(a);
      NextExtends(a, b);
      assert (a + b)[n..] == a[n..] + b;
      FeedConcat(emu, Exec(emu, t, op), a[n..], b);
    }
  }

  lemma DecsetKeepsSize(t: Terminal, ps: seq<nat>)
    requires Valid(t)
    ensures DecsetAll(t, ps).cols == t.cols && DecsetAll(t, ps).rows == t.rows
    decreases |ps|
  {
    hide Cleared, Shaped;
    if ps != [] {
      DecsetKeepsSize(Decset(t, ps[0]), ps[1..]);
    }
  }

  lemma DecrstKeepsSize(emu: Emulator, t: Terminal, ps: seq<nat>)
    requires Valid(t)
    ensures DecrstAll(emu, t, ps).cols == t.cols && DecrstAll(emu, t, ps).rows == t.rows
    decreases |ps|
  {
    hide Shaped;
    if ps != [] {
      DecrstKeepsSize(emu, Decrst(emu, t, ps[0]), ps[1..]);
    }
  }

  lemma NextLineKeepsSize(t: Terminal)
    requires Valid(t)
    ensures NextLine(t).cols == t.cols && NextLine(t).rows == t.rows && NextLine(t).col == 0
  {
    hide Shaped;
  }

  lemma WideKeepsSize(t: Terminal, c: char)
    requires Valid(t) && t.col + 1 < t.cols
    ensures WriteWide(t, c).cols == t.cols && WriteWide(t, c).rows == t.rows
  {
    hide Put, Shaped;
  }

  lemma WriteKeepsSize(emu: Emulator, t: Terminal, c: char)
    requires Valid(t)
    ensures Write(emu, t, c).cols == t.cols && Write(emu, t, c).rows == t.rows
  {
    hide NextLine, WriteWide, Put, Joined, IsControl, Shaped;
    NextLineKeepsSize(t);
    var t1 := if t.wrap && AUTOWRAP in t.modes then NextLine(t) else t;
    NextLineKeepsSize(t1);
    if t1.col + 1 < t1.cols {
      WideKeepsSize(t1, c);
    }
    var t2 := NextLine(t1);
    if t2.col + 1 < t2.cols {
      WideKeepsSize(t2, c);
    }
  }

  lemma ExecKeepsSize(emu: Emulator, t: Terminal, op: Op)
    requires Valid(t)
    ensures Exec(emu, t, op).cols == t.cols && Exec(emu, t, op).rows == t.rows
  {
    hide DecsetAll, DecrstAll, Write, Cleared, Shaped, Sgr;
    match op {
      case Text(c) => WriteKeepsSize(emu, t, c);
      case Csi(private, ps, fin) =>
        if private {
          DecsetKeepsSize(t, ps);
          DecrstKeepsSize(emu, t, ps);
        }
      case _ =>
    }
  }

  lemma {:induction false} FeedKeepsSize(emu: Emulator, t: Terminal, bytes: seq<Byte>)
    requires Valid(t)
    ensures Feed(emu, t, bytes).cols == t.cols && Feed(emu, t, bytes).rows == t.rows
    decreases |bytes|
  {
    hide Exec, Next, Valid;
    if bytes != [] {
      var (op, n) := Next(bytes);
      ExecKeepsSize(emu, t, op);
      FeedKeepsSize(emu, Exec(emu, t, op), bytes[n..]);
    }
  }
}
