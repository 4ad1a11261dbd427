/** The framebuffer terminal as a state machine over the characters it is sent. */
module Terminal {
  type Color = nat

  const COLORS: seq<Color> := [
    0x000000, 0xAA0000, 0x00AA00, 0xAA5500, 0x0000AA, 0xAA00AA, 0x00AAAA, 0xAAAAAA,
    0x555555, 0xFF5555, 0x55FF55, 0xFFFF55, 0x5555FF, 0xFF55FF, 0x55FFFF, 0xFFFFFF
  ]
  const MAX_PARAMS := 8
  const ESC := 27 as char

  datatype Cell = Cell(ch: char, fg: Color, bg: Color)
  datatype Pen = Pen(fg: Color, bg: Color, bold: bool, reverse: bool)
  datatype Parser = Parser(escape: bool, csi: bool, question: bool, params: seq<int>, count: nat)
  datatype Term = Term(cols: nat, rows: nat, cells: seq<Cell>, cx: nat, cy: nat, pen: Pen, visible: bool, parser: Parser)

  /** The cells of `n` rows, and so the place of the first cell of row `n`. */
  function Area(cols: nat, n: nat): nat {
    if n == 0 then 0 else Area(cols, n - 1) + cols
  }

  predicate ParserOk(p: Parser) {
    |p.params| == MAX_PARAMS && p.count <= MAX_PARAMS
  }

  /** The cursor is on the grid, the grid is whole and the parameters fit. */
  predicate Sound(t: Term) {
    && t.cx < t.cols && t.cy < t.rows && |t.cells| == Area(t.cols, t.rows) && ParserOk(t.parser)
  }

  function Blank(pen: Pen): Cell {
    Cell(' ', pen.fg, pen.bg)
  }

  function Inked(pen: Pen, c: char): Cell {
    if pen.reverse then Cell(c, pen.bg, pen.fg) else Cell(c, pen.fg, pen.bg)
  }

  function Min(a: nat, b: nat): nat {
    if a < b then a else b
  }

  // ---- Cells ----------------------------------------------------------------

  function Fill(n: nat, cell: Cell): (r: seq<Cell>)
    ensures |r| == n && forall i :: 0 <= i < n ==> r[i] == cell
  {
    seq(n, _ => cell)
  }

  /** Cells `from` up to `to` hold `cell`. */
  function Over(cells: seq<Cell>, from: nat, to: nat, cell: Cell): (r: seq<Cell>)
    requires from <= to <= |cells|
    ensures |r| == |cells|
    ensures forall i :: 0 <= i < |r| ==> r[i] == if from <= i < to then cell else cells[i]
  {
    cells[..from] + Fill(to - from, cell) + cells[to..]
  }

  /** The first `k` cells are gone and `k` blank ones follow the rest. */
  function Up(cells: seq<Cell>, k: nat, blank: Cell): (r: seq<Cell>)
    requires k <= |cells|
    ensures |r| == |cells|
  {
    cells[k..] + Fill(k, blank)
  }

  function Down(cells: seq<Cell>, k: nat, blank: Cell): (r: seq<Cell>)
    requires k <= |cells|
    ensures |r| == |cells|
  {
    Fill(k, blank) + cells[..|cells| - k]
  }

  /** What deleting `n` characters at column `cx` leaves of a row: the last `n` columns are blank, wherever the cursor is. */
  function Deleted(row: seq<Cell>, cx: nat, n: nat, blank: Cell): (r: seq<Cell>)
    requires cx <= |row|
    ensures |r| == |row|
  {
    if n > |row| then row
    else seq(|row|, j requires 0 <= j < |row| => if j >= |row| - n then blank else if j >= cx then row[j + n] else row[j])
  }

  function Inserted(row: seq<Cell>, cx: nat, n: nat, blank: Cell): (r: seq<Cell>)
    requires cx <= |row|
    ensures |r| == |row|
    ensures forall j :: 0 <= j < |r| ==> r[j] == if j < cx then row[j] else if j < cx + n then blank else row[j - n]
  {
    var k := Min(n, |row| - cx);
    row[..cx] + Fill(k, blank) + row[cx..|row| - k]
  }

  /** One row replaced. */
  function WithRow(cells: seq<Cell>, base: nat, row: seq<Cell>): (r: seq<Cell>)
    requires base + |row| <= |cells|
    ensures |r| == |cells|
    ensures forall i :: 0 <= i < |r| ==> r[i] == if base <= i < base + |row| then row[i - base] else cells[i]
  {
    cells[..base] + row + cells[base + |row|..]
  }

  function DeletedIn(cells: seq<Cell>, base: nat, cols: nat, cx: nat, n: nat, blank: Cell): (r: seq<Cell>)
    requires base + cols <= |cells| && cx <= cols
    ensures |r| == |cells|
  {
    WithRow(cells, base, Deleted(cells[base..base + cols], cx, n, blank))
  }

  function InsertedIn(cells: seq<Cell>, base: nat, cols: nat, cx: nat, n: nat, blank: Cell): (r: seq<Cell>)
    requires base + cols <= |cells| && cx <= cols
    ensures |r| == |cells|
  {
    WithRow(cells, base, Inserted(cells[base..base + cols], cx, n, blank))
  }

  lemma {:induction false} RowFits(cols: nat, rows: nat, cy: nat)
    requires cy < rows
    ensures Area(cols, cy) + cols <= Area(cols, rows)
    decreases rows
  {
    if cy < rows - 1 {
      RowFits(cols, rows - 1, cy);
    }
  }

  /** Scrolling `n` lines one by one ends where the whole screen is blank. */
  function Lines(cols: nat, rows: nat, n: nat): (r: nat)
    ensures r == Area(cols, Min(n, rows)) && r <= Area(cols, rows)
  {
    if n < rows then RowFits(cols, rows, n); Area(cols, n) else Area(cols, rows)
  }

  // ---- Control sequences ----------------------------------------------------

  /** Parameters are 32-bit integers. */
  function Wrap(v: int): int {
    (v + 0x8000_0000) % 0x1_0000_0000 - 0x8000_0000
  }

  function Param(p: Parser, i: nat, absent: nat): (n: nat)
    requires ParserOk(p)
    ensures absent > 0 ==> n > 0
  {
    if i < p.count && p.params[i] > 0 then p.params[i] else absent
  }

  const IDLE := Parser(false, false, false, [0, 0, 0, 0, 0, 0, 0, 0], 0)

  function Select(pen: Pen, code: int): Pen {
    if code == 0 then Pen(COLORS[7], COLORS[0], false, false)
    else if code == 1 then pen.(bold := true)
    else if code == 2 then pen.(bold := false)
    else if code == 7 then pen.(reverse := true)
    else if code == 27 then pen.(reverse := false)
    else if 30 <= code <= 37 then pen.(fg := COLORS[code - 30 + if pen.bold then 8 else 0])
    else if code == 39 then pen.(fg := COLORS[7])
    else if 40 <= code <= 47 then pen.(bg := COLORS[code - 40])
    else if code == 49 then pen.(bg := COLORS[0])
    else if 90 <= code <= 97 then pen.(fg := COLORS[code - 90 + 8])
    else if 100 <= code <= 107 then pen.(bg := COLORS[code - 100 + 8])
    else pen
  }

  function SelectAll(pen: Pen, codes: seq<int>): Pen {
    if codes == [] then pen else Select(SelectAll(pen, codes[..|codes| - 1]), codes[|codes| - 1])
  }

  /** The stretch of cells that an erase command blanks. */
  function Stretch(t: Term, cmd: char): (r: (nat, nat))
    requires Sound(t)
    ensures r.0 <= r.1 <= |t.cells|
  {
    RowFits(t.cols, t.rows, t.cy);
    var row := Area(t.cols, t.cy);
    var what := Param(t.parser, 0, 0);
    if cmd == 'J' then
      if what == 0 then (row + t.cx, |t.cells|) else if what == 1 then (0, row + t.cx + 1)
      else if what == 2 then (0, |t.cells|) else (0, 0)
    else if cmd == 'K' then
      if what == 0 then (row + t.cx, row + t.cols) else if what == 1 then (row, row + t.cx + 1)
      else if what == 2 then (row, row + t.cols) else (0, 0)
    else
      (row + t.cx, row + t.cx + Min(Param(t.parser, 0, 1), t.cols - t.cx))
  }

  function Erase(t: Term, cmd: char): (r: Term)
    requires Sound(t)
    ensures Sound(r) && r.cols == t.cols && r.rows == t.rows
  {
    var (from, to) := Stretch(t, cmd);
    var u := t.(cells := Over(t.cells, from, to, Blank(t.pen)));
    if cmd == 'J' && Param(t.parser, 0, 0) == 2 then u.(cx := 0, cy := 0) else u
  }

  function Move(t: Term, cmd: char): (r: Term)
    requires Sound(t)
    ensures Sound(r) && r.cols == t.cols && r.rows == t.rows
  {
    var n := Param(t.parser, 0, 1);
    if cmd == 'A' then t.(cy := if t.cy >= n then t.cy - n else 0)
    else if cmd == 'B' then t.(cy := Min(t.cy + n, t.rows - 1))
    else if cmd == 'C' then t.(cx := Min(t.cx + n, t.cols - 1))
    else if cmd == 'D' then t.(cx := if t.cx >= n then t.cx - n else 0)
    else if cmd == 'G' then t.(cx := Min(n - 1, t.cols - 1))
    else if cmd == 'd' then t.(cy := Min(n - 1, t.rows - 1))
    else t.(cy := Min(n - 1, t.rows - 1), cx := Min(Param(t.parser, 1, 1) - 1, t.cols - 1))
  }

  function Shift(t: Term, cmd: char): (r: Term)
    requires Sound(t)
    ensures Sound(r) && r.cols == t.cols && r.rows == t.rows
  {
    var n := Param(t.parser, 0, 1);
    var blank := Blank(t.pen);
    if cmd == 'L' || cmd == 'T' then t.(cells := Down(t.cells, Lines(t.cols, t.rows, n), blank))
    else if cmd == 'M' || cmd == 'S' then t.(cells := Up(t.cells, Lines(t.cols, t.rows, n), blank))
    else
      RowFits(t.cols, t.rows, t.cy);
      var base := Area(t.cols, t.cy);
      t.(cells := if cmd == 'P' then DeletedIn(t.cells, base, t.cols, t.cx, n, blank)
                  else InsertedIn(t.cells, base, t.cols, t.cx, n, blank))
  }

  predicate Moves(cmd: char) { cmd in "ABCDGdHf" }
  predicate Erases(cmd: char) { cmd in "JKX" }
  predicate Shifts(cmd: char) { cmd in "LTMSP@" }

  function Command(t: Term, cmd: char): (r: Term)
    requires Sound(t)
    ensures Sound(r) && r.cols == t.cols && r.rows == t.rows
  {
    if Moves(cmd) then Move(t, cmd)
    else if Erases(cmd) then Erase(t, cmd)
    else if Shifts(cmd) then Shift(t, cmd)
    else if cmd == 'm' then
      t.(pen := if t.parser.count == 0 then Select(t.pen, 0) else SelectAll(t.pen, t.parser.params[..t.parser.count]))
    else if (cmd == 'h' || cmd == 'l') && t.parser.question && Param(t.parser, 0, 0) == 25 then
      t.(visible := cmd == 'h')
    else t
  }

  // ---- One character --------------------------------------------------------

  function Digit(p: Parser, c: char): (r: Parser)
    requires ParserOk(p) && '0' <= c <= '9'
    ensures ParserOk(r)
  {
    var count := if p.count == 0 then 1 else p.count;
    p.(count := count, params := p.params[count - 1 := Wrap(p.params[count - 1] * 10 + (c - '0') as int)])
  }

  function Escaped(t: Term, c: char): (r: Term)
    requires Sound(t)
    ensures Sound(r) && r.cols == t.cols && r.rows == t.rows
  {
    var p := t.parser;
    if p.csi then
      if '0' <= c <= '9' then t.(parser := Digit(p, c))
      else if c == ';' then t.(parser := if p.count < MAX_PARAMS then p.(count := p.count + 1) else p)
      else if c == '?' then t.(parser := p.(question := true))
      else Command(t, c).(parser := IDLE)
    else if c == '[' then t.(parser := Parser(true, true, false, IDLE.params, 0))
    else t.(parser := IDLE)
  }

  /** The cursor may be one column or one row past the grid until the line is settled. */
  predicate Loose(t: Term) {
    && 0 < t.cols && 0 < t.rows && |t.cells| == Area(t.cols, t.rows) && ParserOk(t.parser)
    && t.cx <= t.cols && t.cy <= t.rows && (t.cy == t.rows ==> t.cx < t.cols)
  }

  function Plain(t: Term, c: char): (r: Term)
    requires Sound(t)
    ensures Loose(r) && r.cols == t.cols && r.rows == t.rows
  {
    if c == '\n' then t.(cx := 0, cy := t.cy + 1)
    else if c == '\r' then t.(cx := 0)
    else if c == 8 as char then t.(cx := if t.cx > 0 then t.cx - 1 else 0)
    else
      RowFits(t.cols, t.rows, t.cy);
      var at := Area(t.cols, t.cy) + t.cx;
      if c == '\t' then
        var k := Min((t.cx / 8 + 1) * 8, t.cols) - t.cx;
        t.(cells := Over(t.cells, at, at + k, Inked(t.pen, ' ')), cx := t.cx + k)
      else t.(cells := t.cells[at := Inked(t.pen, c)], cx := t.cx + 1)
  }

  function Settle(t: Term): (r: Term)
    requires Loose(t)
    ensures Sound(r) && r.cols == t.cols && r.rows == t.rows
  {
    var u := if t.cx >= t.cols then t.(cx := 0, cy := t.cy + 1) else t;
    if u.cy >= u.rows then u.(cells := Up(u.cells, Lines(u.cols, u.rows, 1), Blank(u.pen)), cy := u.rows - 1) else u
  }

  /** Whatever character arrives, the cursor stays on the grid and the parameters stay within eight. */
  function Put(t: Term, c: char): (r: Term)
    requires Sound(t)
    ensures Sound(r) && r.cols == t.cols && r.rows == t.rows
  {
    if t.parser.escape then Escaped(t, c)
    else if c == ESC then t.(parser := t.parser.(escape := true, csi := false))
    else Settle(Plain(t, c))
  }

  function Run(t: Term, text: string): (r: Term)
    requires Sound(t)
    ensures Sound(r) && r.cols == t.cols && r.rows == t.rows
  {
    if text == "" then t else Put(Run(t, text[..|text| - 1]), text[|text| - 1])
  }

  // ---- What the commands are meant to do ------------------------------------

  /** The characters after the deleted ones move left and blanks fill the end of the row. */
  function ShiftedLeft(row: seq<Cell>, cx: nat, n: nat, blank: Cell): (r: seq<Cell>)
    requires cx <= |row|
  {
    var k := Min(n, |row| - cx);
    row[..cx] + row[cx + k..] + Fill(k, blank)
  }

  /** Deleting characters is a shift to the left, for every row, just when they all lie within the row. */
  lemma DeleteExact(width: nat, cx: nat, n: nat, blank: Cell)
    requires cx < width
    ensures (forall row: seq<Cell> | |row| == width :: Deleted(row, cx, n, blank) == ShiftedLeft(row, cx, n, blank))
      <==> cx + n <= width
  {
    if cx + n <= width {
      forall row: seq<Cell> | |row| == width ensures Deleted(row, cx, n, blank) == ShiftedLeft(row, cx, n, blank) {
      }
    } else {
      var other := blank.(fg := blank.fg + 1);
      var row := Fill(width, other);
      var j := if n > width then cx else width - n;
      assert Deleted(row, cx, n, blank)[j] != ShiftedLeft(row, cx, n, blank)[j];
    }
  }

  /** Blank lines pushed in at cell `at`, and lines taken out there. */
  function PushedAt(cells: seq<Cell>, at: nat, k: nat, blank: Cell): seq<Cell>
    requires at + k <= |cells|
  {
    cells[..at] + Fill(k, blank) + cells[at..|cells| - k]
  }

  function PulledAt(cells: seq<Cell>, at: nat, k: nat, blank: Cell): seq<Cell>
    requires at + k <= |cells|
  {
    cells[..at] + cells[at + k..] + Fill(k, blank)
  }

  predicate OnCursorRow(cols: nat, rows: nat, cy: nat, n: nat, k: nat, m: nat) {
    && 0 < cols && cy < rows && 0 < n && k == Area(cols, Min(n, rows)) && m == Area(cols, Min(n, rows - cy))
  }

  /** Inserting and deleting lines act where the cursor is, for every screen, just when it is on the top row. */
  lemma LinesExact(cols: nat, rows: nat, cy: nat, n: nat, k: nat, m: nat, blank: Cell)
    requires OnCursorRow(cols, rows, cy, n, k, m)
    ensures k <= Area(cols, rows) && 0 <= Area(cols, cy) && Area(cols, cy) + m <= Area(cols, rows)
    ensures (forall cells: seq<Cell> | |cells| == Area(cols, rows) :: Down(cells, k, blank) == PushedAt(cells, Area(cols, cy), m, blank))
      <==> cy == 0
    ensures (forall cells: seq<Cell> | |cells| == Area(cols, rows) :: Up(cells, k, blank) == PulledAt(cells, Area(cols, cy), m, blank))
      <==> cy == 0
  {
    LineSizes(cols, rows, cy, n, k, m);
    PushExact(Area(cols, rows), Area(cols, cy), k, m, blank);
    PullExact(Area(cols, rows), Area(cols, cy), k, m, blank);
  }

  lemma PushExact(size: nat, at: nat, k: nat, m: nat, blank: Cell)
    requires 0 < k <= size && at + m <= size && (at == 0 ==> m == k)
    ensures (forall cells: seq<Cell> | |cells| == size :: Down(cells, k, blank) == PushedAt(cells, at, m, blank)) <==> at == 0
  {
    if at == 0 {
      forall cells: seq<Cell> | |cells| == size ensures Down(cells, k, blank) == PushedAt(cells, at, m, blank) {
      }
    } else {
      var cells := Fill(size, blank.(fg := blank.fg + 1));
      assert Down(cells, k, blank)[0] != PushedAt(cells, at, m, blank)[0];
    }
  }

  lemma PullExact(size: nat, at: nat, k: nat, m: nat, blank: Cell)
    requires 0 < k <= size && at + m <= size && (at == 0 ==> m == k)
    ensures (forall cells: seq<Cell> | |cells| == size :: Up(cells, k, blank) == PulledAt(cells, at, m, blank)) <==> at == 0
  {
    if at == 0 {
      forall cells: seq<Cell> | |cells| == size ensures Up(cells, k, blank) == PulledAt(cells, at, m, blank) {
        assert cells[..0] + cells[k..] == cells[k..];
      }
    } else {
      var cells := PullWitness(size, k, blank);
      assert PulledAt(cells, at, m, blank)[0] == cells[0];
    }
  }

  /** A screen whose first cell changes. */
  lemma PullWitness(size: nat, k: nat, blank: Cell) returns (cells: seq<Cell>)
    requires 0 < k <= size
    ensures |cells| == size && Up(cells, k, blank)[0] != cells[0]
  {
    cells := Fill(size, blank.(fg := blank.fg + 1));
    if k < size {
      cells := cells[0 := blank];
      assert cells[k..][0] == cells[k];
    }
  }

  lemma LineSizes(cols: nat, rows: nat, cy: nat, n: nat, k: nat, m: nat)
    requires OnCursorRow(cols, rows, cy, n, k, m)
    ensures 0 < k <= Area(cols, rows) && 0 <= Area(cols, cy) && Area(cols, cy) + m <= Area(cols, rows)
    ensures cy == 0 ==> m == k
    ensures cy > 0 ==> Area(cols, cy) > 0
  {
    var some := Min(n, rows - cy);
    Times(Min(n, rows), rows, cols);
    Times(1, Min(n, rows), cols);
    AreaAdds(cols, cy, some);
    Times(cy + some, rows, cols);
    assert Area(cols, 1) == Area(cols, 0) + cols;
    if cy > 0 {
      Times(1, cy, cols);
    }
  }

  lemma {:induction false} AreaAdds(cols: nat, a: nat, b: nat)
    ensures Area(cols, a + b) == Area(cols, a) + Area(cols, b)
    decreases b
  {
    if b > 0 {
      AreaAdds(cols, a, b - 1);
    }
  }

  lemma {:induction false} Times(a: nat, b: nat, cols: nat)
    requires a <= b
    ensures Area(cols, a) <= Area(cols, b)
    decreases b
  {
    if a < b {
      Times(a, b - 1, cols);
    }
  }

  /** Deleting what was inserted gives the row back, but for what was pushed off its end. */
  lemma InsertThenDelete(row: seq<Cell>, cx: nat, n: nat, blank: Cell)
    requires cx + n <= |row|
    ensures Deleted(Inserted(row, cx, n, blank), cx, n, blank) == row[..|row| - n] + Fill(n, blank)
  {
  }

  // ---- A whole stretch of text ----------------------------------------------

  predicate Prints(c: char) {
    c != '\n' && c != '\r' && c != '\t' && c != 8 as char && c != ESC
  }

  predicate Printable(text: string) {
    forall i :: 0 <= i < |text| ==> Prints(text[i])
  }

  function Inks(pen: Pen, text: string): (r: seq<Cell>)
    ensures |r| == |text|
  {
    seq(|text|, i requires 0 <= i < |text| => Inked(pen, text[i]))
  }

  /** What a screen shows of `all`, written row after row from its top, when `off` cells of it are lost:
      all of it over what the screen showed before, or its end followed by blanks. */
  function Window(under: seq<Cell>, all: seq<Cell>, off: nat, blank: Cell): (r: seq<Cell>)
    requires off <= |all| <= off + |under|
    ensures |r| == |under|
  {
    if off == 0 then all + under[|all|..] else all[off..] + Fill(|under| - (|all| - off), blank)
  }

  /** `all` has been written, and its first `lost` rows are lost, of `off` cells; the cursor is where it ends. */
  ghost predicate Shows(t: Term, under: seq<Cell>, all: seq<Cell>, lost: nat, off: nat) {
    && Sound(t) && |under| == Area(t.cols, t.rows) && off == Area(t.cols, lost) && (lost > 0 ==> t.cy == t.rows - 1)
    && |all| == off + Area(t.cols, t.cy) + t.cx && off <= |all| <= off + |under|
    && t.cells == Window(under, all, off, Blank(t.pen))
  }

  /** Printable text of any length: the screen shows the end of it, and only whole rows are lost off the top. */
  lemma {:induction false} TextShows(t: Term, text: string) returns (lost: nat, off: nat)
    requires Sound(t) && !t.parser.escape && Printable(text)
    ensures 0 <= Area(t.cols, t.cy) + t.cx <= |t.cells|
    ensures Shows(Run(t, text), t.cells, t.cells[..Area(t.cols, t.cy) + t.cx] + Inks(t.pen, text), lost, off)
    ensures Run(t, text).pen == t.pen && Run(t, text).parser == t.parser
    decreases |text|
  {
    RowFits(t.cols, t.rows, t.cy);
    var at := Area(t.cols, t.cy) + t.cx;
    if text == "" {
      lost, off := 0, 0;
      assert t.cells[..at] + Inks(t.pen, text) == t.cells[..at];
    } else {
      var n := |text| - 1;
      lost, off := TextShows(t, text[..n]);
      var all := t.cells[..at] + Inks(t.pen, text[..n]);
      assert t.cells[..at] + Inks(t.pen, text) == all + [Inked(t.pen, text[n])];
      lost, off := CharShows(Run(t, text[..n]), t.cells, all, lost, off, text[n]);
    }
  }

  /** One more printable character. */
  lemma CharShows(t: Term, under: seq<Cell>, all: seq<Cell>, lost: nat, off: nat, c: char)
    returns (lost': nat, off': nat)
    requires Shows(t, under, all, lost, off) && !t.parser.escape && Prints(c)
    ensures Shows(Put(t, c), under, all + [Inked(t.pen, c)], lost', off')
    ensures Put(t, c).pen == t.pen && Put(t, c).parser == t.parser
  {
    RowFits(t.cols, t.rows, t.cy);
    var ink := Inked(t.pen, c);
    var at := Area(t.cols, t.cy) + t.cx;
    InkShows(under, all, off, Blank(t.pen), ink);
    var mid := t.(cells := t.cells[at := ink], cx := t.cx + 1);
    assert Plain(t, c) == mid;
    lost', off' := SettleShows(mid, under, all + [ink], lost, off);
  }

  lemma InkShows(under: seq<Cell>, all: seq<Cell>, off: nat, blank: Cell, ink: Cell)
    requires off <= |all| < off + |under|
    ensures Window(under, all, off, blank)[|all| - off := ink] == Window(under, all + [ink], off, blank)
  {
  }

  lemma SettleShows(t: Term, under: seq<Cell>, all: seq<Cell>, lost: nat, off: nat) returns (lost': nat, off': nat)
    requires Loose(t) && t.cy < t.rows && |under| == Area(t.cols, t.rows) && off == Area(t.cols, lost)
    requires lost > 0 ==> t.cy == t.rows - 1
    requires |all| == off + Area(t.cols, t.cy) + t.cx && off <= |all| <= off + |under|
    requires t.cells == Window(under, all, off, Blank(t.pen))
    ensures Shows(Settle(t), under, all, lost', off')
    ensures Settle(t).pen == t.pen && Settle(t).parser == t.parser
  {
    lost', off' := lost, off;
    RowFits(t.cols, t.rows, t.cy);
    if t.cx == t.cols {
      assert Area(t.cols, t.cy + 1) == Area(t.cols, t.cy) + t.cols;
      if t.cy + 1 == t.rows {
        lost', off' := lost + 1, off + t.cols;
        assert off' == Area(t.cols, lost');
        assert Area(t.cols, 1) == Area(t.cols, 0) + t.cols;
        assert Lines(t.cols, t.rows, 1) == t.cols;
        Scrolls(t.cells, t.cols, under, all, off, Blank(t.pen));
      }
    }
  }

  /** Scrolling a full window moves it one row on. */
  lemma Scrolls(cells: seq<Cell>, cols: nat, under: seq<Cell>, all: seq<Cell>, off: nat, blank: Cell)
    requires 0 < cols <= |under| && |all| == off + |under| && cells == Window(under, all, off, blank)
    ensures Up(cells, cols, blank) == Window(under, all, off + cols, blank)
  {
    assert cells == all[off..];
    assert cells[cols..] == all[off + cols..];
  }
}
