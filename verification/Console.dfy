/** The framebuffer console: the shadow cells, the pixels and the parser, changed in place character by character. */
module Console {
  import opened Terminal
  import Memory

  const FONT_SIZE := 8
  const MAX_CELLS := 256 * 128

  type Font = seq<seq<bv8>>

  predicate FontOk(font: Font) {
    |font| == 95 && (forall i :: 0 <= i < 95 ==> |font[i]| == FONT_SIZE) && forall r :: 0 <= r < 8 ==> font[0][r] == 0
  }

  /** Pixel `r`, `k` of a drawn cell; what the font lacks is drawn as a space. */
  function Ink(font: Font, cell: Cell, r: nat, k: nat): Color
    requires FontOk(font) && r < 8 && k < 8
  {
    var glyph := if cell.ch < ' ' || cell.ch > '~' then 0 else (cell.ch - ' ') as int;
    if (font[glyph][r] >> (7 - k)) & 1 != 0 then cell.fg else cell.bg
  }

  /** The pixel that a screen of `cells` has at `y`, `x`. */
  function PixelOf(font: Font, cells: seq<Cell>, cols: nat, y: nat, x: nat): Color
    requires FontOk(font)
  {
    var i := Area(cols, y / 8) + x / 8;
    if i < |cells| then Ink(font, cells[i], y % 8, x % 8) else 0
  }

  /** Changing one cell changes its own pixels only. */
  lemma OneCell(font: Font, cells: seq<Cell>, cols: nat, row: nat, col: nat, cell: Cell, y: nat, x: nat)
    requires FontOk(font) && col < cols && x / 8 < cols && Area(cols, row) + col < |cells|
    ensures PixelOf(font, cells[Area(cols, row) + col := cell], cols, y, x)
      == if y / 8 == row && x / 8 == col then Ink(font, cell, y % 8, x % 8) else PixelOf(font, cells, cols, y, x)
  {
    if Area(cols, y / 8) + x / 8 == Area(cols, row) + col {
      SamePlace(cols, y / 8, x / 8, row, col);
    }
  }

  lemma Eighths(y: nat, row: nat)
    ensures row * 8 <= y < row * 8 + 8 <==> y / 8 == row
    ensures y / 8 == row ==> y % 8 == y - row * 8
  {
  }

  lemma SamePlace(cols: nat, a: nat, b: nat, row: nat, col: nat)
    requires b < cols && col < cols && Area(cols, a) + b == Area(cols, row) + col
    ensures a == row && b == col
  {
    if a < row {
      RowFits(cols, row, a);
    } else if row < a {
      RowFits(cols, a, row);
    }
  }

  class Screen {
    const font: Font
    const cols: nat
    const rows: nat
    const pixels: array2<Color>
    const screen: array<Cell>
    var cx: nat
    var cy: nat
    var pen: Pen
    var visible: bool
    var parser: Parser
    ghost var drawn: seq<Cell>

    ghost predicate Shape() {
      && FontOk(font) && 0 < cols && 0 < rows && screen.Length == Area(cols, rows) <= MAX_CELLS
      && rows * 8 <= pixels.Length0 && cols * 8 <= pixels.Length1
    }

    /** Every pixel is the one of the cell drawn over it. */
    ghost predicate Canvas()
      reads this`drawn, pixels
    {
      && Shape() && |drawn| == Area(cols, rows)
      && forall y, x :: 0 <= y < rows * 8 && 0 <= x < cols * 8 ==> pixels[y, x] == PixelOf(font, drawn, cols, y, x)
    }

    /** What is drawn is what the shadow cells say. */
    ghost predicate Mirrors()
      reads this`drawn, pixels, screen
    {
      Canvas() && drawn == screen[..]
    }

    ghost predicate Valid()
      reads this, pixels, screen
    {
      Mirrors() && Sound(State())
    }

    ghost function State(): Term
      reads this, screen
    {
      Term(cols, rows, screen[..], cx, cy, pen, visible, parser)
    }

    constructor (font: Font, width: nat, height: nat)
      requires FontOk(font) && 8 <= width && 8 <= height && Area(width / 8, height / 8) <= MAX_CELLS
      ensures Valid() && fresh(pixels) && fresh(screen) && pixels.Length0 == height && pixels.Length1 == width
      ensures State() == Term(width / 8, height / 8, Fill(Area(width / 8, height / 8), Blank(pen)), 0, 0,
                              Pen(COLORS[7], COLORS[0], false, false), true, IDLE)
    {
      this.font := font;
      cols, rows := width / 8, height / 8;
      var first := Pen(COLORS[7], COLORS[0], false, false);
      cx, cy, pen, visible, parser := 0, 0, first, true, IDLE;
      var count := Area(width / 8, height / 8);
      screen := new Cell[count](_ => Blank(first));
      pixels := new Color[height, width]((_, _) => COLORS[0]);
      drawn := Fill(count, Blank(first));
      new;
      assert screen[..] == drawn;
      forall y, x | 0 <= y < rows * 8 && 0 <= x < cols * 8
        ensures pixels[y, x] == PixelOf(font, drawn, cols, y, x)
      {
        BlankPixel(font, drawn, cols, rows, Blank(first), y, x);
      }
    }

    method DrawCharAt(col: nat, row: nat, cell: Cell)
      requires Canvas() && col < cols && row < rows
      modifies pixels, this`drawn
      ensures Area(cols, row) + col < Area(cols, rows)
      ensures Canvas() && drawn == old(drawn)[Area(cols, row) + col := cell]
    {
      RowFits(cols, rows, row);
      PaintBlock(col * 8, row * 8, cell);
      drawn := drawn[Area(cols, row) + col := cell];
      forall y, x | 0 <= y < rows * 8 && 0 <= x < cols * 8
        ensures pixels[y, x] == PixelOf(font, drawn, cols, y, x)
      {
        Eighths(y, row);
        Eighths(x, col);
        OneCell(font, old(drawn), cols, row, col, cell, y, x);
      }
    }

    method PaintBlock(px: nat, py: nat, cell: Cell)
      requires FontOk(font)
      modifies pixels
      ensures forall y, x :: 0 <= y < pixels.Length0 && 0 <= x < pixels.Length1 ==>
        pixels[y, x] == if py <= y < py + 8 && px <= x < px + 8 then Ink(font, cell, y - py, x - px) else old(pixels[y, x])
    {
      var r := 0;
      while r < 8
        invariant r <= 8
        invariant forall y, x :: 0 <= y < pixels.Length0 && 0 <= x < pixels.Length1 ==>
          pixels[y, x] == if py <= y < py + r && px <= x < px + 8 then Ink(font, cell, y - py, x - px) else old(pixels[y, x])
      {
        PaintLine(px, py, cell, r);
        r := r + 1;
      }
    }

    method PaintLine(px: nat, py: nat, cell: Cell, r: nat)
      requires FontOk(font) && r < 8
      modifies pixels
      ensures forall y, x :: 0 <= y < pixels.Length0 && 0 <= x < pixels.Length1 ==>
        pixels[y, x] == if y == py + r && px <= x < px + 8 then Ink(font, cell, r, x - px) else old(pixels[y, x])
    {
      var k := 0;
      while k < 8
        invariant k <= 8
        invariant forall y, x :: 0 <= y < pixels.Length0 && 0 <= x < pixels.Length1 ==>
          pixels[y, x] == if y == py + r && px <= x < px + k then Ink(font, cell, r, x - px) else old(pixels[y, x])
      {
        if px + k < pixels.Length1 && py + r < pixels.Length0 {
          pixels[py + r, px + k] := Ink(font, cell, r, k);
        }
        k := k + 1;
      }
    }

    method SetCell(col: nat, row: nat, cell: Cell)
      requires Mirrors() && col < cols && row < rows
      modifies pixels, screen, this`drawn
      ensures Area(cols, row) + col < Area(cols, rows)
      ensures Mirrors() && drawn == old(drawn)[Area(cols, row) + col := cell]
    {
      RowFits(cols, rows, row);
      screen[Area(cols, row) + col] := cell;
      DrawCharAt(col, row, cell);
    }

    /** Cells of one row, one after another. */
    method SetCells(row: nat, from: nat, to: nat, cell: Cell)
      requires Mirrors() && from <= to <= cols && row < rows
      modifies pixels, screen, this`drawn
      ensures Area(cols, row) + to <= Area(cols, rows)
      ensures Mirrors() && drawn == Over(old(drawn), Area(cols, row) + from, Area(cols, row) + to, cell)
    {
      RowFits(cols, rows, row);
      ghost var was, base := drawn, Area(cols, row);
      var c := from;
      assert Over(was, base + from, base + from, cell) == was;
      while c < to
        invariant from <= c <= to && Mirrors()
        invariant drawn == Over(was, base + from, base + c, cell)
      {
        SetCell(c, row, cell);
        c := c + 1;
        assert drawn == Over(was, base + from, base + c, cell);
      }
    }

    /** Whole rows, one after another. */
    method SetRows(from: nat, to: nat, cell: Cell)
      requires Mirrors() && from <= to <= rows
      modifies pixels, screen, this`drawn
      ensures Area(cols, from) <= Area(cols, to) <= Area(cols, rows)
      ensures Mirrors() && drawn == Over(old(drawn), Area(cols, from), Area(cols, to), cell)
    {
      ghost var was := drawn;
      var r := from;
      ghost var first, at := Area(cols, from), Area(cols, from);
      Times(from, rows, cols);
      OverNone(was, first, cell);
      while r < to
        invariant from <= r <= to && Mirrors() && at == Area(cols, r) && 0 <= first <= at <= Area(cols, rows)
        invariant drawn == Over(was, first, at, cell)
      {
        RowFits(cols, rows, r);
        SetCells(r, 0, cols, cell);
        OverOver(was, first, at, at + cols, cell);
        assert Area(cols, r + 1) == at + cols;
        r, at := r + 1, at + cols;
      }
    }

    method RedrawCell(col: nat, row: nat)
      requires Canvas() && col < cols && row < rows
      modifies pixels, this`drawn
      ensures Area(cols, row) + col < Area(cols, rows)
      ensures Canvas() && drawn == old(drawn)[Area(cols, row) + col := screen[Area(cols, row) + col]]
    {
      RowFits(cols, rows, row);
      DrawCharAt(col, row, screen[Area(cols, row) + col]);
    }

    /** Draw again what the shadow cells say, whatever was drawn. */
    method RedrawAll()
      requires Canvas()
      modifies pixels, this`drawn
      ensures Mirrors()
    {
      var r := 0;
      while r < rows
        invariant r <= rows && Canvas() && 0 <= Area(cols, r) <= Area(cols, rows)
        invariant forall i :: 0 <= i < Area(cols, r) ==> drawn[i] == screen[i]
      {
        RowFits(cols, rows, r);
        RedrawRow(r);
        assert Area(cols, r + 1) == Area(cols, r) + cols;
        r := r + 1;
      }
      assert drawn == screen[..];
    }

    method RedrawRow(row: nat)
      requires Canvas() && row < rows && Area(cols, row) + cols <= Area(cols, rows)
      modifies pixels, this`drawn
      ensures Canvas()
      ensures forall i :: 0 <= i < Area(cols, rows) ==>
        drawn[i] == if Area(cols, row) <= i < Area(cols, row) + cols then screen[i] else old(drawn[i])
    {
      var c := 0;
      while c < cols
        invariant c <= cols && Canvas()
        invariant forall i :: 0 <= i < Area(cols, rows) ==>
          drawn[i] == if Area(cols, row) <= i < Area(cols, row) + c then screen[i] else old(drawn[i])
      {
        RedrawCell(c, row);
        c := c + 1;
      }
    }

    method ScrollUp()
      requires Mirrors()
      modifies pixels, screen, this`drawn
      ensures cols <= Area(cols, rows)
      ensures Mirrors() && drawn == Up(old(drawn), cols, Blank(pen))
    {
      RowFits(cols, rows, 0);
      var rest := Area(cols, rows - 1);
      assert rest + cols == Area(cols, rows);
      Memory.Memmove(screen, 0, cols, rest);
      ghost var moved := screen[..];
      FillScreen(rest, cols, Blank(pen));
      ScrolledUp(old(screen[..]), moved, cols, rest, Blank(pen));
      RedrawAll();
    }

    method ScrollDown()
      requires Mirrors()
      modifies pixels, screen, this`drawn
      ensures cols <= Area(cols, rows)
      ensures Mirrors() && drawn == Down(old(drawn), cols, Blank(pen))
    {
      RowFits(cols, rows, 0);
      var rest := Area(cols, rows - 1);
      assert rest + cols == Area(cols, rows);
      Memory.Memmove(screen, cols, 0, rest);
      ghost var moved := screen[..];
      FillScreen(0, cols, Blank(pen));
      ScrolledDown(old(screen[..]), moved, cols, rest, Blank(pen));
      RedrawAll();
    }

    method FillScreen(from: nat, n: nat, cell: Cell)
      requires from + n <= screen.Length
      modifies screen
      ensures screen[..] == Over(old(screen[..]), from, from + n, cell)
    {
      var c := 0;
      while c < n
        invariant c <= n
        invariant forall i :: 0 <= i < screen.Length ==>
          screen[i] == if from <= i < from + c then cell else old(screen[i])
      {
        screen[from + c] := cell;
        c := c + 1;
      }
    }

    method ScrollUpBy(n: nat)
      requires Mirrors()
      modifies pixels, screen, this`drawn
      ensures Mirrors() && drawn == Up(old(drawn), Lines(cols, rows, n), Blank(pen))
    {
      var i := 0;
      ghost var was, k := drawn, 0;
      while i < n
        invariant i <= n && Mirrors() && k == Area(cols, Min(i, rows)) <= |was| == Area(cols, rows)
        invariant drawn == Up(was, k, Blank(pen))
      {
        ScrollUp();
        ghost var next := NextLine(cols, rows, i, k);
        UpUp(was, k, cols, next, Blank(pen));
        i, k := i + 1, next;
      }
    }

    method ScrollDownBy(n: nat)
      requires Mirrors()
      modifies pixels, screen, this`drawn
      ensures Mirrors() && drawn == Down(old(drawn), Lines(cols, rows, n), Blank(pen))
    {
      var i := 0;
      ghost var was, k := drawn, 0;
      while i < n
        invariant i <= n && Mirrors() && k == Area(cols, Min(i, rows)) <= |was| == Area(cols, rows)
        invariant drawn == Down(was, k, Blank(pen))
      {
        ScrollDown();
        ghost var next := NextLine(cols, rows, i, k);
        DownDown(was, k, cols, next, Blank(pen));
        i, k := i + 1, next;
      }
    }

    method PullCell(c: nat, base: nat, n: nat, ghost was: seq<Cell>)
      requires Mirrors() && cx <= c && c + n < cols && cy < rows && base == Area(cols, cy) && base + cols <= |was|
      requires Pulled(was, drawn, base + cx, base + c, n)
      modifies pixels, screen, this`drawn
      ensures Mirrors() && Pulled(was, drawn, base + cx, base + c + 1, n)
    {
      PulledStep(was, drawn, base + cx, base + c, n);
      SetCell(c, cy, screen[base + c + n]);
    }

    method PushCell(c: nat, base: nat, n: nat, ghost was: seq<Cell>)
      requires Mirrors() && n <= c < cols && cy < rows && base == Area(cols, cy) && base + cols <= |was|
      requires Pushed(was, drawn, base + c + 1, base + cols, n)
      modifies pixels, screen, this`drawn
      ensures Mirrors() && Pushed(was, drawn, base + c, base + cols, n)
    {
      PushedStep(was, drawn, base + c, base + cols, n);
      SetCell(c, cy, screen[base + c - n]);
    }

    method PullRow(base: nat, n: nat) returns (c: nat)
      requires Valid() && base == Area(cols, cy) && base + cols <= screen.Length
      modifies pixels, screen, this`drawn
      ensures Mirrors() && cx <= c <= cols <= c + n && (c == cx || c + n <= cols)
      ensures Pulled(old(drawn), drawn, base + cx, base + c, n)
    {
      c := cx;
      while c + n < cols
        invariant cx <= c <= cols && (c == cx || c + n <= cols) && Mirrors()
        invariant Pulled(old(drawn), drawn, base + cx, base + c, n)
        decreases cols - c
      {
        PullCell(c, base, n, old(drawn));
        c := c + 1;
      }
    }

    method PushRow(base: nat, n: nat) returns (c: int)
      requires Valid() && base == Area(cols, cy) && base + cols <= screen.Length
      modifies pixels, screen, this`drawn
      ensures Mirrors() && cx - 1 <= c < cols && c < cx + n && (c == cols - 1 || c + 1 >= cx + n)
      ensures Pushed(old(drawn), drawn, base + c + 1, base + cols, n)
    {
      c := cols - 1;
      while c >= cx + n
        invariant cx - 1 <= c < cols && Mirrors() && (c == cols - 1 || c + 1 >= cx + n)
        invariant Pushed(old(drawn), drawn, base + c + 1, base + cols, n)
      {
        PushCell(c, base, n, old(drawn));
        c := c - 1;
      }
    }

    method DeleteChars(n: nat, base: nat)
      requires Valid() && base == Area(cols, cy) && base + cols <= screen.Length
      modifies pixels, screen, this`drawn
      ensures Mirrors() && drawn == DeletedIn(old(drawn), base, cols, cx, n, Blank(pen))
    {
      var c := PullRow(base, n);
      BlankTail(base, c, n, old(drawn));
    }

    /** The last `n` columns, unless `n` is past the row's start: the unsigned difference is then beyond its end. */
    method BlankTail(ghost base: nat, ghost c: nat, n: nat, ghost was: seq<Cell>)
      requires Mirrors() && cx < cols && cy < rows && base == Area(cols, cy) && base + cols <= |was|
      requires cx <= c <= cols <= c + n && (c == cx || c + n <= cols) && Pulled(was, drawn, base + cx, base + c, n)
      modifies pixels, screen, this`drawn
      ensures Mirrors() && drawn == DeletedIn(was, base, cols, cx, n, Blank(pen))
    {
      ghost var now := drawn;
      if n <= cols {
        SetCells(cy, cols - n, cols, Blank(pen));
      }
      DeletedRow(was, now, drawn, base, cols, cx, c, n, Blank(pen));
    }

    method InsertChars(n: nat, base: nat)
      requires Valid() && base == Area(cols, cy) && base + cols <= screen.Length
      modifies pixels, screen, this`drawn
      ensures Mirrors() && drawn == InsertedIn(old(drawn), base, cols, cx, n, Blank(pen))
    {
      var c := PushRow(base, n);
      BlankGap(base, c, n, old(drawn));
    }

    method BlankGap(ghost base: nat, ghost c: int, n: nat, ghost was: seq<Cell>)
      requires Mirrors() && cx < cols && cy < rows && base == Area(cols, cy) && base + cols <= |was|
      requires cx - 1 <= c < cols && c < cx + n && (c == cols - 1 || c + 1 >= cx + n)
      requires Pushed(was, drawn, base + c + 1, base + cols, n)
      modifies pixels, screen, this`drawn
      ensures Mirrors() && drawn == InsertedIn(was, base, cols, cx, n, Blank(pen))
    {
      ghost var now := drawn;
      SetCells(cy, cx, Min(cx + n, cols), Blank(pen));
      InsertedRow(was, now, drawn, base, cols, cx, c, n, Blank(pen));
    }

    // ---- Commands ---------------------------------------------------------

    method MoveCursor(cmd: char)
      requires Valid() && Moves(cmd)
      modifies this`cx, this`cy
      ensures cx == Move(old(State()), cmd).cx && cy == Move(old(State()), cmd).cy
    {
      var n := Param(parser, 0, 1);
      if cmd == 'A' {
        cy := if cy >= n then cy - n else 0;
      } else if cmd == 'B' {
        cy := if cy + n < rows then cy + n else rows - 1;
      } else if cmd == 'C' {
        cx := if cx + n < cols then cx + n else cols - 1;
      } else if cmd == 'D' {
        cx := if cx >= n then cx - n else 0;
      } else if cmd == 'G' {
        cx := n - 1;
        if cx >= cols {
          cx := cols - 1;
        }
      } else if cmd == 'd' {
        cy := n - 1;
        if cy >= rows {
          cy := rows - 1;
        }
      } else {
        cy, cx := n - 1, Param(parser, 1, 1) - 1;
        if cy >= rows {
          cy := rows - 1;
        }
        if cx >= cols {
          cx := cols - 1;
        }
      }
    }

    /** The stretch an erase command blanks, row by row and cell by cell. */
    method EraseCells(cmd: char)
      requires Valid() && Erases(cmd)
      modifies pixels, screen, this`drawn, this`cx, this`cy
      ensures Mirrors() && drawn == Erase(old(State()), cmd).cells
      ensures cx == Erase(old(State()), cmd).cx && cy == Erase(old(State()), cmd).cy
    {
      RowFits(cols, rows, cy);
      if cmd == 'J' {
        EraseDisplay();
      } else if cmd == 'K' {
        EraseLine();
      } else {
        SetCells(cy, cx, cx + Min(Param(parser, 0, 1), cols - cx), Blank(pen));
      }
    }

    method EraseDisplay()
      requires Valid()
      modifies pixels, screen, this`drawn, this`cx, this`cy
      ensures Mirrors() && drawn == Erase(old(State()), 'J').cells
      ensures cx == Erase(old(State()), 'J').cx && cy == Erase(old(State()), 'J').cy
    {
      var what := Param(parser, 0, 0);
      RowFits(cols, rows, cy);
      if what == 0 {
        EraseAfter(Area(cols, cy), Blank(pen));
      } else if what == 1 {
        EraseBefore(Area(cols, cy), Blank(pen));
      } else if what == 2 {
        SetRows(0, rows, Blank(pen));
        cx, cy := 0, 0;
      } else {
        OverNone(drawn, 0, Blank(pen));
      }
    }

    method EraseLine()
      requires Valid()
      modifies pixels, screen, this`drawn
      ensures Mirrors() && drawn == Erase(old(State()), 'K').cells
    {
      var what := Param(parser, 0, 0);
      ghost var stretch := Stretch(State(), 'K');
      ghost var goal := Over(drawn, stretch.0, stretch.1, Blank(pen));
      RowFits(cols, rows, cy);
      if what == 0 {
        SetCells(cy, cx, cols, Blank(pen));
        assert drawn == goal;
      } else if what == 1 {
        SetCells(cy, 0, cx + 1, Blank(pen));
        assert drawn == goal;
      } else if what == 2 {
        SetCells(cy, 0, cols, Blank(pen));
        assert drawn == goal;
      } else {
        OverNone(drawn, 0, Blank(pen));
      }
    }

    method EraseAfter(ghost row: nat, blank: Cell)
      requires Valid() && row == Area(cols, cy) && row + cols <= screen.Length
      modifies pixels, screen, this`drawn
      ensures Mirrors() && drawn == Over(old(drawn), row + cx, screen.Length, blank)
    {
      ghost var was, from := drawn, row + cx;
      SetCells(cy, cx, cols, blank);
      EraseBelow(was, from, row + cols, blank);
    }

    method EraseBelow(ghost was: seq<Cell>, ghost from: nat, ghost end: nat, blank: Cell)
      requires Mirrors() && cy < rows && end == Area(cols, cy + 1) && from <= end <= |was| == screen.Length
      requires drawn == Over(was, from, end, blank)
      modifies pixels, screen, this`drawn
      ensures Mirrors() && drawn == Over(was, from, |was|, blank)
    {
      SetRows(cy + 1, rows, blank);
      OverOver(was, from, end, |was|, blank);
    }

    method EraseBefore(ghost row: nat, blank: Cell)
      requires Valid() && row == Area(cols, cy) && row + cols <= screen.Length
      modifies pixels, screen, this`drawn
      ensures Mirrors() && drawn == Over(old(drawn), 0, row + cx + 1, blank)
    {
      ghost var was := drawn;
      SetRows(0, cy, blank);
      EraseUpTo(was, row, blank);
    }

    method EraseUpTo(ghost was: seq<Cell>, ghost row: nat, blank: Cell)
      requires Mirrors() && cx < cols && cy < rows && row == Area(cols, cy) && row + cols <= |was| == screen.Length
      requires drawn == Over(was, 0, row, blank)
      modifies pixels, screen, this`drawn
      ensures Mirrors() && drawn == Over(was, 0, row + cx + 1, blank)
    {
      SetCells(cy, 0, cx + 1, blank);
      OverOver(was, 0, row, row + cx + 1, blank);
    }

    method ShiftCells(cmd: char)
      requires Valid() && Shifts(cmd)
      modifies pixels, screen, this`drawn
      ensures Mirrors() && drawn == Shift(old(State()), cmd).cells
    {
      var n := Param(parser, 0, 1);
      if cmd == 'L' || cmd == 'T' {
        ScrollDownBy(n);
      } else if cmd == 'M' || cmd == 'S' {
        ScrollUpBy(n);
      } else {
        RowFits(cols, rows, cy);
        if cmd == 'P' {
          DeleteChars(n, Area(cols, cy));
        } else {
          InsertChars(n, Area(cols, cy));
        }
      }
    }

    method SelectGraphics()
      requires Valid()
      modifies this`pen
      ensures Valid() && State() == Command(old(State()), 'm')
    {
      if parser.count == 0 {
        pen := Select(pen, 0);
      } else {
        var i := 0;
        while i < parser.count
          invariant i <= parser.count && Valid()
          invariant State() == old(State()).(pen := SelectAll(old(pen), parser.params[..i]))
        {
          assert parser.params[..i + 1][..i] == parser.params[..i];
          pen := Select(pen, parser.params[i]);
          i := i + 1;
        }
      }
    }

    method FinishCsi(cmd: char)
      requires Valid()
      modifies this, pixels, screen
      ensures Valid() && State() == Command(old(State()), cmd).(parser := IDLE)
    {
      if Moves(cmd) {
        MoveCursor(cmd);
      } else if Erases(cmd) {
        EraseCells(cmd);
      } else if Shifts(cmd) {
        ShiftCells(cmd);
      } else if cmd == 'm' {
        SelectGraphics();
      } else if cmd == 'h' || cmd == 'l' {
        if parser.question && Param(parser, 0, 0) == 25 {
          visible := cmd == 'h';
        }
      }
      parser := IDLE;
    }

    method PutPlain(c: char)
      requires Valid()
      modifies pixels, screen, this`drawn, this`cx, this`cy
      ensures Mirrors() && State() == Plain(old(State()), c)
    {
      RowFits(cols, rows, cy);
      if c == '\n' {
        cx, cy := 0, cy + 1;
      } else if c == '\r' {
        cx := 0;
      } else if c == 8 as char {
        if cx > 0 {
          cx := cx - 1;
        }
      } else if c == '\t' {
        var stop := Min((cx / 8 + 1) * 8, cols);
        SetCells(cy, cx, stop, Inked(pen, ' '));
        cx := stop;
      } else {
        SetCell(cx, cy, Inked(pen, c));
        cx := cx + 1;
      }
    }

    method SettleLine()
      requires Mirrors() && Loose(State())
      modifies pixels, screen, this`drawn, this`cx, this`cy
      ensures Valid() && State() == Settle(old(State()))
    {
      if cx >= cols {
        cx, cy := 0, cy + 1;
      }
      if cy >= rows {
        ScrollUp();
        assert Lines(cols, rows, 1) == Area(cols, 1) == Area(cols, 0) + cols;
        cy := rows - 1;
      }
    }

    /** One character: the terminal takes its step, and the pixels still show the shadow cells. */
    method PutChar(c: char)
      requires Valid()
      modifies this, pixels, screen
      ensures Valid() && State() == Put(old(State()), c)
    {
      if parser.escape {
        if parser.csi {
          if '0' <= c <= '9' {
            parser := Digit(parser, c);
          } else if c == ';' {
            if parser.count < MAX_PARAMS {
              parser := parser.(count := parser.count + 1);
            }
          } else if c == '?' {
            parser := parser.(question := true);
          } else {
            FinishCsi(c);
          }
        } else if c == '[' {
          parser := Parser(true, true, false, IDLE.params, 0);
        } else {
          parser := IDLE;
        }
      } else if c == ESC {
        parser := parser.(escape := true, csi := false);
      } else {
        PutPlain(c);
        SettleLine();
      }
    }

    /** A stream of characters. */
    method Write(text: string)
      requires Valid()
      modifies this, pixels, screen
      ensures Valid() && State() == Run(old(State()), text)
    {
      var i := 0;
      assert text[..0] == "";
      while i < |text|
        invariant i <= |text| && Valid() && State() == Run(old(State()), text[..i])
      {
        assert text[..i + 1][..i] == text[..i];
        PutChar(text[i]);
        i := i + 1;
      }
      assert text[..i] == text;
    }
  }

  /** Lines scrolled so far and after one more, in cells. */
  lemma NextLine(cols: nat, rows: nat, i: nat, k: nat) returns (next: nat)
    requires 0 < rows && k == Area(cols, Min(i, rows))
    ensures next == Area(cols, Min(i + 1, rows)) <= Area(cols, rows) && cols <= Area(cols, rows)
    ensures if i < rows then next == k + cols else next == k == Area(cols, rows)
  {
    RowFits(cols, rows, 0);
    next := Area(cols, Min(i + 1, rows));
    if i < rows {
      RowFits(cols, rows, i);
      assert Area(cols, i + 1) == Area(cols, i) + cols;
    }
  }

  lemma UpUp(cells: seq<Cell>, k: nat, cols: nat, next: nat, blank: Cell)
    requires k <= |cells| && cols <= |cells| && next <= |cells| && (next == k + cols || next == k == |cells|)
    ensures Up(Up(cells, k, blank), cols, blank) == Up(cells, next, blank)
  {
  }

  lemma DownDown(cells: seq<Cell>, k: nat, cols: nat, next: nat, blank: Cell)
    requires k <= |cells| && cols <= |cells| && next <= |cells| && (next == k + cols || next == k == |cells|)
    ensures Down(Down(cells, k, blank), cols, blank) == Down(cells, next, blank)
  {
  }

  /** Cells `lo` up to `hi` come from `n` places further on, or further back. */
  ghost predicate Pulled(was: seq<Cell>, now: seq<Cell>, lo: nat, hi: nat, n: nat) {
    && |now| == |was| && (lo < hi ==> hi + n <= |was|)
    && forall i :: 0 <= i < |was| ==> now[i] == was[if lo <= i < hi then i + n else i]
  }

  ghost predicate Pushed(was: seq<Cell>, now: seq<Cell>, lo: nat, hi: nat, n: nat) {
    && |now| == |was| && (lo < hi ==> n <= lo)
    && forall i :: 0 <= i < |was| ==> now[i] == was[if lo <= i < hi then i - n else i]
  }

  lemma PulledStep(was: seq<Cell>, now: seq<Cell>, lo: nat, hi: nat, n: nat)
    requires Pulled(was, now, lo, hi, n) && lo <= hi && hi + n < |was|
    ensures Pulled(was, now[hi := now[hi + n]], lo, hi + 1, n)
  {
  }

  lemma PushedStep(was: seq<Cell>, now: seq<Cell>, lo: nat, hi: nat, n: nat)
    requires Pushed(was, now, lo + 1, hi, n) && n <= lo < hi && lo < |was|
    ensures Pushed(was, now[lo := now[lo - n]], lo, hi, n)
  {
  }

  lemma DeletedRow(was: seq<Cell>, now: seq<Cell>, after: seq<Cell>, base: nat, cols: nat, cx: nat, c: nat, n: nat, blank: Cell)
    requires base + cols <= |was| == |now| && cx < cols && cx <= c <= cols && c + n >= cols && (c == cx || c + n <= cols)
    requires Pulled(was, now, base + cx, base + c, n)
    requires after == if n <= cols then Over(now, base + (cols - n), base + cols, blank) else now
    ensures after == DeletedIn(was, base, cols, cx, n, blank)
  {
    var row := Deleted(was[base..base + cols], cx, n, blank);
    forall i | 0 <= i < |was| ensures WithRow(was, base, row)[i] == after[i] {
      if base <= i < base + cols {
        DeletedCell(was, base, cols, cx, n, blank, i);
      }
    }
  }

  lemma DeletedCell(was: seq<Cell>, base: nat, cols: nat, cx: nat, n: nat, blank: Cell, i: nat)
    requires base + cols <= |was| && cx < cols && base <= i < base + cols
    ensures Deleted(was[base..base + cols], cx, n, blank)[i - base]
      == if n > cols then was[i] else if i >= base + cols - n then blank else if i >= base + cx then was[i + n] else was[i]
  {
    var old0, k := was[base..base + cols], i - base;
    assert old0[k] == was[i];
    if k + n < cols {
      assert old0[k + n] == was[i + n];
    }
  }

  lemma InsertedRow(was: seq<Cell>, now: seq<Cell>, after: seq<Cell>, base: nat, cols: nat, cx: nat, c: int, n: nat, blank: Cell)
    requires base + cols <= |was| == |now| && cx < cols && cx - 1 <= c < cols && c < cx + n && (c == cols - 1 || c + 1 >= cx + n)
    requires Pushed(was, now, base + c + 1, base + cols, n)
    requires after == Over(now, base + cx, base + Min(cx + n, cols), blank)
    ensures after == InsertedIn(was, base, cols, cx, n, blank)
  {
    var row := Inserted(was[base..base + cols], cx, n, blank);
    forall i | 0 <= i < |was| ensures WithRow(was, base, row)[i] == after[i] {
      if base <= i < base + cols {
        var k := i - base;
        assert was[base..base + cols][k] == was[i];
        assert k >= cx + n ==> was[base..base + cols][k - n] == was[i - n];
        assert row[k] == after[i];
      }
    }
  }

  lemma OverNone(cells: seq<Cell>, at: nat, cell: Cell)
    requires at <= |cells|
    ensures Over(cells, at, at, cell) == cells
  {
  }

  lemma OverOver(cells: seq<Cell>, a: nat, b: nat, c: nat, cell: Cell)
    requires a <= b <= c <= |cells|
    ensures Over(Over(cells, a, b, cell), b, c, cell) == Over(cells, a, c, cell)
  {
  }

  lemma ScrolledUp(before: seq<Cell>, moved: seq<Cell>, cols: nat, rest: nat, blank: Cell)
    requires |before| == rest + cols && Memory.Moved(before, moved, 0, cols, rest)
    ensures Over(moved, rest, rest + cols, blank) == Up(before, cols, blank)
  {
  }

  lemma ScrolledDown(before: seq<Cell>, moved: seq<Cell>, cols: nat, rest: nat, blank: Cell)
    requires |before| == rest + cols && Memory.Moved(before, moved, cols, 0, rest)
    ensures Over(moved, 0, cols, blank) == Down(before, cols, blank)
  {
  }

  lemma BlankPixel(font: Font, cells: seq<Cell>, cols: nat, rows: nat, blank: Cell, y: nat, x: nat)
    requires FontOk(font) && blank.ch == ' ' && cells == Fill(Area(cols, rows), blank)
    requires y < rows * 8 && x < cols * 8
    ensures PixelOf(font, cells, cols, y, x) == blank.bg
  {
    RowFits(cols, rows, y / 8);
    assert Ink(font, blank, y % 8, x % 8) == blank.bg;
  }
}
