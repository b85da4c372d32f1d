/**
 * The differential half-block renderer (`_render_frame` of reprodT.py).
 *
 * Pixel rows 2y and 2y+1 become one terminal row of lower-half-block glyphs:
 * the upper pixel is the glyph's foreground, the lower pixel its background.
 * A colour escape is emitted only where the colour (or palette code) differs
 * from the previous column, and a row equal to the cached row of the previous
 * frame is replaced by a cursor-next-line escape.
 *
 * The rendered row is specified as a sequence of pieces (escapes and glyphs);
 * `Tokenize` reads a row string back into its pieces, so statements about the
 * pieces are statements about the string.
 */
module Render {
  import opened Common
  import opened Ansi

  type Row = seq<Rgb>
  type Frame = seq<Row>

  /** U+2584 LOWER HALF BLOCK. */
  const HalfBlock: char := '\U{2584}'

  const Home: string := [Esc] + "[H"
  const NextLine: string := [Esc] + "[E"
  const Reset: string := [Esc] + "[0m"

  function CursorDown(n: nat): string { [Esc] + "[" + Decimal(n) + "B" }

  function CursorColumn(n: nat): string { [Esc] + "[" + Decimal(n) + "G" }

  // ---------------------------------------------------------------------------
  // One terminal row
  // ---------------------------------------------------------------------------

  datatype Piece = Escape(layer: Layer, color: Color) | Glyph

  function PieceText(p: Piece): string
  {
    match p
    case Escape(layer, color) => ColorEscape(layer, color)
    case Glyph => [HalfBlock]
  }

  function Texts(ps: seq<Piece>): seq<string>
  {
    seq(|ps|, i requires 0 <= i < |ps| => PieceText(ps[i]))
  }

  /** The string a sequence of pieces is written as. */
  function Text(ps: seq<Piece>): string
  {
    Join(Texts(ps))
  }

  /** The colour the renderer compares for a pixel: the triple itself, or its palette code. */
  function PixelColor(p: Rgb, truecolor: bool): Color
  {
    if truecolor then TrueColor(p.r, p.g, p.b) else Indexed(Rgb256(p))
  }

  /**
   * Column `x`: a foreground escape when the upper colour differs from
   * column x-1, a background escape when the lower colour does (both always
   * at column 0, since the last colours start out unset), then the glyph.
   */
  function ColumnPieces(top: Row, bot: Row, x: nat, truecolor: bool): seq<Piece>
    requires x < |top| && x < |bot|
  {
    var fg := PixelColor(top[x], truecolor);
    var bg := PixelColor(bot[x], truecolor);
    (if x == 0 || fg != PixelColor(top[x - 1], truecolor) then [Escape(Foreground, fg)] else [])
    + (if x == 0 || bg != PixelColor(bot[x - 1], truecolor) then [Escape(Background, bg)] else [])
    + [Glyph]
  }

  /** The pieces of the first `n` columns. */
  function RowPieces(top: Row, bot: Row, n: nat, truecolor: bool): seq<Piece>
    requires n <= |top| && n <= |bot|
  {
    if n == 0 then [] else RowPieces(top, bot, n - 1, truecolor) + ColumnPieces(top, bot, n - 1, truecolor)
  }

  /** The rendered string of one terminal row of `width` columns. */
  function RowLine(top: Row, bot: Row, width: nat, truecolor: bool): string
    requires width <= |top| && width <= |bot|
  {
    Text(RowPieces(top, bot, width, truecolor))
  }

  // ---------------------------------------------------------------------------
  // A whole frame
  // ---------------------------------------------------------------------------

  /** The rows and columns `_render_frame` indexes exist. */
  predicate Covers(rgb: Frame, width: nat, height: nat)
  {
    2 * (height / 2) <= |rgb| && forall y :: 0 <= y < 2 * (height / 2) ==> width <= |rgb[y]|
  }

  lemma CoversRow(rgb: Frame, width: nat, height: nat, y: nat)
    requires Covers(rgb, width, height) && y < height / 2
    ensures 2 * y + 1 < |rgb| && width <= |rgb[2 * y]| && width <= |rgb[2 * y + 1]|
  {
    assert 2 * y + 1 < 2 * (height / 2);
  }

  /** Terminal row `y`: pixel rows `2 * y` (upper halves) and `2 * y + 1` (lower halves). */
  function LineAt(rgb: Frame, width: nat, height: nat, truecolor: bool, y: nat): string
    requires Covers(rgb, width, height) && y < height / 2
  {
    CoversRow(rgb, width, height, y);
    RowLine(rgb[2 * y], rgb[2 * y + 1], width, truecolor)
  }

  /** The rendered rows, the sequence `_render_frame` returns as `lines`. */
  function FrameLines(rgb: Frame, width: nat, height: nat, truecolor: bool): seq<string>
    requires Covers(rgb, width, height)
  {
    LinesBefore(rgb, width, height, truecolor, height / 2)
  }

  /** The first `n` terminal rows. */
  function LinesBefore(rgb: Frame, width: nat, height: nat, truecolor: bool, n: nat): seq<string>
    requires Covers(rgb, width, height) && n <= height / 2
  {
    if n == 0 then [] else LinesBefore(rgb, width, height, truecolor, n - 1) + [LineAt(rgb, width, height, truecolor, n - 1)]
  }

  /** The first `n` terminal rows number `n`. */
  lemma {:induction false} LinesBeforeLength(rgb: Frame, width: nat, height: nat, truecolor: bool, n: nat)
    requires Covers(rgb, width, height) && n <= height / 2
    ensures |LinesBefore(rgb, width, height, truecolor, n)| == n
  {
    if n > 0 {
      LinesBeforeLength(rgb, width, height, truecolor, n - 1);
    }
  }

  /** Entry `y` of the first `n` terminal rows is row `y`. */
  lemma {:induction false} LinesBeforeAt(rgb: Frame, width: nat, height: nat, truecolor: bool, n: nat, y: nat)
    requires Covers(rgb, width, height) && y < n <= height / 2
    ensures y < |LinesBefore(rgb, width, height, truecolor, n)|
    ensures LinesBefore(rgb, width, height, truecolor, n)[y] == LineAt(rgb, width, height, truecolor, y)
  {
    LinesBeforeLength(rgb, width, height, truecolor, n - 1);
    if y < n - 1 {
      LinesBeforeAt(rgb, width, height, truecolor, n - 1, y);
    }
  }

  /** The cached row at index `i` equals `line`. */
  predicate Cached(cache: Option<seq<string>>, i: nat, line: string)
  {
    cache.Some? && i < |cache.value| && cache.value[i] == line
  }

  function TopMove(topPad: int): string
  {
    if topPad > 0 then CursorDown(topPad) else ""
  }

  function ColumnMove(leftPad: int): string
  {
    if leftPad > 0 then CursorColumn(leftPad + 1) else ""
  }

  /** What row `i` contributes to the composed output. */
  function RowOutput(line: string, i: nat, cache: Option<seq<string>>, leftPad: int): string
  {
    if Cached(cache, i, line) then NextLine else ColumnMove(leftPad) + line + "\n"
  }

  function RowsOutput(lines: seq<string>, cache: Option<seq<string>>, leftPad: int, n: nat): string
    requires n <= |lines|
  {
    if n == 0 then "" else RowsOutput(lines, cache, leftPad, n - 1) + RowOutput(lines[n - 1], n - 1, cache, leftPad)
  }

  /** The composed output `_render_frame` returns as its first result. */
  function Compose(lines: seq<string>, cache: Option<seq<string>>, leftPad: int, topPad: int): string
  {
    Home + TopMove(topPad) + RowsOutput(lines, cache, leftPad, |lines|) + Reset
  }

  // ---------------------------------------------------------------------------
  // The imperative renderer
  // ---------------------------------------------------------------------------

  lemma TextsAppend(a: seq<Piece>, b: seq<Piece>)
    ensures Texts(a + b) == Texts(a) + Texts(b)
  {
  }

  lemma TextAppend(a: seq<Piece>, b: seq<Piece>)
    ensures Text(a + b) == Text(a) + Text(b)
  {
    TextsAppend(a, b);
    JoinAppend(Texts(a), Texts(b));
  }

  lemma JoinSnoc(parts: seq<string>, s: string)
    ensures Join(parts + [s]) == Join(parts) + s
  {
    JoinAppend(parts, [s]);
    assert Join([s]) == s + Join([]);
  }

  /** The escapes written for a colour: one when it differs from the last of its layer. */
  function EscapeIfChanged(layer: Layer, c: Color, last: Option<Color>): seq<string>
  {
    if Some(c) != last then [ColorEscape(layer, c)] else []
  }

  /** The colour of the layer of `row` last written before column `x`; none at column 0. */
  function LastColor(row: Row, x: nat, truecolor: bool): Option<Color>
    requires x <= |row|
  {
    if x == 0 then None else Some(PixelColor(row[x - 1], truecolor))
  }

  /**
   * One pass of the column loop: given the strings of the first `x` columns,
   * appending column x's strings gives those of the first x+1, and x's
   * colours become the last written.
   */
  lemma RowTextsStep(top: Row, bot: Row, x: nat, truecolor: bool, sb: seq<string>, parts: seq<string>)
    requires x < |top| && x < |bot|
    requires sb == Texts(RowPieces(top, bot, x, truecolor))
    requires parts == EscapeIfChanged(Foreground, PixelColor(top[x], truecolor), LastColor(top, x, truecolor))
                      + EscapeIfChanged(Background, PixelColor(bot[x], truecolor), LastColor(bot, x, truecolor))
                      + [[HalfBlock]]
    ensures sb + parts == Texts(RowPieces(top, bot, x + 1, truecolor))
    ensures LastColor(top, x + 1, truecolor) == Some(PixelColor(top[x], truecolor))
    ensures LastColor(bot, x + 1, truecolor) == Some(PixelColor(bot[x], truecolor))
  {
    TextsAppend(RowPieces(top, bot, x, truecolor), ColumnPieces(top, bot, x, truecolor));
  }

  /**
   * The body of the column loop: the strings written for one column whose
   * upper pixel is `rt` and lower pixel `rb`, and the colours now last written.
   */
  method RenderColumn(rt: Rgb, rb: Rgb, truecolor: bool, lastFg: Option<Color>, lastBg: Option<Color>)
    returns (parts: seq<string>, fg: Color, bg: Color)
    ensures fg == PixelColor(rt, truecolor) && bg == PixelColor(rb, truecolor)
    ensures parts == EscapeIfChanged(Foreground, fg, lastFg) + EscapeIfChanged(Background, bg, lastBg) + [[HalfBlock]]
  {
    parts := [];
    if truecolor {
      fg := TrueColor(rt.r, rt.g, rt.b);
      bg := TrueColor(rb.r, rb.g, rb.b);
      if Some(fg) != lastFg {
        parts := parts + [AnsiFgTrue(rt.r, rt.g, rt.b)];
      }
      if Some(bg) != lastBg {
        parts := parts + [AnsiBgTrue(rb.r, rb.g, rb.b)];
      }
    } else {
      var fgc := Rgb256(rt);
      var bgc := Rgb256(rb);
      fg, bg := Indexed(fgc), Indexed(bgc);
      if Some(fg) != lastFg {
        parts := parts + [AnsiFg256(fgc)];
      }
      if Some(bg) != lastBg {
        parts := parts + [AnsiBg256(bgc)];
      }
    }
    parts := parts + [[HalfBlock]];
  }

  /** The column loop of `_render_frame`: one row string. */
  method RenderRow(top: Row, bot: Row, width: nat, truecolor: bool) returns (line: string)
    requires width <= |top| && width <= |bot|
    ensures line == RowLine(top, bot, width, truecolor)
  {
    var sb: seq<string> := [];
    var lastFg: Option<Color> := None;
    var lastBg: Option<Color> := None;
    var x := 0;
    while x < width
      invariant 0 <= x <= width
      invariant sb == Texts(RowPieces(top, bot, x, truecolor))
      invariant lastFg == LastColor(top, x, truecolor) && lastBg == LastColor(bot, x, truecolor)
    {
      var parts, fg, bg := RenderColumn(top[x], bot[x], truecolor, lastFg, lastBg);
      RowTextsStep(top, bot, x, truecolor, sb, parts);
      sb := sb + parts;
      lastFg, lastBg := Some(fg), Some(bg);
      x := x + 1;
    }
    line := Join(sb);
  }

  /** The list `out` holds after the header: the parts of rows 0..n-1. */
  function RowsParts(lines: seq<string>, cache: Option<seq<string>>, leftPad: int, n: nat): seq<string>
    requires n <= |lines|
  {
    if n == 0 then [] else RowsParts(lines, cache, leftPad, n - 1) + RowParts(lines[n - 1], n - 1, cache, leftPad)
  }

  /** What the output loop appends for row `i`. */
  function RowParts(line: string, i: nat, cache: Option<seq<string>>, leftPad: int): seq<string>
  {
    if Cached(cache, i, line) then [NextLine]
    else (if leftPad > 0 then [CursorColumn(leftPad + 1)] else []) + [line, "\n"]
  }

  lemma JoinRowParts(line: string, i: nat, cache: Option<seq<string>>, leftPad: int)
    ensures Join(RowParts(line, i, cache, leftPad)) == RowOutput(line, i, cache, leftPad)
  {
    if Cached(cache, i, line) {
      JoinSnoc([], NextLine);
      assert [] + [NextLine] == [NextLine];
    } else {
      var mv := if leftPad > 0 then [CursorColumn(leftPad + 1)] else [];
      assert Join(mv) == ColumnMove(leftPad) by {
        if leftPad > 0 {
          JoinSnoc([], CursorColumn(leftPad + 1));
          assert [] + [CursorColumn(leftPad + 1)] == mv;
        }
      }
      calc {
        Join(RowParts(line, i, cache, leftPad));
        { assert RowParts(line, i, cache, leftPad) == mv + [line] + ["\n"]; }
        Join(mv + [line] + ["\n"]);
        { JoinSnoc(mv + [line], "\n"); JoinSnoc(mv, line); }
        Join(mv) + line + "\n";
      }
    }
  }

  function HeadParts(topPad: int): seq<string>
  {
    [Home] + if topPad > 0 then [CursorDown(topPad)] else []
  }

  lemma JoinBoth(a: seq<string>, b: seq<string>, x: string, y: string)
    requires Join(a) == x && Join(b) == y
    ensures Join(a + b) == x + y
  {
    JoinAppend(a, b);
  }

  lemma {:induction false} JoinRowsParts(lines: seq<string>, cache: Option<seq<string>>, leftPad: int, n: nat)
    requires n <= |lines|
    ensures Join(RowsParts(lines, cache, leftPad, n)) == RowsOutput(lines, cache, leftPad, n)
  {
    if n > 0 {
      var k: nat := n - 1;
      var line := lines[k];
      JoinRowsParts(lines, cache, leftPad, k);
      JoinRowParts(line, k, cache, leftPad);
      JoinBoth(RowsParts(lines, cache, leftPad, k), RowParts(line, k, cache, leftPad),
               RowsOutput(lines, cache, leftPad, k), RowOutput(line, k, cache, leftPad));
    }
  }

  lemma ComposeParts(lines: seq<string>, cache: Option<seq<string>>, leftPad: int, topPad: int)
    ensures Join(HeadParts(topPad) + RowsParts(lines, cache, leftPad, |lines|) + [Reset])
            == Compose(lines, cache, leftPad, topPad)
  {
    var head := HeadParts(topPad);
    var rows := RowsParts(lines, cache, leftPad, |lines|);
    JoinSnoc(head + rows, Reset);
    JoinAppend(head, rows);
    JoinRowsParts(lines, cache, leftPad, |lines|);
    assert Join(head) == Home + TopMove(topPad) by {
      var tail := if topPad > 0 then [CursorDown(topPad)] else [];
      assert head == [Home] + tail;
      JoinAppend([Home], tail);
      JoinSnoc([], Home);
      if topPad > 0 { JoinSnoc([], CursorDown(topPad)); }
    }
  }

  lemma AppendRow(before: seq<string>, mv: seq<string>, line: string)
    ensures before + mv + [line] + ["\n"] == before + (mv + [line, "\n"])
  {
  }

  lemma RowsPartsStep(head: seq<string>, rows: seq<string>, row: seq<string>)
    ensures head + rows + row == head + (rows + row)
  {
  }

  /** The output loop of `_render_frame`: cursor moves, changed rows, reset. */
  method ComposeOutput(lines: seq<string>, cache: Option<seq<string>>, leftPad: int, topPad: int)
    returns (out: string)
    ensures out == Compose(lines, cache, leftPad, topPad)
  {
    var parts: seq<string> := [Home];
    if topPad > 0 {
      parts := parts + [CursorDown(topPad)];
    }
    var i := 0;
    while i < |lines|
      invariant 0 <= i <= |lines|
      invariant parts == HeadParts(topPad) + RowsParts(lines, cache, leftPad, i)
    {
      ghost var before := parts;
      if cache.Some? && i < |cache.value| && cache.value[i] == lines[i] {
        parts := parts + [NextLine];
      } else {
        ghost var mv: seq<string> := if leftPad > 0 then [CursorColumn(leftPad + 1)] else [];
        if leftPad > 0 {
          parts := parts + [CursorColumn(leftPad + 1)];
        }
        assert parts == before + mv;
        parts := parts + [lines[i]];
        parts := parts + ["\n"];
        AppendRow(before, mv, lines[i]);
      }
      RowsPartsStep(HeadParts(topPad), RowsParts(lines, cache, leftPad, i), RowParts(lines[i], i, cache, leftPad));
      i := i + 1;
    }
    parts := parts + [Reset];
    ComposeParts(lines, cache, leftPad, topPad);
    out := Join(parts);
  }

  /**
   * `_render_frame`: returns the composed output and the new row cache.  The
   * rows depend only on the frame, its geometry and the colour mode; only the
   * composed output depends on the old cache and the pads.
   */
  method RenderFrame(rgb: Frame, width: nat, height: nat, truecolor: bool,
                     cache: Option<seq<string>>, leftPad: int, topPad: int)
    returns (out: string, lines: seq<string>)
    requires Covers(rgb, width, height)
    ensures lines == FrameLines(rgb, width, height, truecolor)
    ensures out == Compose(lines, cache, leftPad, topPad)
  {
    lines := RenderLines(rgb, width, height, truecolor);
    out := ComposeOutput(lines, cache, leftPad, topPad);
  }

  /** The row loop of `_render_frame`: terminal row y from pixel rows 2y and 2y+1. */
  method RenderLines(rgb: Frame, width: nat, height: nat, truecolor: bool) returns (lines: seq<string>)
    requires Covers(rgb, width, height)
    ensures lines == FrameLines(rgb, width, height, truecolor)
  {
    var rows := height / 2;
    lines := [];
    var y := 0;
    while y < rows
      invariant 0 <= y <= rows
      invariant lines == LinesBefore(rgb, width, height, truecolor, y)
    {
      CoversRow(rgb, width, height, y);
      var line := RenderRow(rgb[2 * y], rgb[2 * y + 1], width, truecolor);
      LinesBeforeStep(rgb, width, height, truecolor, y, line);
      lines := lines + [line];
      y := y + 1;
    }
  }

  /** One pass of the row loop appends terminal row `n`. */
  lemma LinesBeforeStep(rgb: Frame, width: nat, height: nat, truecolor: bool, n: nat, line: string)
    requires Covers(rgb, width, height) && n < height / 2
    requires line == LineAt(rgb, width, height, truecolor, n)
    ensures LinesBefore(rgb, width, height, truecolor, n) + [line] == LinesBefore(rgb, width, height, truecolor, n + 1)
  {
  }
}
