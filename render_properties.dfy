/**
 * What the renderer promises: the shape of its rows, that a row string reads
 * back as exactly its pieces, how many colour escapes a row holds, and what
 * the composed output contains for cached and uncached rows.
 */
module RenderProperties {
  import opened Common
  import opened Ansi
  import opened Render

  // ---------------------------------------------------------------------------
  // Reading a row string back
  // ---------------------------------------------------------------------------

  /** Splits a row string into glyphs and colour escapes. */
  function Tokenize(s: string): Option<seq<Piece>>
    decreases |s|
  {
    if s == [] then Some([])
    else if s[0] == HalfBlock then
      var rest :- Tokenize(s[1..]);
      Some([Glyph] + rest)
    else
      var e :- ParseColorEscape(s);
      var rest :- Tokenize(e.2);
      Some([Escape(e.0, e.1)] + rest)
  }

  lemma TextCons(ps: seq<Piece>)
    requires ps != []
    ensures Text(ps) == PieceText(ps[0]) + Text(ps[1..])
  {
    assert Texts(ps)[1..] == Texts(ps[1..]);
  }

  /** Reading one piece's text off the front of a string. */
  lemma TokenizePiece(p: Piece, rest: string)
    ensures Tokenize(PieceText(p) + rest)
            == if Tokenize(rest).Some? then Some([p] + Tokenize(rest).value) else None
  {
    var s := PieceText(p) + rest;
    match p
    case Glyph =>
      assert s[0] == HalfBlock && s[1..] == rest;
    case Escape(layer, color) =>
      ParseColorEscapeRoundTrip(layer, color, rest);
      EscapeShape(layer, color);
      assert s[0] == Esc;
  }

  lemma TextCons2(ps: seq<Piece>)
    requires |ps| >= 2
    ensures Text(ps) == PieceText(ps[0]) + PieceText(ps[1]) + Text(ps[2..])
  {
    var a, b, c := PieceText(ps[0]), PieceText(ps[1]), Text(ps[2..]);
    calc {
      Text(ps);
      { TextCons(ps); }
      a + Text(ps[1..]);
      { TextCons(ps[1..]); assert ps[1..][1..] == ps[2..]; }
      a + (b + c);
      a + b + c;
    }
  }

  /** Any sequence of pieces is recovered from the string it is written as. */
  lemma {:induction false} TokenizeText(ps: seq<Piece>)
    ensures Tokenize(Text(ps)) == Some(ps)
  {
    if ps != [] {
      calc {
        Tokenize(Text(ps));
        { TextCons(ps); }
        Tokenize(PieceText(ps[0]) + Text(ps[1..]));
        { TokenizeText(ps[1..]); TokenizePiece(ps[0], Text(ps[1..])); }
        Some([ps[0]] + ps[1..]);
        { assert [ps[0]] + ps[1..] == ps; }
        Some(ps);
      }
    } else {
      assert Texts(ps) == [];
    }
  }

  /** A row string reads back as the pieces of its row: its escapes are exactly those. */
  lemma RowLineTokens(top: Row, bot: Row, width: nat, truecolor: bool)
    requires width <= |top| && width <= |bot|
    ensures Tokenize(RowLine(top, bot, width, truecolor)) == Some(RowPieces(top, bot, width, truecolor))
  {
    TokenizeText(RowPieces(top, bot, width, truecolor));
  }

  // ---------------------------------------------------------------------------
  // Counting glyphs and escapes
  // ---------------------------------------------------------------------------

  function GlyphCount(s: string): nat { multiset(s)[HalfBlock] }

  function Glyphs(ps: seq<Piece>): nat
  {
    if ps == [] then 0 else (if ps[0].Glyph? then 1 else 0) + Glyphs(ps[1..])
  }

  function Escapes(ps: seq<Piece>, layer: Layer): nat
  {
    if ps == [] then 0 else (if ps[0].Escape? && ps[0].layer == layer then 1 else 0) + Escapes(ps[1..], layer)
  }

  lemma {:induction false} CountsAppend(a: seq<Piece>, b: seq<Piece>)
    ensures Glyphs(a + b) == Glyphs(a) + Glyphs(b)
    ensures forall layer :: Escapes(a + b, layer) == Escapes(a, layer) + Escapes(b, layer)
  {
    if a != [] {
      assert (a + b)[1..] == a[1..] + b;
      CountsAppend(a[1..], b);
    } else {
      assert a + b == b;
    }
  }

  lemma EscapeHasNoGlyph(layer: Layer, color: Color)
    ensures GlyphCount(ColorEscape(layer, color)) == 0
  {
    var s := ColorEscape(layer, color);
    EscapeShape(layer, color);
    assert !IsSgrChar(HalfBlock);
    assert HalfBlock !in s;
  }

  /** The glyphs of a piece string are its glyph pieces: escapes contribute none. */
  lemma {:induction false} TextGlyphs(ps: seq<Piece>)
    ensures GlyphCount(Text(ps)) == Glyphs(ps)
  {
    if ps == [] {
      assert Texts(ps) == [];
    } else {
      TextCons(ps);
      TextGlyphs(ps[1..]);
      match ps[0]
      case Glyph =>
      case Escape(layer, color) => EscapeHasNoGlyph(layer, color);
    }
  }

  lemma {:induction false} RowPiecesGlyphs(top: Row, bot: Row, n: nat, truecolor: bool)
    requires n <= |top| && n <= |bot|
    ensures Glyphs(RowPieces(top, bot, n, truecolor)) == n
  {
    if n > 0 {
      RowPiecesGlyphs(top, bot, n - 1, truecolor);
      var col := ColumnPieces(top, bot, n - 1, truecolor);
      CountsAppend(RowPieces(top, bot, n - 1, truecolor), col);
      assert Glyphs(col) == 1 by {
        var fe := if n - 1 == 0 || PixelColor(top[n - 1], truecolor) != PixelColor(top[n - 2], truecolor)
                  then [Escape(Foreground, PixelColor(top[n - 1], truecolor))] else [];
        var be := if n - 1 == 0 || PixelColor(bot[n - 1], truecolor) != PixelColor(bot[n - 2], truecolor)
                  then [Escape(Background, PixelColor(bot[n - 1], truecolor))] else [];
        assert col == fe + be + [Glyph];
        CountsAppend(fe + be, [Glyph]);
        CountsAppend(fe, be);
      }
    }
  }

  /** A row string holds exactly `width` glyphs. */
  lemma RowLineGlyphs(top: Row, bot: Row, width: nat, truecolor: bool)
    requires width <= |top| && width <= |bot|
    ensures GlyphCount(RowLine(top, bot, width, truecolor)) == width
  {
    TextGlyphs(RowPieces(top, bot, width, truecolor));
    RowPiecesGlyphs(top, bot, width, truecolor);
  }

  /** `_render_frame` returns height/2 rows, each holding exactly `width` glyphs. */
  lemma FrameLinesShape(rgb: Frame, width: nat, height: nat, truecolor: bool)
    requires Covers(rgb, width, height)
    ensures |FrameLines(rgb, width, height, truecolor)| == height / 2
    ensures forall y :: 0 <= y < height / 2 ==> GlyphCount(FrameLines(rgb, width, height, truecolor)[y]) == width
  {
    LinesBeforeLength(rgb, width, height, truecolor, height / 2);
    forall y | 0 <= y < height / 2
      ensures GlyphCount(FrameLines(rgb, width, height, truecolor)[y]) == width
    {
      LinesBeforeAt(rgb, width, height, truecolor, height / 2, y);
      RowLineGlyphs(rgb[2 * y], rgb[2 * y + 1], width, truecolor);
    }
  }

  // ---------------------------------------------------------------------------
  // Colour escapes only where the colour changes
  // ---------------------------------------------------------------------------

  /** The colours of the first `n` pixels of a row. */
  function Colors(row: Row, n: nat, truecolor: bool): (cs: seq<Color>)
    requires n <= |row|
  {
    seq(n, i requires 0 <= i < n => PixelColor(row[i], truecolor))
  }

  /** How many neighbouring pairs of `cs` differ. */
  function Changes(cs: seq<Color>): nat
  {
    if |cs| < 2 then 0
    else Changes(cs[..|cs| - 1]) + (if cs[|cs| - 1] != cs[|cs| - 2] then 1 else 0)
  }

  lemma ChangesStep(row: Row, n: nat, truecolor: bool)
    requires 0 < n <= |row|
    ensures Changes(Colors(row, n, truecolor))
            == Changes(Colors(row, n - 1, truecolor))
               + if n - 1 == 0 || PixelColor(row[n - 1], truecolor) != PixelColor(row[n - 2], truecolor)
                 then (if n - 1 == 0 then 0 else 1) else 0
  {
    assert Colors(row, n, truecolor)[..n - 1] == Colors(row, n - 1, truecolor);
  }

  /** The escapes of column `x`: one per layer whose colour differs from column x-1. */
  lemma ColumnEscapes(top: Row, bot: Row, x: nat, truecolor: bool)
    requires x < |top| && x < |bot|
    ensures Escapes(ColumnPieces(top, bot, x, truecolor), Foreground)
            == if x == 0 || PixelColor(top[x], truecolor) != PixelColor(top[x - 1], truecolor) then 1 else 0
    ensures Escapes(ColumnPieces(top, bot, x, truecolor), Background)
            == if x == 0 || PixelColor(bot[x], truecolor) != PixelColor(bot[x - 1], truecolor) then 1 else 0
  {
    var fe := if x == 0 || PixelColor(top[x], truecolor) != PixelColor(top[x - 1], truecolor)
              then [Escape(Foreground, PixelColor(top[x], truecolor))] else [];
    var be := if x == 0 || PixelColor(bot[x], truecolor) != PixelColor(bot[x - 1], truecolor)
              then [Escape(Background, PixelColor(bot[x], truecolor))] else [];
    assert ColumnPieces(top, bot, x, truecolor) == fe + be + [Glyph];
    CountsAppend(fe + be, [Glyph]);
    CountsAppend(fe, be);
  }

  /**
   * A row holds one foreground escape for its first column plus one for each
   * column whose upper colour differs from its left neighbour's, and likewise
   * for the background with the lower colours.
   */
  lemma {:induction false} EscapeCounts(top: Row, bot: Row, n: nat, truecolor: bool)
    requires n <= |top| && n <= |bot|
    ensures Escapes(RowPieces(top, bot, n, truecolor), Foreground)
            == if n == 0 then 0 else 1 + Changes(Colors(top, n, truecolor))
    ensures Escapes(RowPieces(top, bot, n, truecolor), Background)
            == if n == 0 then 0 else 1 + Changes(Colors(bot, n, truecolor))
  {
    ForegroundEscapes(top, bot, n, truecolor);
    BackgroundEscapes(top, bot, n, truecolor);
  }

  lemma {:induction false} ForegroundEscapes(top: Row, bot: Row, n: nat, truecolor: bool)
    requires n <= |top| && n <= |bot|
    ensures Escapes(RowPieces(top, bot, n, truecolor), Foreground)
            == if n == 0 then 0 else 1 + Changes(Colors(top, n, truecolor))
  {
    if n > 0 {
      var prev, col := RowPieces(top, bot, n - 1, truecolor), ColumnPieces(top, bot, n - 1, truecolor);
      ForegroundEscapes(top, bot, n - 1, truecolor);
      CountsAppend(prev, col);
      ColumnEscapes(top, bot, n - 1, truecolor);
      ChangesStep(top, n, truecolor);
      var a, c := Escapes(prev, Foreground), Escapes(col, Foreground);
      assert Escapes(RowPieces(top, bot, n, truecolor), Foreground) == a + c;
      if n == 1 {
        assert a == 0 && c == 1;
        assert Changes(Colors(top, n, truecolor)) == 0;
      } else {
        assert a == 1 + Changes(Colors(top, n - 1, truecolor));
        assert Changes(Colors(top, n, truecolor)) == Changes(Colors(top, n - 1, truecolor)) + c;
      }
    }
  }

  lemma {:induction false} BackgroundEscapes(top: Row, bot: Row, n: nat, truecolor: bool)
    requires n <= |top| && n <= |bot|
    ensures Escapes(RowPieces(top, bot, n, truecolor), Background)
            == if n == 0 then 0 else 1 + Changes(Colors(bot, n, truecolor))
  {
    if n > 0 {
      var prev, col := RowPieces(top, bot, n - 1, truecolor), ColumnPieces(top, bot, n - 1, truecolor);
      BackgroundEscapes(top, bot, n - 1, truecolor);
      CountsAppend(prev, col);
      ColumnEscapes(top, bot, n - 1, truecolor);
      ChangesStep(bot, n, truecolor);
      var a, c := Escapes(prev, Background), Escapes(col, Background);
      assert Escapes(RowPieces(top, bot, n, truecolor), Background) == a + c;
      if n == 1 {
        assert a == 0 && c == 1;
        assert Changes(Colors(bot, n, truecolor)) == 0;
      } else {
        assert a == 1 + Changes(Colors(bot, n - 1, truecolor));
        assert Changes(Colors(bot, n, truecolor)) == Changes(Colors(bot, n - 1, truecolor)) + c;
      }
    }
  }

  /**
   * A row all of one upper colour and one lower colour is one foreground
   * escape, one background escape and `width` glyphs.
   */
  lemma SolidRow(top: Row, bot: Row, width: nat, truecolor: bool)
    requires 0 < width <= |top| && width <= |bot|
    requires forall x :: 0 <= x < width ==> PixelColor(top[x], truecolor) == PixelColor(top[0], truecolor)
    requires forall x :: 0 <= x < width ==> PixelColor(bot[x], truecolor) == PixelColor(bot[0], truecolor)
    ensures RowLine(top, bot, width, truecolor)
            == ColorEscape(Foreground, PixelColor(top[0], truecolor))
               + ColorEscape(Background, PixelColor(bot[0], truecolor))
               + Repeat([HalfBlock], width)
  {
    SolidPieces(top, bot, width, truecolor, width);
    var ps := RowPieces(top, bot, width, truecolor);
    var glyphs := seq(width, _ => Glyph);
    assert ps[2..] == glyphs;
    TextCons2(ps);
    JoinConstant(Texts(glyphs), [HalfBlock]);
  }

  lemma {:induction false} SolidPieces(top: Row, bot: Row, width: nat, truecolor: bool, n: nat)
    requires 0 < n <= width <= |top| && width <= |bot|
    requires forall x :: 0 <= x < width ==> PixelColor(top[x], truecolor) == PixelColor(top[0], truecolor)
    requires forall x :: 0 <= x < width ==> PixelColor(bot[x], truecolor) == PixelColor(bot[0], truecolor)
    ensures RowPieces(top, bot, n, truecolor)
            == [Escape(Foreground, PixelColor(top[0], truecolor)), Escape(Background, PixelColor(bot[0], truecolor))]
               + seq(n, _ => Glyph)
  {
    if n > 1 {
      SolidPieces(top, bot, width, truecolor, n - 1);
      assert ColumnPieces(top, bot, n - 1, truecolor) == [Glyph];
    }
  }

  /** Every non-empty row starts with a foreground escape followed by a background escape. */
  lemma RowLineStart(top: Row, bot: Row, width: nat, truecolor: bool)
    requires 0 < width <= |top| && width <= |bot|
    ensures var ps := RowPieces(top, bot, width, truecolor);
            |ps| >= 3
            && RowLine(top, bot, width, truecolor)
               == ColorEscape(Foreground, PixelColor(top[0], truecolor))
                  + ColorEscape(Background, PixelColor(bot[0], truecolor))
                  + Text(ps[2..])
  {
    var ps := RowPieces(top, bot, width, truecolor);
    RowPiecesStart(top, bot, width, truecolor);
    TextCons2(ps);
  }

  lemma {:induction false} RowPiecesStart(top: Row, bot: Row, n: nat, truecolor: bool)
    requires 0 < n <= |top| && n <= |bot|
    ensures |RowPieces(top, bot, n, truecolor)| >= 3
    ensures RowPieces(top, bot, n, truecolor)[0] == Escape(Foreground, PixelColor(top[0], truecolor))
    ensures RowPieces(top, bot, n, truecolor)[1] == Escape(Background, PixelColor(bot[0], truecolor))
  {
    if n > 1 {
      RowPiecesStart(top, bot, n - 1, truecolor);
    }
  }

  // ---------------------------------------------------------------------------
  // The composed output
  // ---------------------------------------------------------------------------

  /** The part each row contributes, row by row. */
  function RowOutputs(lines: seq<string>, cache: Option<seq<string>>, leftPad: int, n: nat): seq<string>
    requires n <= |lines|
  {
    seq(n, i requires 0 <= i < n => RowOutput(lines[i], i, cache, leftPad))
  }

  /** Each row contributes its own part, independently of the other rows. */
  lemma {:induction false} RowsOutputPerRow(lines: seq<string>, cache: Option<seq<string>>, leftPad: int, n: nat)
    requires n <= |lines|
    ensures RowsOutput(lines, cache, leftPad, n) == Join(RowOutputs(lines, cache, leftPad, n))
  {
    var parts := RowOutputs(lines, cache, leftPad, n);
    if n > 0 {
      RowsOutputPerRow(lines, cache, leftPad, n - 1);
      assert parts == parts[..n - 1] + [parts[n - 1]];
      assert parts[..n - 1] == RowOutputs(lines, cache, leftPad, n - 1);
      JoinSnoc(parts[..n - 1], parts[n - 1]);
    } else {
      assert |parts| == 0;
    }
  }

  /**
   * The output always starts with the cursor-home escape, then the top
   * padding move exactly when `topPad > 0`, and always ends with the reset.
   */
  lemma ComposeFrame(lines: seq<string>, cache: Option<seq<string>>, leftPad: int, topPad: int)
    ensures var out := Compose(lines, cache, leftPad, topPad);
            var head := if topPad > 0 then Home + CursorDown(topPad) else Home;
            |out| >= |head| + |Reset|
            && out[..|head|] == head
            && out[|out| - |Reset|..] == Reset
  {
    var rows := RowsOutput(lines, cache, leftPad, |lines|);
    var head := if topPad > 0 then Home + CursorDown(topPad) else Home;
    assert Home + TopMove(topPad) == head;
    assert Compose(lines, cache, leftPad, topPad) == head + rows + Reset;
    Framed(head, rows, Reset);
  }

  lemma Framed(a: string, b: string, c: string)
    ensures |a + b + c| >= |a| + |c|
    ensures (a + b + c)[..|a|] == a
    ensures (a + b + c)[|a + b + c| - |c|..] == c
  {
    assert (a + b + c)[..|a|] == a;
    assert a + b + c == (a + b) + c;
  }

  /** Without a cache every row is redrawn: column move, row string, newline. */
  lemma ComposeUncached(lines: seq<string>, leftPad: int, topPad: int)
    ensures Compose(lines, None, leftPad, topPad)
            == Home + TopMove(topPad)
               + Join(seq(|lines|, i requires 0 <= i < |lines| => ColumnMove(leftPad) + lines[i] + "\n"))
               + Reset
  {
    RowsOutputPerRow(lines, None, leftPad, |lines|);
    assert RowOutputs(lines, None, leftPad, |lines|)
        == seq(|lines|, i requires 0 <= i < |lines| => ColumnMove(leftPad) + lines[i] + "\n");
  }

  /** Against its own rows as the cache, every row is a cursor-next-line escape and nothing else. */
  lemma ComposeSelfCached(lines: seq<string>, leftPad: int, topPad: int)
    ensures Compose(lines, Some(lines), leftPad, topPad)
            == Home + TopMove(topPad) + Repeat(NextLine, |lines|) + Reset
  {
    RowsOutputPerRow(lines, Some(lines), leftPad, |lines|);
    JoinConstant(RowOutputs(lines, Some(lines), leftPad, |lines|), NextLine);
  }

  /**
   * Rendering the same frame again with the cache the first rendering returned
   * emits no row text: only home, the top move, one next-line per row, reset.
   */
  lemma RerenderSameFrame(rgb: Frame, width: nat, height: nat, truecolor: bool, leftPad: int, topPad: int)
    requires Covers(rgb, width, height)
    ensures var lines := FrameLines(rgb, width, height, truecolor);
            Compose(lines, Some(lines), leftPad, topPad)
            == Home + TopMove(topPad) + Repeat(NextLine, height / 2) + Reset
  {
    LinesBeforeLength(rgb, width, height, truecolor, height / 2);
    ComposeSelfCached(FrameLines(rgb, width, height, truecolor), leftPad, topPad);
  }
}
