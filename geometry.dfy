/**
 * Playback geometry: the pixel size a video is scaled to, the cap by
 * terminal rows, the frame-rate cap and the padding that centres the
 * picture.  A frame of height `h` pixels fills `h / 2` terminal rows.
 *
 * The source computes some values with `round` on floating point.  Each
 * such value is a parameter here, and the lemmas say what follows when
 * it is within one half of the exact quotient (`IsRounding`).
 */
module Geometry {
  import opened Common

  /** `n` is a rounding of `num / den` to the nearest integer (ties either way). */
  predicate IsRounding(n: int, num: int, den: int)
    requires den > 0
  {
    2 * num - den <= 2 * n * den <= 2 * num + den
  }

  /**
   * `_compute_scaled_wh`: the width is the column count; the height keeps
   * the source's aspect ratio, rounded up to an even count of at least 2.
   * `rounded` stands for `round(srcH * cols / srcW)`.  A source of unknown
   * size falls back to 16:9.
   */
  function ScaledWh(srcW: int, srcH: int, cols: int, rounded: int): (r: (int, int))
    ensures r.0 == cols
    ensures r.1 >= 2 && r.1 % 2 == 0
    ensures srcW > 0 && srcH > 0 ==> Max(2, rounded) <= r.1 <= Max(2, rounded) + 1
    ensures (srcW <= 0 || srcH <= 0) && cols >= 4 ==> 16 * r.1 <= 9 * cols < 16 * (r.1 + 2)
    ensures (srcW <= 0 || srcH <= 0) && cols < 4 ==> r.1 == 2
  {
    if srcW <= 0 || srcH <= 0 then
      (cols, Max(2, 2 * ((cols * 9) / 16 / 2)))
    else
      var h := if rounded < 2 then 2 else rounded;
      var h' := if h % 2 == 1 then h + 1 else h;
      (cols, h')
  }

  /** The scaled height is within one and a half pixels of the exact proportional height. */
  lemma ScaledKeepsAspect(srcW: int, srcH: int, cols: int, rounded: int)
    requires srcW > 0 && srcH > 0 && rounded >= 2
    requires IsRounding(rounded, srcH * cols, srcW)
    ensures var h := ScaledWh(srcW, srcH, cols, rounded).1;
            2 * srcH * cols - srcW <= 2 * h * srcW <= 2 * srcH * cols + 3 * srcW
  {
    var h := ScaledWh(srcW, srcH, cols, rounded).1;
    assert h == rounded || h == rounded + 1;
    assert 2 * (rounded + 1) * srcW == 2 * rounded * srcW + 2 * srcW;
  }

  /**
   * `_cap_dimensions_by_rows`: a picture taller than `maxRows` terminal
   * rows is shrunk to exactly that many, the width scaled by the same
   * factor (`roundedW` stands for `round(w * 2 * maxRows / h)`) and kept
   * at 2 or more.  `maxRows <= 0` means no cap.
   */
  function CapByRows(w: int, h: int, maxRows: int, roundedW: int): (r: (int, int))
    ensures maxRows > 0 ==> r.1 <= 2 * maxRows
    ensures r.1 <= h
    ensures r != (w, h) <==> maxRows > 0 && h > 2 * maxRows
    ensures r != (w, h) ==> r.1 == 2 * maxRows && r.0 >= 2 && (roundedW >= 2 ==> r.0 == roundedW)
    ensures r != (w, h) && roundedW < 2 ==> r.0 == 2
  {
    if maxRows > 0 && h > maxRows * 2 then
      var maxH := maxRows * 2;
      var newW := Max(2, roundedW);
      var newH := maxH;
      var newH' := if newH % 2 == 1 then newH + 1 else newH;
      (newW, newH')
    else
      (w, h)
  }

  /**
   * Capping never widens a picture at least 2 wide: the width is scaled by
   * 2 * maxRows / h, which is below 1.
   */
  lemma CapNarrows(w: int, h: int, maxRows: int, roundedW: int)
    requires w >= 2 && maxRows > 0 && h > 2 * maxRows
    requires IsRounding(roundedW, w * (2 * maxRows), h)
    ensures CapByRows(w, h, maxRows, roundedW).0 <= w
  {
    var m := 2 * maxRows;
    // w * m <= w * (h - 1) = w * h - w
    MulLe(m, h - 1, w);
    assert (h - 1) * w == h * w - w;
    assert 2 * roundedW * h <= 2 * (h * w) - 2 * w + h;
    if roundedW > w {
      // roundedW * h >= (w + 1) * h = w * h + h
      MulLe(w + 1, roundedW, h);
      assert false;
    }
  }

  lemma MulLe(a: int, b: int, c: int)
    requires a <= b && c >= 0
    ensures a * c <= b * c
  {
  }

  /** Scaling then capping gives an even height of at least 2 that fits the row budget. */
  lemma {:induction false} LayoutFits(srcW: int, srcH: int, cols: int, rounded: int, maxRows: int, roundedW: int)
    ensures var (w, h) := ScaledWh(srcW, srcH, cols, rounded);
            var (w', h') := CapByRows(w, h, maxRows, roundedW);
            h' >= 2 && h' % 2 == 0 && (maxRows > 0 ==> h' / 2 <= maxRows)
  {
    var (w, h) := ScaledWh(srcW, srcH, cols, rounded);
    var (w', h') := CapByRows(w, h, maxRows, roundedW);
    if h' != h {
      assert h' == 2 * maxRows;
    }
  }

  /**
   * The frame-rate cap: the requested rate, at least 1, and no more than
   * the source's own rate `sourceFps` (the rounded probe value) when known.
   */
  function FpsCap(fpsLimit: int, sourceFps: int): (r: int)
    ensures r >= 1
    ensures sourceFps > 0 ==> r <= sourceFps
    ensures 1 <= fpsLimit && (sourceFps <= 0 || fpsLimit <= sourceFps) ==> r == fpsLimit
    ensures fpsLimit < 1 ==> r == 1
    ensures sourceFps > 0 && fpsLimit > sourceFps ==> r == sourceFps
  {
    if sourceFps > 0 then Min(Max(1, fpsLimit), sourceFps) else Max(1, fpsLimit)
  }

  /** The time one frame takes at normal speed. */
  function BaseFrameTime(fps: int): (t: real)
    requires fps >= 1
    ensures 0.0 < t <= 1.0
    ensures t * fps as real == 1.0
  {
    1.0 / fps as real
  }

  /** Columns left of the picture: half the spare width, none if it does not fit. */
  function LeftPad(termCols: int, w: int): (p: int)
    ensures p >= 0
    ensures w <= termCols ==> w + 2 * p <= termCols <= w + 2 * p + 1
    ensures w >= termCols ==> p == 0
  {
    Max(0, (termCols - w) / 2)
  }

  /** Rows above the picture: half the spare rows, none if it does not fit. */
  function TopPad(termRows: int, h: int): (p: int)
    ensures p >= 0
    ensures h / 2 <= termRows ==> h / 2 + 2 * p <= termRows <= h / 2 + 2 * p + 1
    ensures h / 2 >= termRows ==> p == 0
  {
    Max(0, (termRows - h / 2) / 2)
  }
}
