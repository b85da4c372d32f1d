/**
 * Raw frames from the decoder: `_read_exact` over the decoder's output
 * pipe, and the reshape of `width * height * 3` bytes into rows of pixels.
 */
module FrameSource {
  import opened Common
  import opened Ansi
  import opened Render

  /**
   * The decoder's standard output: the bytes it will ever write, and how
   * many have been read.  A read may return fewer bytes than asked for.
   */
  class Pipe {
    var data: seq<Byte>
    var pos: nat

    ghost predicate Valid()
      reads this
    {
      pos <= |data|
    }

    constructor (data: seq<Byte>)
      ensures this.data == data && pos == 0 && Valid()
    {
      this.data := data;
      pos := 0;
    }

    function Remaining(): nat
      reads this
      requires Valid()
    {
      |data| - pos
    }

    /**
     * `stdout.read(n)`: the next bytes, at most `n`; at least one while
     * any remain and `n > 0`; empty at end of stream.  Callers may rely on
     * nothing more, so a short read is always allowed for.
     */
    method Read(n: nat) returns (chunk: seq<Byte>)
      requires Valid()
      modifies this
      ensures Valid() && data == old(data)
      ensures old(pos) <= pos && chunk == data[old(pos)..pos] && |chunk| <= n
      ensures n > 0 && old(pos) < |data| ==> |chunk| >= 1
    {
      var k := Min(n, |data| - pos);
      chunk := data[pos..pos + k];
      pos := pos + k;
    }
  }

  /**
   * `_read_exact`: exactly `size` bytes, or `None` when the stream ends
   * first, in which case everything left has been consumed.
   */
  method ReadExact(p: Pipe, size: nat) returns (r: Option<seq<Byte>>)
    requires p.Valid()
    modifies p
    ensures p.Valid() && p.data == old(p.data)
    ensures old(p.pos) + size <= |p.data| ==>
              r == Some(p.data[old(p.pos)..old(p.pos) + size]) && p.pos == old(p.pos) + size
    ensures old(p.pos) + size > |p.data| ==> r == None && p.pos == |p.data|
  {
    ghost var start := p.pos;
    var buf: seq<Byte> := [];
    while |buf| < size
      invariant p.Valid() && p.data == old(p.data)
      invariant start <= p.pos && |buf| <= size
      invariant buf == p.data[start..p.pos]
      decreases size - |buf|
    {
      var chunk := p.Read(size - |buf|);
      if |chunk| == 0 {
        return None;
      }
      buf := buf + chunk;
    }
    return Some(buf);
  }

  /** The pixel at column `x` of row `y` in a packed RGB buffer of rows `w` pixels wide. */
  function PixelAt(raw: seq<Byte>, w: nat, y: nat, x: nat): Rgb
    requires x < w && 3 * (y * w + x) + 2 < |raw|
  {
    var i := 3 * (y * w + x);
    Rgb(raw[i], raw[i + 1], raw[i + 2])
  }

  lemma PixelIndexInRange(w: nat, h: nat, y: nat, x: nat)
    requires y < h && x < w
    ensures 3 * (y * w + x) + 2 < w * h * 3
  {
    assert y * w + x < (y + 1) * w;
    assert (y + 1) * w <= h * w;
  }

  /** `np.frombuffer(raw).reshape((h, w, 3))`: `h` rows of `w` pixels. */
  function Reshape(raw: seq<Byte>, w: nat, h: nat): (f: Frame)
    requires |raw| == w * h * 3
    ensures |f| == h && forall y :: 0 <= y < h ==> |f[y]| == w
  {
    seq(h, (y: int) requires 0 <= y < h =>
      seq(w, (x: int) requires 0 <= x < w =>
        PixelIndexInRange(w, h, y, x);
        PixelAt(raw, w, y, x)))
  }

  /** A reshaped frame has every pixel the renderer reads. */
  lemma ReshapeCovers(raw: seq<Byte>, w: nat, h: nat)
    requires |raw| == w * h * 3
    ensures Covers(Reshape(raw, w, h), w, h)
  {
  }

  /** The bytes of a row, three per pixel in red, green, blue order. */
  function RowBytes(row: Row): (b: seq<Byte>)
    ensures |b| == 3 * |row|
  {
    if row == [] then [] else [row[0].r, row[0].g, row[0].b] + RowBytes(row[1..])
  }

  /** The bytes of a frame, row after row. */
  function FrameBytes(f: Frame): seq<Byte>
  {
    if f == [] then [] else RowBytes(f[0]) + FrameBytes(f[1..])
  }

  lemma {:induction false} RowBytesIndex(row: Row, x: nat)
    requires x < |row|
    ensures RowBytes(row)[3 * x] == row[x].r
    ensures RowBytes(row)[3 * x + 1] == row[x].g
    ensures RowBytes(row)[3 * x + 2] == row[x].b
  {
    if x > 0 {
      RowBytesIndex(row[1..], x - 1);
    }
  }

  lemma ReshapeByte(raw: seq<Byte>, w: nat, h: nat, y: nat, i: nat)
    requires |raw| == w * h * 3 && y < h && i < 3 * w
    ensures y * w * 3 + i < |raw|
    ensures RowBytes(Reshape(raw, w, h)[y])[i] == raw[y * w * 3 + i]
  {
    var x := i / 3;
    PixelIndexInRange(w, h, y, x);
    RowBytesIndex(Reshape(raw, w, h)[y], x);
    assert 3 * (y * w + x) == y * w * 3 + 3 * x;
  }

  /** The bytes of row `y` of a reshape are the `y`-th stretch of `3 * w` input bytes. */
  lemma ReshapeRow(raw: seq<Byte>, w: nat, h: nat, y: nat)
    requires |raw| == w * h * 3 && y < h
    ensures y * w * 3 + w * 3 <= |raw|
    ensures RowBytes(Reshape(raw, w, h)[y]) == raw[y * w * 3..y * w * 3 + w * 3]
  {
    var base := y * w * 3;
    assert base + w * 3 == (y + 1) * w * 3;
    assert (y + 1) * w * 3 <= h * w * 3 by {
      assert (y + 1) * w <= h * w;
    }
    var row := RowBytes(Reshape(raw, w, h)[y]);
    var want := raw[base..base + w * 3];
    forall i | 0 <= i < |want|
      ensures row[i] == want[i]
    {
      ReshapeByte(raw, w, h, y, i);
    }
  }

  lemma ReshapeTailPixel(raw: seq<Byte>, w: nat, h: nat, y: nat, x: nat)
    requires |raw| == w * h * 3 && y + 1 < h && x < w
    ensures w * 3 <= |raw| && |raw[w * 3..]| == w * (h - 1) * 3
    ensures Reshape(raw, w, h)[y + 1][x] == Reshape(raw[w * 3..], w, h - 1)[y][x]
  {
    assert w * h * 3 == w * 3 + w * (h - 1) * 3;
    PixelIndexInRange(w, h - 1, y, x);
    PixelIndexInRange(w, h, y + 1, x);
    var i, j := 3 * ((y + 1) * w + x), 3 * (y * w + x);
    assert i == w * 3 + j by {
      assert (y + 1) * w == y * w + w;
    }
    assert Reshape(raw, w, h)[y + 1][x] == PixelAt(raw, w, y + 1, x);
    assert Reshape(raw[w * 3..], w, h - 1)[y][x] == PixelAt(raw[w * 3..], w, y, x);
  }

  /** Dropping the first row of a frame is reshaping the bytes after it. */
  lemma ReshapeTail(raw: seq<Byte>, w: nat, h: nat)
    requires |raw| == w * h * 3 && h > 0
    ensures w * 3 <= |raw| && |raw[w * 3..]| == w * (h - 1) * 3
    ensures Reshape(raw, w, h)[1..] == Reshape(raw[w * 3..], w, h - 1)
  {
    assert w * h * 3 == w * 3 + w * (h - 1) * 3;
    var f := Reshape(raw, w, h)[1..];
    var g := Reshape(raw[w * 3..], w, h - 1);
    forall y | 0 <= y < h - 1
      ensures f[y] == g[y]
    {
      forall x | 0 <= x < w
        ensures f[y][x] == g[y][x]
      {
        ReshapeTailPixel(raw, w, h, y, x);
      }
    }
  }

  /** Reshaping loses nothing: flattening the frame gives back the bytes read. */
  lemma {:induction false} ReshapeRoundTrip(raw: seq<Byte>, w: nat, h: nat)
    requires |raw| == w * h * 3
    ensures FrameBytes(Reshape(raw, w, h)) == raw
    decreases h
  {
    if h > 0 {
      var f := Reshape(raw, w, h);
      ReshapeRow(raw, w, h, 0);
      assert RowBytes(f[0]) == raw[..w * 3];
      ReshapeTail(raw, w, h);
      ReshapeRoundTrip(raw[w * 3..], w, h - 1);
      assert raw == raw[..w * 3] + raw[w * 3..];
    } else {
      assert raw == [];
    }
  }
}
