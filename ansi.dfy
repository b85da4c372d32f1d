/**
 * Terminal colours: the xterm 256-colour quantizer and the SGR escape
 * sequences the renderer emits (`_rgb_to_ansi256` and the four `_ansi_*`
 * formatters of reprodT.py), together with a parser for those escapes that
 * shows the formatting is unambiguous.
 */
module Ansi {
  import opened Common

  /** One colour channel of an `rgb24` pixel. */
  type Byte = x: int | 0 <= x < 256

  datatype Rgb = Rgb(r: Byte, g: Byte, b: Byte)

  const Esc: char := '\U{1b}'

  // ---------------------------------------------------------------------------
  // Decimal notation, as Python's f-string formatting of a non-negative int
  // ---------------------------------------------------------------------------

  predicate IsDigit(c: char) { '0' <= c <= '9' }

  function DigitChar(d: nat): (c: char)
    requires d < 10
    ensures IsDigit(c) && c as int - '0' as int == d
  {
    ('0' as int + d) as char
  }

  /** The decimal numeral of `n`. */
  function Decimal(n: nat): string
  {
    if n < 10 then [DigitChar(n)] else Decimal(n / 10) + [DigitChar(n % 10)]
  }

  /** A numeral is digits only, never empty, and has no leading zero. */
  lemma {:induction false} DecimalDigits(n: nat)
    ensures |Decimal(n)| >= 1
    ensures forall i :: 0 <= i < |Decimal(n)| ==> IsDigit(Decimal(n)[i])
    ensures Decimal(n)[0] == '0' ==> n == 0
  {
    if n >= 10 {
      DecimalDigits(n / 10);
      assert Decimal(n)[0] == Decimal(n / 10)[0];
    }
  }

  function DigitValue(c: char): nat
    requires IsDigit(c)
  {
    c as int - '0' as int
  }

  /** The value a string of decimal digits denotes. */
  function DigitsValue(s: string): nat
    requires forall i :: 0 <= i < |s| ==> IsDigit(s[i])
  {
    if s == [] then 0 else DigitsValue(s[..|s| - 1]) * 10 + DigitValue(s[|s| - 1])
  }

  /** Reading a numeral's digits gives back the number. */
  lemma {:induction false} DecimalRoundTrip(n: nat)
    ensures (forall i :: 0 <= i < |Decimal(n)| ==> IsDigit(Decimal(n)[i])) && DigitsValue(Decimal(n)) == n
  {
    DecimalDigits(n);
    if n >= 10 {
      var s := Decimal(n);
      assert s[..|s| - 1] == Decimal(n / 10);
      DecimalRoundTrip(n / 10);
    }
  }

  /** Length of the longest prefix of `s` made of digits. */
  function DigitRun(s: string): (k: nat)
    ensures k <= |s|
    ensures forall i :: 0 <= i < k ==> IsDigit(s[i])
    ensures k < |s| ==> !IsDigit(s[k])
  {
    if s == [] || !IsDigit(s[0]) then 0 else 1 + DigitRun(s[1..])
  }

  lemma {:induction false} DigitRunOfPrefix(d: string, rest: string)
    requires forall i :: 0 <= i < |d| ==> IsDigit(d[i])
    requires rest != [] && !IsDigit(rest[0])
    ensures DigitRun(d + rest) == |d|
  {
    if d != [] {
      assert (d + rest)[1..] == d[1..] + rest;
      DigitRunOfPrefix(d[1..], rest);
    }
  }

  /** Reads a decimal number at the front of `s`; returns it and what follows. */
  function ParseNat(s: string): (r: Option<(nat, string)>)
    ensures r.Some? ==> |r.value.1| < |s|
  {
    var k := DigitRun(s);
    if k == 0 then None else Some((DigitsValue(s[..k]), s[k..]))
  }

  lemma ParseNatDecimal(n: nat, rest: string)
    requires rest != [] && !IsDigit(rest[0])
    ensures ParseNat(Decimal(n) + rest) == Some((n, rest))
  {
    var d := Decimal(n);
    DecimalDigits(n);
    DigitRunOfPrefix(d, rest);
    assert (d + rest)[..|d|] == d;
    assert (d + rest)[|d|..] == rest;
    DecimalRoundTrip(n);
  }

  /** Consumes the literal `lit` at the front of `s`. */
  function Eat(lit: string, s: string): (r: Option<string>)
    ensures r.Some? ==> |r.value| == |s| - |lit|
  {
    if lit == [] then Some(s)
    else if s != [] && s[0] == lit[0] then Eat(lit[1..], s[1..])
    else None
  }

  lemma {:induction false} EatPrefix(lit: string, rest: string)
    ensures Eat(lit, lit + rest) == Some(rest)
  {
    if lit != [] {
      assert (lit + rest)[1..] == lit[1..] + rest;
      EatPrefix(lit[1..], rest);
    } else {
      assert lit + rest == rest;
    }
  }

  /** A literal is not consumed from a string that differs from it at some position. */
  lemma {:induction false} EatMismatch(lit: string, s: string, i: nat)
    requires i < |lit| && i < |s| && s[i] != lit[i]
    ensures Eat(lit, s).None?
  {
    if i > 0 && s[0] == lit[0] {
      EatMismatch(lit[1..], s[1..], i - 1);
    }
  }

  // ---------------------------------------------------------------------------
  // The 256-colour quantizer
  // ---------------------------------------------------------------------------

  /**
   * `int((x/255)*5+0.5)`: the index of the cube level 0, 51, ..., 255 nearest
   * to `x`.  The float expression never falls on a half, so it equals this
   * integer division.
   */
  function CubeLevel(x: Byte): (l: nat)
    ensures l <= 5
    ensures 51 * l - 25 <= x <= 51 * l + 25
  {
    (2 * x + 51) / 102
  }

  /**
   * `int((r-8)/247*24+0.5)` for a grey `r` in 8..248: the step of the
   * 24-step grey ramp nearest to `r` on the scale that maps 8..255 onto 0..24.
   */
  function GrayStep(r: int): (k: nat)
    requires 8 <= r <= 248
    ensures k <= 23
    ensures 494 * k - 247 <= 48 * (r - 8) < 494 * k + 247
  {
    (48 * (r - 8) + 247) / 494
  }

  /** `_rgb_to_ansi256`. */
  function Rgb256(c: Rgb): (code: int)
    ensures 16 <= code <= 255
  {
    if c.r == c.g && c.g == c.b then
      if c.r < 8 then 16
      else if c.r > 248 then 231
      else 232 + GrayStep(c.r)
    else
      16 + 36 * CubeLevel(c.r) + 6 * CubeLevel(c.g) + CubeLevel(c.b)
  }

  predicate IsNeutral(c: Rgb) { c.r == c.g && c.g == c.b }

  /** Neutral colours go to black (16), white (231) or the grey ramp 232..255. */
  lemma Rgb256Neutral(c: Rgb)
    requires IsNeutral(c)
    ensures c.r < 8 ==> Rgb256(c) == 16
    ensures c.r > 248 ==> Rgb256(c) == 231
    ensures 8 <= c.r <= 248 ==> 232 <= Rgb256(c) <= 255
  {
  }

  /**
   * Any other colour goes to the 6x6x6 cube, and the code decodes back to
   * the three channel levels.
   */
  lemma Rgb256Cube(c: Rgb)
    requires !IsNeutral(c)
    ensures 16 <= Rgb256(c) <= 231
    ensures (Rgb256(c) - 16) / 36 == CubeLevel(c.r)
    ensures (Rgb256(c) - 16) / 6 % 6 == CubeLevel(c.g)
    ensures (Rgb256(c) - 16) % 6 == CubeLevel(c.b)
  {
    var i := 36 * CubeLevel(c.r) + 6 * CubeLevel(c.g) + CubeLevel(c.b);
    assert i / 36 == CubeLevel(c.r);
    assert i / 6 == 6 * CubeLevel(c.r) + CubeLevel(c.g);
  }

  /** A channel value on grey step `k` of the ramp. */
  function GrayWitness(k: nat): (r: int)
    requires k <= 23
    ensures 8 <= r <= 248 && GrayStep(r) == k
  {
    if k == 0 then 8 else 8 + (494 * k - 200) / 48
  }

  /** The channel values that sit on cube level `l`; the second is off the level's centre. */
  lemma CubeLevelAt(l: nat)
    requires l <= 5
    ensures CubeLevel(51 * l) == l
    ensures l < 5 ==> CubeLevel(51 * l + 1) == l
    ensures CubeLevel(254) == 5
  {
  }

  /** A colour off the grey diagonal whose code is cube entry (rr, gg, bb). */
  function CubeWitness(rr: nat, gg: nat, bb: nat): (c: Rgb)
    requires rr <= 5 && gg <= 5 && bb <= 5
    ensures !IsNeutral(c)
    ensures CubeLevel(c.r) == rr && CubeLevel(c.g) == gg && CubeLevel(c.b) == bb
  {
    CubeLevelAt(rr);
    CubeLevelAt(gg);
    CubeLevelAt(bb);
    // an all-equal cube entry is reached by a slightly off-grey colour
    var b: Byte := if rr == gg == bb then (if bb < 5 then 51 * bb + 1 else 254) else 51 * bb;
    Rgb(51 * rr, 51 * gg, b)
  }

  /** A colour whose code is `code`: every palette entry 16..255 is reachable. */
  function Preimage(code: int): (c: Rgb)
    requires 16 <= code <= 255
    ensures Rgb256(c) == code
  {
    if code >= 232 then
      var v := GrayWitness(code - 232);
      Rgb(v, v, v)
    else
      var i := code - 16;
      var rr, gg, bb := i / 36, i / 6 % 6, i % 6;
      assert i == 36 * rr + 6 * gg + bb;
      CubeWitness(rr, gg, bb)
  }

  lemma Rgb256Surjective(code: int)
    requires 16 <= code <= 255
    ensures exists c :: Rgb256(c) == code
  {
    var c := Preimage(code);
    assert Rgb256(c) == code;
  }

  // ---------------------------------------------------------------------------
  // The SGR colour escapes
  // ---------------------------------------------------------------------------

  datatype Layer = Foreground | Background

  /** What the renderer compares between columns: an RGB triple or a palette code. */
  datatype Color = TrueColor(r: nat, g: nat, b: nat) | Indexed(code: nat)

  const FgTruePrefix: string := [Esc] + "[38;2;"
  const BgTruePrefix: string := [Esc] + "[48;2;"
  const Fg256Prefix: string := [Esc] + "[38;5;"
  const Bg256Prefix: string := [Esc] + "[48;5;"

  /** Characters that may occur in a colour escape. */
  predicate IsSgrChar(ch: char) { ch == Esc || ch == '[' || ch == ';' || ch == 'm' || IsDigit(ch) }

  predicate IsSgrString(s: string) { forall i :: 0 <= i < |s| ==> IsSgrChar(s[i]) }

  function Triple(r: nat, g: nat, b: nat): string
  {
    Decimal(r) + ";" + Decimal(g) + ";" + Decimal(b)
  }

  /** `_ansi_fg_true`. */
  function AnsiFgTrue(r: nat, g: nat, b: nat): string
  {
    FgTruePrefix + Triple(r, g, b) + "m"
  }

  /** `_ansi_bg_true`. */
  function AnsiBgTrue(r: nat, g: nat, b: nat): string
  {
    BgTruePrefix + Triple(r, g, b) + "m"
  }

  /** `_ansi_fg_256`. */
  function AnsiFg256(code: nat): string
  {
    Fg256Prefix + Decimal(code) + "m"
  }

  /** `_ansi_bg_256`. */
  function AnsiBg256(code: nat): string
  {
    Bg256Prefix + Decimal(code) + "m"
  }

  /** The escape that selects `color` for `layer`. */
  function ColorEscape(layer: Layer, color: Color): string
  {
    match (layer, color)
    case (Foreground, TrueColor(r, g, b)) => AnsiFgTrue(r, g, b)
    case (Background, TrueColor(r, g, b)) => AnsiBgTrue(r, g, b)
    case (Foreground, Indexed(c)) => AnsiFg256(c)
    case (Background, Indexed(c)) => AnsiBg256(c)
  }

  /** Every colour escape is ESC, then SGR characters only, ending in `m`. */
  lemma EscapeShape(layer: Layer, color: Color)
    ensures var s := ColorEscape(layer, color);
            |s| > 1 && s[0] == Esc && s[|s| - 1] == 'm' && IsSgrString(s)
  {
    match color
    case TrueColor(r, g, b) =>
      DecimalDigits(r);
      DecimalDigits(g);
      DecimalDigits(b);
    case Indexed(c) =>
      DecimalDigits(c);
  }

  function ParseTriple(s: string): (res: Option<(nat, nat, nat, string)>)
    ensures res.Some? ==> |res.value.3| < |s|
  {
    var r :- ParseNat(s);
    var t1 :- Eat(";", r.1);
    var g :- ParseNat(t1);
    var t2 :- Eat(";", g.1);
    var b :- ParseNat(t2);
    Some((r.0, g.0, b.0, b.1))
  }

  /** Reads one colour escape at the front of `s`; returns it and what follows. */
  function ParseColorEscape(s: string): (res: Option<(Layer, Color, string)>)
    ensures res.Some? ==> |res.value.2| < |s|
  {
    if Eat(FgTruePrefix, s).Some? || Eat(BgTruePrefix, s).Some? then
      var layer := if Eat(FgTruePrefix, s).Some? then Foreground else Background;
      var t :- ParseTriple(s[|FgTruePrefix|..]);
      var rest :- Eat("m", t.3);
      Some((layer, TrueColor(t.0, t.1, t.2), rest))
    else if Eat(Fg256Prefix, s).Some? || Eat(Bg256Prefix, s).Some? then
      var layer := if Eat(Fg256Prefix, s).Some? then Foreground else Background;
      var n :- ParseNat(s[|Fg256Prefix|..]);
      var rest :- Eat("m", n.1);
      Some((layer, Indexed(n.0), rest))
    else
      None
  }

  lemma ParseTripleOf(r: nat, g: nat, b: nat, rest: string)
    requires rest != [] && !IsDigit(rest[0])
    ensures ParseTriple(Triple(r, g, b) + rest) == Some((r, g, b, rest))
  {
    var dr, dg, db := Decimal(r), Decimal(g), Decimal(b);
    assert Triple(r, g, b) + rest == dr + (";" + (dg + (";" + (db + rest))));
    ParseNatDecimal(r, ";" + (dg + (";" + (db + rest))));
    EatPrefix(";", dg + (";" + (db + rest)));
    ParseNatDecimal(g, ";" + (db + rest));
    EatPrefix(";", db + rest);
    ParseNatDecimal(b, rest);
  }

  lemma ParseTrueColorRoundTrip(layer: Layer, r: nat, g: nat, b: nat, rest: string)
    ensures ParseColorEscape(ColorEscape(layer, TrueColor(r, g, b)) + rest)
            == Some((layer, TrueColor(r, g, b), rest))
  {
    var s := ColorEscape(layer, TrueColor(r, g, b)) + rest;
    var p := if layer == Foreground then FgTruePrefix else BgTruePrefix;
    var t := Triple(r, g, b) + ("m" + rest);
    assert s == p + t;
    EatPrefix(p, t);
    assert s[|FgTruePrefix|..] == t;
    if layer == Background {
      assert s[2] == p[2] == '4';
      EatMismatch(FgTruePrefix, s, 2);
    }
    ParseTripleOf(r, g, b, "m" + rest);
    EatPrefix("m", rest);
  }

  lemma ParseIndexedRoundTrip(layer: Layer, c: nat, rest: string)
    ensures ParseColorEscape(ColorEscape(layer, Indexed(c)) + rest) == Some((layer, Indexed(c), rest))
  {
    var s := ColorEscape(layer, Indexed(c)) + rest;
    var p := if layer == Foreground then Fg256Prefix else Bg256Prefix;
    var t := Decimal(c) + ("m" + rest);
    assert s == p + t;
    EatPrefix(p, t);
    assert s[|Fg256Prefix|..] == t;
    assert s[5] == p[5] == '5';
    EatMismatch(FgTruePrefix, s, 5);
    EatMismatch(BgTruePrefix, s, 5);
    if layer == Background {
      assert s[2] == p[2] == '4';
      EatMismatch(Fg256Prefix, s, 2);
    }
    ParseNatDecimal(c, "m" + rest);
    EatPrefix("m", rest);
  }

  /** Every colour escape reads back as the layer and colour it selects. */
  lemma ParseColorEscapeRoundTrip(layer: Layer, color: Color, rest: string)
    ensures ParseColorEscape(ColorEscape(layer, color) + rest) == Some((layer, color, rest))
  {
    match color
    case TrueColor(r, g, b) => ParseTrueColorRoundTrip(layer, r, g, b, rest);
    case Indexed(c) => ParseIndexedRoundTrip(layer, c, rest);
  }
}
