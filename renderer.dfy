/**
 * The software framebuffer: a width x height grid of RGBA pixels stored as
 * four bytes per pixel, row by row, and the drawing primitives that update
 * it in place.
 *
 * Every primitive is specified per pixel: a pixel of the canvas takes the
 * drawing colour (alpha 255) exactly when the primitive "covers" it, and
 * keeps its previous value otherwise. `Op` names a primitive call and
 * `Covers` gives the set of pixels it paints, so that a sequence of calls
 * is described by `Shade`: each pixel shows the colour of the last call
 * that covers it.
 */
module Raster {
  import opened Pixels
  import opened Glyphs
  import opened Arith

  /** The index of pixel (x, y) in a row-major grid `width` pixels wide. */
  function Cell(width: nat, x: int, y: int): int { y * width + x }

  /** Pixel indices of the grid lie in `[0, width * height)`. */
  lemma CellBound(width: nat, height: nat, x: int, y: int)
    requires 0 <= x < width && 0 <= y < height
    ensures 0 <= Cell(width, x, y) < width * height
  {
    assert y * width <= (height - 1) * width by {
      MulMono(y, height - 1, width);
    }
  }

  /** Two pixels of one grid row-width share an index only if they are the same pixel. */
  lemma CellInjective(width: nat, x: int, y: int, x': int, y': int)
    requires 0 <= x < width && 0 <= x' < width
    requires Cell(width, x, y) == Cell(width, x', y')
    ensures x == x' && y == y'
  {
    if y < y' {
      MulMono(y + 1, y', width);
      assert false;
    } else if y' < y {
      MulMono(y' + 1, y, width);
      assert false;
    }
  }

  /** Which of the four bytes of a pixel `k` (0..3) is, for colour `c` at alpha 255. */
  function Channel(c: Rgb, k: int): byte {
    if k == 0 then c.r else if k == 1 then c.g else if k == 2 then c.b else 255
  }

  /** The pixel (x, y) of a framebuffer whose bytes are `s`. */
  function PixelIn(s: seq<byte>, width: nat, height: nat, x: int, y: int): Rgba
    requires |s| == width * height * 4 && 0 <= x < width && 0 <= y < height
  {
    CellBound(width, height, x, y);
    var i := 4 * Cell(width, x, y);
    Rgba(s[i], s[i + 1], s[i + 2], s[i + 3])
  }

  predicate InRect(x: int, y: int, w: int, h: int, px: int, py: int) {
    x <= px < x + w && y <= py < y + h
  }

  /**
   * The per-axis distance past the straight edge used by `fillRoundRect`:
   * positive in the first and last `r` columns (or rows) of the box, else 0.
   */
  function CornerOffset(x: int, w: int, r: int, xx: int): int {
    if xx < x + r then x + r - xx
    else if xx >= x + w - r then xx - (x + w - r - 1)
    else 0
  }

  /** The pixels `fillRoundRect(x, y, w, h, r)` fills (before clipping to the canvas). */
  predicate RoundCovers(x: int, y: int, w: int, h: int, r: int, px: int, py: int) {
    && InRect(x, y, w, h, px, py)
    && var dx, dy := CornerOffset(x, w, r, px), CornerOffset(y, h, r, py);
       dx * dx + dy * dy <= r * r
  }

  /**
   * The pixels the glyph of `ch` sets when its cell starts at (cx, cy): each
   * set bit (gx, gy) becomes the scale x scale block at
   * (cx + gx * scale, cy + gy * scale).
   */
  predicate GlyphCovers(font: Font, ch: char, cx: int, cy: int, scale: int, px: int, py: int) {
    && scale > 0
    && cx <= px < cx + font.w * scale
    && cy <= py < cy + font.h * scale
    && font.bit(ch, (px - cx) / scale, (py - cy) / scale)
  }

  /** The horizontal advance per character of `drawText`. */
  function Advance(font: Font, scale: int, spacing: int): int {
    (font.w + spacing) * scale
  }

  /** The pixels `drawText(x, y, text, scale, _, spacing)` sets: the union of its glyphs. */
  predicate TextCovers(font: Font, text: string, x: int, y: int, scale: int, spacing: int, px: int, py: int)
    decreases |text|
  {
    && |text| > 0
    && var n := |text| - 1;
       || TextCovers(font, text[..n], x, y, scale, spacing, px, py)
       || GlyphCovers(font, text[n], x + n * Advance(font, scale, spacing), y, scale, px, py)
  }

  /** A call of one drawing primitive, with its arguments. */
  datatype Op =
    | Fill(c: Rgb)                                                     // clear
    | Rect(x: int, y: int, w: int, h: int, c: Rgb)                     // fillRect
    | Round(x: int, y: int, w: int, h: int, radius: int, c: Rgb)       // fillRoundRect
    | Text(x: int, y: int, text: string, scale: int, c: Rgb, spacing: int) // drawText

  /** Whether `op` paints pixel (px, py) of the canvas. */
  predicate Covers(font: Font, op: Op, px: int, py: int) {
    match op
    case Fill(_) => true
    case Rect(x, y, w, h, _) => InRect(x, y, w, h, px, py)
    case Round(x, y, w, h, r, _) => RoundCovers(x, y, w, h, r, px, py)
    case Text(x, y, t, s, _, sp) => TextCovers(font, t, x, y, s, sp, px, py)
  }

  /** The value of pixel (px, py) after the calls `ops`, in order, when it was `under` before. */
  function Shade(font: Font, ops: seq<Op>, px: int, py: int, under: Rgba): Rgba
    decreases |ops|
  {
    if ops == [] then under
    else
      var last := ops[|ops| - 1];
      if Covers(font, last, px, py) then Opaque(last.c)
      else Shade(font, ops[..|ops| - 1], px, py, under)
  }

  /** Painting `a` and then `b` is painting `a + b`. */
  lemma {:induction false} ShadeAppend(font: Font, a: seq<Op>, b: seq<Op>, px: int, py: int, under: Rgba)
    ensures Shade(font, a + b, px, py, under) == Shade(font, b, px, py, Shade(font, a, px, py, under))
    decreases |b|
  {
    if b == [] {
      assert a + b == a;
    } else {
      var n := |b| - 1;
      assert (a + b)[..|a + b| - 1] == a + b[..n];
      ShadeAppend(font, a, b[..n], px, py, under);
    }
  }

  /** A call sequence that starts with a clear does not depend on what was there before. */
  lemma ShadeAfterFill(font: Font, ops: seq<Op>, px: int, py: int, under: Rgba, under': Rgba)
    requires |ops| > 0 && ops[0].Fill?
    ensures Shade(font, ops, px, py, under) == Shade(font, ops, px, py, under')
  {
    assert ops == [ops[0]] + ops[1..];
    ShadeAppend(font, [ops[0]], ops[1..], px, py, under);
    ShadeAppend(font, [ops[0]], ops[1..], px, py, under');
    assert Shade(font, [ops[0]], px, py, under) == Shade(font, [ops[0]], px, py, under') by {
      assert [ops[0]][..0] == [];
    }
  }

  /** A rounded rectangle of radius 0 fills exactly its rectangle. */
  lemma RoundZeroIsRect(x: int, y: int, w: int, h: int, px: int, py: int)
    ensures RoundCovers(x, y, w, h, 0, px, py) <==> InRect(x, y, w, h, px, py)
  {
  }

  /**
   * The pixels of the glyph of `ch` at (cx, cy) whose cell `(gy', gx')`
   * comes before `(gy, gx)` in row-major order.
   */
  predicate GlyphBefore(font: Font, ch: char, cx: int, cy: int, scale: int, gy: int, gx: int, px: int, py: int) {
    && GlyphCovers(font, ch, cx, cy, scale, px, py)
    && var ry, rx := (py - cy) / scale, (px - cx) / scale;
       ry < gy || (ry == gy && rx < gx)
  }

  /** Cell (gy, gx) of the glyph adds its block when its bit is set. */
  lemma GlyphStep(font: Font, ch: char, cx: int, cy: int, scale: int, gy: int, gx: int, px: int, py: int)
    requires 0 <= gy < font.h && 0 <= gx < font.w
    ensures GlyphBefore(font, ch, cx, cy, scale, gy, gx + 1, px, py) <==>
      GlyphBefore(font, ch, cx, cy, scale, gy, gx, px, py) ||
      (font.bit(ch, gx, gy) && InRect(cx + gx * scale, cy + gy * scale, scale, scale, px, py))
  {
    if scale > 0 {
      DivBlock(px - cx, gx, scale);
      DivBlock(py - cy, gy, scale);
      MulMono(gx + 1, font.w, scale);
      MulMono(gy + 1, font.h, scale);
      MulMono(0, gx, scale);
      MulMono(0, gy, scale);
    }
  }

  /** Finishing row `gy` is starting row `gy + 1`; past the last row the whole glyph is done. */
  lemma GlyphRow(font: Font, ch: char, cx: int, cy: int, scale: int, gy: int, px: int, py: int)
    requires 0 <= gy <= font.h
    ensures gy < font.h ==> (GlyphBefore(font, ch, cx, cy, scale, gy, font.w, px, py) <==>
      GlyphBefore(font, ch, cx, cy, scale, gy + 1, 0, px, py))
    ensures gy == font.h ==> (GlyphBefore(font, ch, cx, cy, scale, gy, 0, px, py) <==>
      GlyphCovers(font, ch, cx, cy, scale, px, py))
  {
    if GlyphCovers(font, ch, cx, cy, scale, px, py) {
      var ry, rx := (py - cy) / scale, (px - cx) / scale;
      DivBlock(px - cx, rx, scale);
      DivBlock(py - cy, ry, scale);
      if rx >= font.w { MulMono(font.w, rx, scale); }
      if ry >= font.h { MulMono(font.h, ry, scale); }
    }
  }

  /**
   * Text with non-negative spacing stays in the box
   * `[x, x + n * advance) x [y, y + FONT_H * scale)` of its n characters.
   */
  lemma {:induction false} TextWithin(font: Font, text: string, x: int, y: int, scale: int, spacing: int, px: int, py: int)
    requires spacing >= 0
    requires TextCovers(font, text, x, y, scale, spacing, px, py)
    ensures x <= px < x + |text| * Advance(font, scale, spacing)
    ensures y <= py < y + font.h * scale
    decreases |text|
  {
    var n := |text| - 1;
    var step := Advance(font, scale, spacing);
    assert scale > 0 ==> step >= font.w * scale by {
      if scale > 0 { MulMono(font.w, font.w + spacing, scale); }
    }
    if TextCovers(font, text[..n], x, y, scale, spacing, px, py) {
      TextWithin(font, text[..n], x, y, scale, spacing, px, py);
      assert scale > 0;
      MulMono(n, n + 1, step);
    } else {
      assert GlyphCovers(font, text[n], x + n * step, y, scale, px, py);
      assert (n + 1) * step == n * step + step;
      MulMono(0, n, step);
    }
  }

  class Renderer {
    const width: nat
    const height: nat
    const data: array<byte>

    /** Four bytes per pixel. */
    ghost predicate Valid() {
      data.Length == width * height * 4
    }

    predicate InCanvas(x: int, y: int) {
      0 <= x < width && 0 <= y < height
    }

    ghost function Pixel(x: int, y: int): Rgba
      reads data
      requires Valid() && InCanvas(x, y)
    {
      PixelIn(data[..], width, height, x, y)
    }

    /** A width x height canvas of zero bytes. */
    constructor (width: nat, height: nat)
      ensures this.width == width && this.height == height
      ensures Valid() && fresh(data)
      ensures forall i :: 0 <= i < data.Length ==> data[i] == 0
    {
      this.width := width;
      this.height := height;
      this.data := new byte[width * height * 4](_ => 0);
    }

    /** Every pixel becomes `c` at alpha 255. */
    method Clear(c: Rgb)
      requires Valid()
      modifies data
      ensures forall i :: 0 <= i < data.Length ==> data[i] == Channel(c, i % 4)
      ensures forall x, y :: InCanvas(x, y) ==> Pixel(x, y) == Opaque(c)
    {
      assert data.Length % 4 == 0;
      var i := 0;
      while i < data.Length
        invariant 0 <= i <= data.Length && i % 4 == 0
        invariant forall j :: 0 <= j < i ==> data[j] == Channel(c, j % 4)
      {
        data[i] := c.r;
        data[i + 1] := c.g;
        data[i + 2] := c.b;
        data[i + 3] := 255;
        i := i + 4;
      }
      forall x, y | InCanvas(x, y)
        ensures Pixel(x, y) == Opaque(c)
      {
        CellBound(width, height, x, y);
      }
    }

    /** Writes the four bytes of pixel (x, y), which start at byte `i`. */
    method Put(x: int, y: int, i: int, c: Rgb)
      requires Valid() && InCanvas(x, y) && i == 4 * Cell(width, x, y)
      modifies data
      ensures 0 <= i && i + 3 < data.Length
      ensures data[..] == old(data[..])[i := c.r][i + 1 := c.g][i + 2 := c.b][i + 3 := 255]
      ensures forall px, py :: InCanvas(px, py) ==>
        Pixel(px, py) == if px == x && py == y then Opaque(c) else old(Pixel(px, py))
    {
      CellBound(width, height, x, y);
      data[i] := c.r;
      data[i + 1] := c.g;
      data[i + 2] := c.b;
      data[i + 3] := 255;
      forall px, py | InCanvas(px, py)
        ensures Pixel(px, py) == if px == x && py == y then Opaque(c) else old(Pixel(px, py))
      {
        CellBound(width, height, px, py);
        if Cell(width, px, py) == Cell(width, x, y) {
          CellInjective(width, px, py, x, y);
        }
      }
    }

    /** Bounds-checked: outside the canvas nothing changes. */
    method SetPixel(x: int, y: int, c: Rgb)
      requires Valid()
      modifies data
      ensures !InCanvas(x, y) ==> data[..] == old(data[..])
      ensures InCanvas(x, y) ==>
        var i := 4 * Cell(width, x, y);
        0 <= i && i + 3 < data.Length &&
        data[..] == old(data[..])[i := c.r][i + 1 := c.g][i + 2 := c.b][i + 3 := 255]
      ensures forall px, py :: InCanvas(px, py) ==>
        Pixel(px, py) == if px == x && py == y then Opaque(c) else old(Pixel(px, py))
    {
      if x < 0 || y < 0 || x >= width || y >= height {
        return;
      }
      var i := (y * width + x) * 4;
      Put(x, y, i, c);
    }

    /** Fills the rectangle clipped to `[max(0,x), min(width,x+w)) x [max(0,y), min(height,y+h))`. */
    method FillRect(x: int, y: int, w: int, h: int, c: Rgb)
      requires Valid()
      modifies data
      ensures forall px, py :: InCanvas(px, py) ==>
        Pixel(px, py) == if InRect(x, y, w, h, px, py) then Opaque(c) else old(Pixel(px, py))
    {
      var x0 := Max(0, x);
      var y0 := Max(0, y);
      var x1 := Min(width, x + w);
      var y1 := Min(height, y + h);
      var yy := y0;
      while yy < y1
        invariant y0 <= yy <= Max(y0, y1)
        invariant forall px, py :: InCanvas(px, py) ==>
          Pixel(px, py) == if x0 <= px < x1 && y0 <= py < yy then Opaque(c) else old(Pixel(px, py))
      {
        var row := (yy * width + x0) * 4;
        var xx := x0;
        while xx < x1
          invariant x0 <= xx <= Max(x0, x1)
          invariant row == 4 * Cell(width, xx, yy)
          invariant forall px, py :: InCanvas(px, py) ==>
            Pixel(px, py) == if x0 <= px < x1 && (y0 <= py < yy || (py == yy && px < xx))
                             then Opaque(c) else old(Pixel(px, py))
        {
          Put(xx, yy, row, c);
          row := row + 4;
          xx := xx + 1;
        }
        yy := yy + 1;
      }
    }

    /** Fills the pixels of the box whose squared corner distance is at most r * r. */
    method FillRoundRect(x: int, y: int, w: int, h: int, r: int, c: Rgb)
      requires Valid()
      modifies data
      ensures forall px, py :: InCanvas(px, py) ==>
        Pixel(px, py) == if RoundCovers(x, y, w, h, r, px, py) then Opaque(c) else old(Pixel(px, py))
    {
      var r2 := r * r;
      var yy := y;
      while yy < y + h
        invariant y <= yy <= Max(y, y + h)
        invariant forall px, py :: InCanvas(px, py) ==>
          Pixel(px, py) == if RoundCovers(x, y, w, h, r, px, py) && py < yy
                           then Opaque(c) else old(Pixel(px, py))
      {
        var xx := x;
        while xx < x + w
          invariant x <= xx <= Max(x, x + w)
          invariant forall px, py :: InCanvas(px, py) ==>
            Pixel(px, py) == if RoundCovers(x, y, w, h, r, px, py) && (py < yy || (py == yy && px < xx))
                             then Opaque(c) else old(Pixel(px, py))
        {
          var dx := if xx < x + r then x + r - xx else if xx >= x + w - r then xx - (x + w - r - 1) else 0;
          var dy := if yy < y + r then y + r - yy else if yy >= y + h - r then yy - (y + h - r - 1) else 0;
          if dx * dx + dy * dy <= r2 {
            SetPixel(xx, yy, c);
          }
          xx := xx + 1;
        }
        yy := yy + 1;
      }
    }

    /** The innermost `sy`/`sx` loops of `drawText`: one scale x scale block through setPixel. */
    method Block(ox: int, oy: int, scale: int, c: Rgb)
      requires Valid()
      modifies data
      ensures forall px, py :: InCanvas(px, py) ==>
        Pixel(px, py) == if InRect(ox, oy, scale, scale, px, py) then Opaque(c) else old(Pixel(px, py))
    {
      var sy := 0;
      while sy < scale
        invariant 0 <= sy <= Max(0, scale)
        invariant forall px, py :: InCanvas(px, py) ==>
          Pixel(px, py) == if InRect(ox, oy, scale, sy, px, py) then Opaque(c) else old(Pixel(px, py))
      {
        var sx := 0;
        while sx < scale
          invariant 0 <= sx <= scale
          invariant forall px, py :: InCanvas(px, py) ==>
            Pixel(px, py) == if InRect(ox, oy, scale, sy, px, py) || (py == oy + sy && ox <= px < ox + sx)
                             then Opaque(c) else old(Pixel(px, py))
        {
          SetPixel(ox + sx, oy + sy, c);
          sx := sx + 1;
        }
        sy := sy + 1;
      }
    }

    /** The `gy`/`gx` loops of `drawText` for one character. */
    method Glyph(font: Font, ch: char, cx: int, cy: int, scale: int, c: Rgb)
      requires Valid()
      modifies data
      ensures forall px, py :: InCanvas(px, py) ==>
        Pixel(px, py) == if GlyphCovers(font, ch, cx, cy, scale, px, py) then Opaque(c) else old(Pixel(px, py))
    {
      var gy := 0;
      while gy < font.h
        invariant 0 <= gy <= font.h
        invariant forall px, py :: InCanvas(px, py) ==>
          Pixel(px, py) == if GlyphBefore(font, ch, cx, cy, scale, gy, 0, px, py) then Opaque(c) else old(Pixel(px, py))
      {
        var gx := 0;
        while gx < font.w
          invariant 0 <= gx <= font.w
          invariant forall px, py :: InCanvas(px, py) ==>
            Pixel(px, py) == if GlyphBefore(font, ch, cx, cy, scale, gy, gx, px, py) then Opaque(c) else old(Pixel(px, py))
        {
          forall px, py | InCanvas(px, py) {
            GlyphStep(font, ch, cx, cy, scale, gy, gx, px, py);
          }
          if font.bit(ch, gx, gy) {
            Block(cx + gx * scale, cy + gy * scale, scale, c);
          }
          gx := gx + 1;
        }
        forall px, py | InCanvas(px, py) {
          GlyphRow(font, ch, cx, cy, scale, gy, px, py);
        }
        gy := gy + 1;
      }
      forall px, py | InCanvas(px, py) {
        GlyphRow(font, ch, cx, cy, scale, font.h, px, py);
      }
    }

    /** Blits each character's glyph, advancing the cursor by (FONT_W + spacing) * scale. */
    method DrawText(font: Font, x: int, y: int, text: string, scale: int, c: Rgb, spacing: int)
      requires Valid()
      modifies data
      ensures forall px, py :: InCanvas(px, py) ==>
        Pixel(px, py) == if TextCovers(font, text, x, y, scale, spacing, px, py) then Opaque(c) else old(Pixel(px, py))
    {
      var cursorX := x;
      var step := (font.w + spacing) * scale;
      var i := 0;
      while i < |text|
        invariant 0 <= i <= |text|
        invariant cursorX == x + i * step
        invariant forall px, py :: InCanvas(px, py) ==>
          Pixel(px, py) == if TextCovers(font, text[..i], x, y, scale, spacing, px, py) then Opaque(c) else old(Pixel(px, py))
      {
        Glyph(font, text[i], cursorX, y, scale, c);
        assert text[..i + 1][..i] == text[..i];
        cursorX := cursorX + step;
        i := i + 1;
      }
      assert text[..|text|] == text;
    }

    /** Performs the primitive call `op`. */
    method Draw(font: Font, op: Op)
      requires Valid()
      modifies data
      ensures forall px, py :: InCanvas(px, py) ==>
        Pixel(px, py) == if Covers(font, op, px, py) then Opaque(op.c) else old(Pixel(px, py))
    {
      match op
      case Fill(c) => Clear(c);
      case Rect(x, y, w, h, c) => FillRect(x, y, w, h, c);
      case Round(x, y, w, h, r, c) => FillRoundRect(x, y, w, h, r, c);
      case Text(x, y, t, s, c, sp) => DrawText(font, x, y, t, s, c, sp);
    }
  }
}
