/**
 * The bitmap font the renderer and the compositor draw with. Its glyph table
 * is not part of this model, so a font is a value handed to the operations
 * that need it: any font with positive cell dimensions will do.
 */
module Glyphs {

  type Pos = n: int | n > 0 witness 1

  /**
   * `w` and `h` are FONT_W and FONT_H; `bit(ch, gx, gy)` says whether row
   * `gy`, column `gx` of the glyph for `ch` is set; `textWidth(text, scale,
   * spacing)` is the font's own width measure used for layout.
   */
  datatype Font = Font(
    w: Pos,
    h: Pos,
    bit: (char, int, int) -> bool,
    textWidth: (string, int, int) -> int)
}
