/** Colour values shared by the palette, the renderer and the compositor. */
module Pixels {

  /** One channel of a colour, or one cell of the RGBA framebuffer. */
  type byte = x: int | 0 <= x < 256

  /** A colour triple `[r, g, b]` as the renderer takes it. */
  datatype Rgb = Rgb(r: byte, g: byte, b: byte)

  /** One framebuffer pixel: the four bytes starting at a multiple of four. */
  datatype Rgba = Rgba(r: byte, g: byte, b: byte, a: byte)

  /** Every drawing operation writes its colour with alpha 255. */
  function Opaque(c: Rgb): Rgba {
    Rgba(c.r, c.g, c.b, 255)
  }
}
