/** Screen geometry, colours and the framebuffer layout of the 84x48 panel (lcd5110.h). */
module Geometry {

  /** The C `uint8_t` used for coordinates and dirty-box bounds. */
  type uint8 = x: int | 0 <= x < 256

  const Width: nat := 84
  const Height: nat := 48

  /** Size of the handle's `buffer` field: one bit per pixel. */
  const BufferSize: nat := Width * Height / 8

  /** Number of 8-row pages the buffer is divided into. */
  const PageCount: nat := Height / 8

  /** `LCD_color`: WHITE is 0, BLACK the next enumerator. */
  datatype Color = White | Black

  /** The integer value C gives each enumerator; WHITE alone is zero. */
  function ColorCode(c: Color): (v: uint8)
    ensures v < 2
    ensures v == 0 <==> c == White
  {
    match c
    case White => 0
    case Black => 1
  }

  /** The buffer holds 504 bytes: 6 whole pages of 84 one-column bytes. */
  lemma BufferLayout()
    ensures BufferSize == 504 && PageCount == 6
    ensures Height % 8 == 0 && BufferSize == PageCount * Width
  {
  }

  /**
   * Byte that holds pixel (x, y): column x of page y / 8. The ensures
   * invert the index: it lies inside the buffer, its page is y / 8 and its
   * column is x.
   */
  function PixelIndex(x: int, y: int): (i: nat)
    requires 0 <= x < Width && 0 <= y < Height
    ensures i < BufferSize
    ensures i / Width == y / 8 && i % Width == x
  {
    x + (y / 8) * Width
  }

  /** Bit of that byte that holds pixel (x, y). */
  function PixelBit(y: int): (k: nat)
    requires 0 <= y
    ensures k < 8 && 8 * (y / 8) + k == y
  {
    y % 8
  }

  /** Distinct pixels never share a byte and a bit. */
  lemma {:induction false} PixelAddressInjective(x1: int, y1: int, x2: int, y2: int)
    requires 0 <= x1 < Width && 0 <= y1 < Height
    requires 0 <= x2 < Width && 0 <= y2 < Height
    requires PixelIndex(x1, y1) == PixelIndex(x2, y2) && PixelBit(y1) == PixelBit(y2)
    ensures x1 == x2 && y1 == y2
  {
    var i := PixelIndex(x1, y1);
    assert y1 / 8 == i / Width == y2 / 8;
    assert y1 == 8 * (y1 / 8) + PixelBit(y1);
    assert y2 == 8 * (y2 / 8) + PixelBit(y2);
  }

  /** Page p occupies bytes [84 p, 84 p + 84): every byte index in it belongs to a pixel of that page. */
  lemma PageBytes(p: int, i: int)
    requires 0 <= p < PageCount && Width * p <= i < Width * p + Width
    ensures 0 <= i - Width * p < Width && PixelIndex(i - Width * p, 8 * p) == i
  {
  }
}
