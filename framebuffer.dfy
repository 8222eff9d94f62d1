/** The pixel view of the 504-byte framebuffer and the single-pixel write of `LCD_setPixel`. */
module Framebuffer {
  import opened Geometry
  import opened Bits

  /**
   * Coordinate clamp of `LCD_setPixel`, corrected to the last column: x
   * values on or past the right edge become 83, others are kept.
   */
  function ClampX(x: uint8): (r: uint8)
    ensures r < Width
    ensures x < Width ==> r == x
    ensures x >= Width ==> r == Width - 1
  {
    if x >= Width then Width - 1 else x
  }

  /** Coordinate clamp of `LCD_setPixel`, corrected to the last row: y values on or past the bottom edge become 47. */
  function ClampY(y: uint8): (r: uint8)
    ensures r < Height
    ensures y < Height ==> r == y
    ensures y >= Height ==> r == Height - 1
  {
    if y >= Height then Height - 1 else y
  }

  /** Whether pixel (x, y) of buffer `buf` is black. */
  predicate Pixel(buf: seq<bv8>, x: int, y: int)
    requires |buf| == BufferSize && 0 <= x < Width && 0 <= y < Height
  {
    Bit(buf[PixelIndex(x, y)], PixelBit(y))
  }

  /** The byte `b` with the bit of row y set for BLACK and cleared for WHITE. */
  function Paint(b: bv8, k: nat, color: Color): (r: bv8)
    requires k < 8
    ensures Bit(r, k) <==> color == Black
    ensures forall j :: 0 <= j < 8 && j != k ==> (Bit(r, j) <==> Bit(b, j))
  {
    if color == Black then SetBit(b, k) else ClearBit(b, k)
  }

  /** Paint's contract pins the byte down: any byte with those eight bits is the painted one. */
  lemma PaintUnique(b: bv8, k: nat, color: Color, r: bv8)
    requires k < 8
    requires Bit(r, k) <==> color == Black
    requires forall j :: 0 <= j < 8 && j != k ==> (Bit(r, j) <==> Bit(b, j))
    ensures r == Paint(b, k, color)
  {
    BitsDetermineByte(r, Paint(b, k, color));
  }

  /**
   * The buffer after drawing pixel (x, y) in `color`: that pixel reads back
   * as the colour, every other pixel keeps its value, and only the one byte
   * holding the pixel may differ.
   */
  function WritePixel(buf: seq<bv8>, x: int, y: int, color: Color): (r: seq<bv8>)
    requires |buf| == BufferSize && 0 <= x < Width && 0 <= y < Height
    ensures |r| == BufferSize
    ensures Pixel(r, x, y) <==> color == Black
    ensures forall i :: 0 <= i < BufferSize && i != PixelIndex(x, y) ==> r[i] == buf[i]
    ensures forall x2, y2 :: 0 <= x2 < Width && 0 <= y2 < Height && (x2 != x || y2 != y) ==>
              (Pixel(r, x2, y2) <==> Pixel(buf, x2, y2))
  {
    var i := PixelIndex(x, y);
    var r := buf[i := Paint(buf[i], PixelBit(y), color)];
    assert forall x2, y2 :: 0 <= x2 < Width && 0 <= y2 < Height && (x2 != x || y2 != y) ==>
              (Pixel(r, x2, y2) <==> Pixel(buf, x2, y2)) by {
      forall x2, y2 | 0 <= x2 < Width && 0 <= y2 < Height && (x2 != x || y2 != y)
        ensures Pixel(r, x2, y2) <==> Pixel(buf, x2, y2)
      {
        if PixelIndex(x2, y2) == i && PixelBit(y2) == PixelBit(y) {
          PixelAddressInjective(x2, y2, x, y);
        }
      }
    }
    r
  }

  /** Painting a bit twice leaves the byte as painting it once with the later colour. */
  lemma PaintOverwrites(b: bv8, k: nat, c1: Color, c2: Color)
    requires k < 8
    ensures Paint(Paint(b, k, c1), k, c2) == Paint(b, k, c2)
  {
    if c2 == Black {
      SetBitAbsorbs(b, k);
    } else {
      ClearBitAbsorbs(b, k);
    }
  }

  /** Drawing the same pixel twice in a row is the same as drawing it once with the later colour. */
  lemma {:induction false} WritePixelOverwrites(buf: seq<bv8>, x: int, y: int, c1: Color, c2: Color)
    requires |buf| == BufferSize && 0 <= x < Width && 0 <= y < Height
    ensures WritePixel(WritePixel(buf, x, y, c1), x, y, c2) == WritePixel(buf, x, y, c2)
  {
    var i := PixelIndex(x, y);
    var k := PixelBit(y);
    var mid := WritePixel(buf, x, y, c1);
    assert mid == buf[i := Paint(buf[i], k, c1)];
    assert WritePixel(mid, x, y, c2) == mid[i := Paint(mid[i], k, c2)];
    PaintOverwrites(buf[i], k, c1, c2);
    assert mid[i := Paint(mid[i], k, c2)] == buf[i := Paint(buf[i], k, c2)];
  }
}
