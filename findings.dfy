/**
 * The coordinate clamp of `LCD_setPixel` as written: a coordinate past the
 * screen is pulled back to the screen's width or height, one past the last
 * column or row. The corrected clamp (`Framebuffer.ClampX`, `ClampY`) is
 * the one `Lcd5110.Display.SetPixel` uses.
 */
module Findings {
  import opened Geometry
  import opened Framebuffer
  import opened Dirty

  /** `if (v > limit) v = limit;` */
  function ClampAsWritten(v: uint8, limit: uint8): (r: uint8)
    ensures r <= limit && r <= v
    ensures v <= limit ==> r == v
    ensures v > limit ==> r == limit
  {
    if v > limit then limit else v
  }

  /** The buffer index `LCD_setPixel` computes after its clamp. */
  function IndexAsWritten(x: uint8, y: uint8): nat
  {
    var cx := ClampAsWritten(x, Width);
    var cy := ClampAsWritten(y, Height);
    cx + (cy / 8) * Width
  }

  /**
   * The index stays inside the 504-byte buffer exactly when the row is on
   * screen and, for a column past the edge, the row is not on the last page.
   */
  lemma {:induction false} IndexAsWrittenInBounds(x: uint8, y: uint8)
    ensures IndexAsWritten(x, y) < BufferSize <==> y < Height && (x < Width || y < Height - 8)
  {
    var cx := ClampAsWritten(x, Width);
    var cy := ClampAsWritten(y, Height);
    assert cx <= Width && cy <= Height;
    if y >= Height {
      assert cy == Height && cy / 8 == PageCount;
      assert IndexAsWritten(x, y) >= BufferSize;
    } else if x >= Width {
      assert cx == Width && cy == y;
      assert IndexAsWritten(x, y) == Width * (y / 8 + 1);
      if y < Height - 8 {
        assert y / 8 + 1 <= PageCount - 1;
      } else {
        assert y / 8 + 1 == PageCount;
      }
    } else {
      assert cx == x && cy == y;
      assert IndexAsWritten(x, y) == PixelIndex(x, y);
    }
  }

  /** The bottom-right corner past the screen writes byte 588 of a 504-byte buffer. */
  lemma CornerOverruns()
    ensures IndexAsWritten(Width, Height) == 588 && 588 >= BufferSize
  {
  }

  /**
   * A column past the right edge lands on column 0 of the next page, on the
   * same bit: drawing at (x, y) with x >= 84 changes pixel (0, y + 8).
   */
  lemma {:induction false} ColumnPastEdgeAliases(x: uint8, y: uint8)
    requires x >= Width && y < Height - 8
    ensures IndexAsWritten(x, y) == PixelIndex(0, y + 8)
    ensures y % 8 == PixelBit(y + 8)
  {
    assert ClampAsWritten(x, Width) == Width && ClampAsWritten(y, Height) == y;
    assert (y + 8) / 8 == y / 8 + 1;
  }

  /**
   * The dirty box that the clamp as written leaves behind makes `LCD_update`
   * read past what it should: a column past the edge is recorded as 84, so
   * the burst of the last page ends one byte past the buffer; a row past
   * the edge is recorded as 48, so the page loop reaches page 6, whose first
   * byte is already past the buffer.
   */
  lemma {:induction false} AsWrittenBoxOverreads(idle: Region, x: uint8, y: uint8)
    requires !idle.required
    ensures var r := Include(idle, ClampAsWritten(x, Width), ClampAsWritten(y, Height));
      (x >= Width ==> r.minX == r.maxX == Width && Width * (PageCount - 1) + r.maxX + 1 == BufferSize + 1) &&
      (y >= Height ==> r.maxY / 8 == PageCount && Width * (r.maxY / 8) == BufferSize)
  {
    var r := Include(idle, ClampAsWritten(x, Width), ClampAsWritten(y, Height));
    if y >= Height {
      assert r.maxY == Height;
    }
  }

  /** On the screen the two clamps agree: the correction changes nothing there. */
  lemma {:induction false} ClampsAgreeOnScreen(x: uint8, y: uint8)
    requires x < Width && y < Height
    ensures ClampAsWritten(x, Width) == ClampX(x) && ClampAsWritten(y, Height) == ClampY(y)
    ensures IndexAsWritten(x, y) == PixelIndex(ClampX(x), ClampY(y))
  {
  }
}
