/**
 * The dirty rectangle of the handle (`update_required`, `update_min_x`,
 * `update_min_y`, `update_max_x`, `update_max_y`) as a value, and how a
 * pixel write grows it.
 */
module Dirty {
  import opened Geometry
  import opened Bits

  datatype Region = Region(required: bool, minX: uint8, minY: uint8, maxX: uint8, maxY: uint8)
  {
    /** Whether (x, y) lies inside the inclusive bounds. */
    predicate Contains(x: int, y: int) {
      minX <= x <= maxX && minY <= y <= maxY
    }

    /** A pending region is a non-empty rectangle of on-screen pixels; an idle one says nothing. */
    predicate Valid() {
      required ==> minX <= maxX < Width && minY <= maxY < Height
    }
  }

  datatype Point = Point(x: uint8, y: uint8)

  /**
   * The region after a pixel write at (x, y): pending, containing the pixel
   * and (when one was pending) the previous rectangle, and no larger than
   * that, since every bound is either the pixel's coordinate or the
   * previous bound. From an idle region it is exactly the point.
   */
  function Include(r: Region, x: uint8, y: uint8): (r': Region)
    ensures r'.required && r'.Contains(x, y)
    ensures r'.minX <= r'.maxX && r'.minY <= r'.maxY
    ensures !r.required ==> r'.minX == r'.maxX == x && r'.minY == r'.maxY == y
    ensures r.required ==> r'.minX <= r.minX && r.maxX <= r'.maxX && r'.minY <= r.minY && r.maxY <= r'.maxY
    ensures r.required ==> (r'.minX == r.minX || r'.minX == x) && (r'.maxX == r.maxX || r'.maxX == x)
    ensures r.required ==> (r'.minY == r.minY || r'.minY == y) && (r'.maxY == r.maxY || r'.maxY == y)
    ensures r.Valid() && x < Width && y < Height ==> r'.Valid()
  {
    if !r.required then
      Region(true, x, y, x, y)
    else
      Region(true, Min(x, r.minX), Min(y, r.minY), Max(x, r.maxX), Max(y, r.maxY))
  }

  /** The region after writing the pixels `pts` in order, starting from `r`. */
  function IncludeAll(r: Region, pts: seq<Point>): Region
  {
    if pts == [] then r else Include(IncludeAll(r, pts[..|pts| - 1]), pts[|pts| - 1].x, pts[|pts| - 1].y)
  }

  /** Widening never shrinks: every pixel of a pending region stays covered. */
  lemma {:induction false} IncludeAllMonotone(r: Region, pts: seq<Point>, x: int, y: int)
    requires r.required && r.Contains(x, y)
    ensures IncludeAll(r, pts).required && IncludeAll(r, pts).Contains(x, y)
  {
    if pts != [] {
      IncludeAllMonotone(r, pts[..|pts| - 1], x, y);
    }
  }

  /**
   * After a flush (nothing pending), a run of pixel writes leaves exactly
   * the smallest rectangle holding every written pixel: each pixel is
   * inside, and each of the four bounds is the coordinate of some pixel.
   */
  lemma {:induction false} IncludeAllIsBoundingBox(r: Region, pts: seq<Point>)
    requires !r.required && pts != []
    ensures IncludeAll(r, pts).required
    ensures forall i :: 0 <= i < |pts| ==> IncludeAll(r, pts).Contains(pts[i].x, pts[i].y)
    ensures exists i :: 0 <= i < |pts| && pts[i].x == IncludeAll(r, pts).minX
    ensures exists i :: 0 <= i < |pts| && pts[i].x == IncludeAll(r, pts).maxX
    ensures exists i :: 0 <= i < |pts| && pts[i].y == IncludeAll(r, pts).minY
    ensures exists i :: 0 <= i < |pts| && pts[i].y == IncludeAll(r, pts).maxY
  {
    var n := |pts| - 1;
    var last := pts[n];
    if n == 0 {
      assert pts[0] == last;
    } else {
      var prefix := pts[..n];
      IncludeAllIsBoundingBox(r, prefix);
      var before := IncludeAll(r, prefix);
      forall i | 0 <= i < n
        ensures IncludeAll(r, pts).Contains(pts[i].x, pts[i].y)
      {
        assert prefix[i] == pts[i];
      }
      var i0 :| 0 <= i0 < n && prefix[i0].x == before.minX;
      var i1 :| 0 <= i1 < n && prefix[i1].x == before.maxX;
      var i2 :| 0 <= i2 < n && prefix[i2].y == before.minY;
      var i3 :| 0 <= i3 < n && prefix[i3].y == before.maxY;
      assert pts[i0] == prefix[i0] && pts[i1] == prefix[i1] && pts[i2] == prefix[i2] && pts[i3] == prefix[i3];
    }
  }
}
