/** Integer model of the CoreGraphics geometry that the selection view relies on:
    points, rectangles that may have a negative width or height, standardization,
    point containment and rectangle intersection. */
module Geometry {

  datatype Point = Point(x: int, y: int)
  datatype Size = Size(width: int, height: int)

  /** A rectangle as CoreGraphics stores it: an origin and a size, where either
      size component may be negative (the origin is then not the minimum corner). */
  datatype Rect = Rect(origin: Point, size: Size)

  /** `CGRectZero`. */
  const ZeroRect := Rect(Point(0, 0), Size(0, 0))

  function Min(a: int, b: int): int { if a <= b then a else b }
  function Max(a: int, b: int): int { if a <= b then b else a }

  /** The four edges of a rectangle, whatever the signs of its size. */
  function MinX(r: Rect): int { Min(r.origin.x, r.origin.x + r.size.width) }
  function MaxX(r: Rect): int { Max(r.origin.x, r.origin.x + r.size.width) }
  function MinY(r: Rect): int { Min(r.origin.y, r.origin.y + r.size.height) }
  function MaxY(r: Rect): int { Max(r.origin.y, r.origin.y + r.size.height) }

  /** `CGRectStandardize`: the same rectangle with a non-negative width and height. */
  function Standardize(r: Rect): (s: Rect)
    ensures s.size.width >= 0 && s.size.height >= 0
    ensures s.origin == Point(MinX(r), MinY(r))
    ensures MinX(s) == MinX(r) && MaxX(s) == MaxX(r)
    ensures MinY(s) == MinY(r) && MaxY(s) == MaxY(r)
  {
    Rect(Point(MinX(r), MinY(r)), Size(MaxX(r) - MinX(r), MaxY(r) - MinY(r)))
  }

  /** `CGRectContainsPoint`: the standardized rectangle contains the point,
      closed on the minimum edges and open on the maximum edges. */
  predicate Contains(r: Rect, p: Point): (b: bool)
    ensures b <==> MinX(r) <= p.x < MaxX(r) && MinY(r) <= p.y < MaxY(r)
  {
    var s := Standardize(r);
    s.origin.x <= p.x < s.origin.x + s.size.width &&
    s.origin.y <= p.y < s.origin.y + s.size.height
  }

  /** `CGRectIntersectsRect`, taken as strict overlap: the intersection of the
      two standardized rectangles has a positive width and a positive height,
      so rectangles that only share an edge do not intersect. */
  predicate Intersects(a: Rect, b: Rect): (r: bool)
    ensures r <==> (MinX(a) < MaxX(b) && MinX(b) < MaxX(a) && MinX(a) < MaxX(a) && MinX(b) < MaxX(b) &&
                    MinY(a) < MaxY(b) && MinY(b) < MaxY(a) && MinY(a) < MaxY(a) && MinY(b) < MaxY(b))
  {
    Max(MinX(a), MinX(b)) < Min(MaxX(a), MaxX(b)) &&
    Max(MinY(a), MinY(b)) < Min(MaxY(a), MaxY(b))
  }

  /** On the integer grid, two rectangles intersect exactly when some point lies
      in both of them. */
  lemma IntersectsIffCommonPoint(a: Rect, b: Rect)
    ensures Intersects(a, b) <==> exists p :: Contains(a, p) && Contains(b, p)
  {
    if Intersects(a, b) {
      var p := Point(Max(MinX(a), MinX(b)), Max(MinY(a), MinY(b)));
      assert Contains(a, p) && Contains(b, p);
    }
  }

  /** The marquee of a pan update: origin `location - translation` and size
      `translation`, so that its two opposite corners are `location - translation`
      and `location`. */
  function PanRect(location: Point, translation: Point): (r: Rect)
    ensures MinX(r) == Min(location.x - translation.x, location.x)
    ensures MaxX(r) == Max(location.x - translation.x, location.x)
    ensures MinY(r) == Min(location.y - translation.y, location.y)
    ensures MaxY(r) == Max(location.y - translation.y, location.y)
  {
    Rect(Point(location.x - translation.x, location.y - translation.y),
         Size(translation.x, translation.y))
  }
}
