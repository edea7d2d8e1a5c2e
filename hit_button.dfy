/**
  A button whose touch area is its bounds grown by per-side insets.
  Coordinates are exact reals.
 */
module HitTest {

  datatype Point = Point(x: real, y: real)

  /** A rectangle by origin and size; the size may be negative, in which
      case the rectangle extends the other way from its origin. */
  datatype Rect = Rect(x: real, y: real, width: real, height: real)
  {
    function MinX(): real { if width >= 0.0 then x else x + width }
    function MaxX(): real { if width >= 0.0 then x + width else x }
    function MinY(): real { if height >= 0.0 then y else y + height }
    function MaxY(): real { if height >= 0.0 then y + height else y }
  }

  /** How far the touch area reaches past each side of the bounds. */
  datatype EdgeInsets = EdgeInsets(top: real, left: real, bottom: real, right: real)

  const ZeroInsets := EdgeInsets(0.0, 0.0, 0.0, 0.0)

  /** A hit button: its bounds and its `hitInsets`. */
  datatype HitButton = HitButton(bounds: Rect, hitInsets: EdgeInsets)

  /** A new button: `hitInsets` starts as zero insets, so it accepts
      exactly the points of its closed bounds. */
  function NewHitButton(bounds: Rect): (b: HitButton)
    ensures b.bounds == bounds && b.hitInsets == ZeroInsets
    ensures forall p :: PointInside(b, p) <==> InClosedRect(bounds, p)
  {
    HitButton(bounds, ZeroInsets)
  }

  /** The horizontal half of the test. */
  predicate WithinX(button: HitButton, p: Point)
  {
    button.bounds.MinX() - button.hitInsets.left <= p.x <= button.bounds.MaxX() + button.hitInsets.right
  }

  /** The vertical half of the test. */
  predicate WithinY(button: HitButton, p: Point)
  {
    button.bounds.MinY() - button.hitInsets.top <= p.y <= button.bounds.MaxY() + button.hitInsets.bottom
  }

  /** `point(inside:with:)`: the point lies in the bounds grown by the
      insets, edges included. The event is not looked at. */
  predicate PointInside(button: HitButton, p: Point)
  {
    && p.x >= button.bounds.MinX() - button.hitInsets.left
    && p.x <= button.bounds.MaxX() + button.hitInsets.right
    && p.y >= button.bounds.MinY() - button.hitInsets.top
    && p.y <= button.bounds.MaxY() + button.hitInsets.bottom
  }

  /** Closed containment in a rectangle. */
  predicate InClosedRect(r: Rect, p: Point)
  {
    r.MinX() <= p.x <= r.MaxX() && r.MinY() <= p.y <= r.MaxY()
  }

  /** With zero insets the test is containment in the closed bounds. */
  lemma ZeroInsetsIsBounds(bounds: Rect, p: Point)
    ensures PointInside(HitButton(bounds, ZeroInsets), p) <==> InClosedRect(bounds, p)
  {
  }

  /** The edges of the grown rectangle are inside: a point exactly at
      `minX - left` or `maxX + right` (within the y range), or exactly at
      `minY - top` or `maxY + bottom` (within the x range), is accepted. */
  lemma EdgesInclusive(button: HitButton, p: Point)
    ensures (WithinY(button, p) && p.x == button.bounds.MinX() - button.hitInsets.left
             && p.x <= button.bounds.MaxX() + button.hitInsets.right) ==> PointInside(button, p)
    ensures (WithinY(button, p) && p.x == button.bounds.MaxX() + button.hitInsets.right
             && p.x >= button.bounds.MinX() - button.hitInsets.left) ==> PointInside(button, p)
    ensures (WithinX(button, p) && p.y == button.bounds.MinY() - button.hitInsets.top
             && p.y <= button.bounds.MaxY() + button.hitInsets.bottom) ==> PointInside(button, p)
    ensures (WithinX(button, p) && p.y == button.bounds.MaxY() + button.hitInsets.bottom
             && p.y >= button.bounds.MinY() - button.hitInsets.top) ==> PointInside(button, p)
  {
  }

  /** The test is an x-only test and a y-only test together: a point outside
      the x range is rejected whatever its y, and likewise for y. */
  lemma SplitsIntoAxes(button: HitButton, p: Point, y: real, x: real)
    ensures PointInside(button, p) <==> WithinX(button, p) && WithinY(button, p)
    ensures !WithinX(button, p) ==> !PointInside(button, Point(p.x, y))
    ensures !WithinY(button, p) ==> !PointInside(button, Point(x, p.y))
  {
  }

  /** Growing any inset never turns an accepted point into a rejected one. */
  lemma GrowingInsetsKeepsHits(button: HitButton, grown: EdgeInsets, p: Point)
    requires grown.top >= button.hitInsets.top && grown.left >= button.hitInsets.left
    requires grown.bottom >= button.hitInsets.bottom && grown.right >= button.hitInsets.right
    ensures PointInside(button, p) ==> PointInside(button.(hitInsets := grown), p)
  {
  }
}
