/**
 * Integer rectangles as pygame's Rect stores them: a top-left corner and a
 * size. Only the operations the core uses are modelled.
 */
module Geometry {

  datatype Rect = Rect(x: int, y: int, w: nat, h: nat)
  {
    function Left(): int { x }
    function Right(): int { x + w }
    function Top(): int { y }
    function Bottom(): int { y + h }

    /** The rectangle moved by (dx, dy); its size is kept. */
    function Translate(dx: int, dy: int): Rect
    {
      Rect(x + dx, y + dy, w, h)
    }
  }

  /**
   * `colliderect`: two rectangles collide when they share an area larger
   * than zero; touching edges do not count and an empty rectangle collides
   * with nothing.
   */
  predicate Overlaps(a: Rect, b: Rect)
  {
    && a.w > 0 && a.h > 0 && b.w > 0 && b.h > 0
    && a.Left() < b.Right() && b.Left() < a.Right()
    && a.Top() < b.Bottom() && b.Top() < a.Bottom()
  }

  /** A point (px, py) inside the half-open area of r. */
  predicate Covers(r: Rect, px: int, py: int)
  {
    r.Left() <= px < r.Right() && r.Top() <= py < r.Bottom()
  }

  /** Overlap means exactly that some pixel lies in both rectangles. */
  lemma OverlapsIffCommonPixel(a: Rect, b: Rect)
    ensures Overlaps(a, b) <==> exists px, py :: Covers(a, px, py) && Covers(b, px, py)
  {
    if Overlaps(a, b) {
      var px := if a.x < b.x then b.x else a.x;
      var py := if a.y < b.y then b.y else a.y;
      assert Covers(a, px, py) && Covers(b, px, py);
    }
  }
}
