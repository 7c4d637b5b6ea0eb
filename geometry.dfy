/** Integer rectangles as the game uses pygame's Rect, and the float-to-int conversion
    applied when a rectangle coordinate is assigned a fractional value. */
module Geometry {

  /** An axis-aligned rectangle; (x, y) is the top-left corner. */
  datatype Rect = Rect(x: int, y: int, w: int, h: int) {
    function Left(): int { x }
    function Right(): int { x + w }
    function Top(): int { y }
    function Bottom(): int { y + h }

    /** Assigning an edge moves the rectangle and keeps its size. */
    function WithLeft(v: int): (r: Rect)
      ensures r.Left() == v && r == this.(x := r.x)
    {
      this.(x := v)
    }

    function WithRight(v: int): (r: Rect)
      ensures r.Right() == v && r == this.(x := r.x)
    {
      this.(x := v - w)
    }

    function WithTop(v: int): (r: Rect)
      ensures r.Top() == v && r == this.(y := r.y)
    {
      this.(y := v)
    }

    function WithBottom(v: int): (r: Rect)
      ensures r.Bottom() == v && r == this.(y := r.y)
    {
      this.(y := v - h)
    }
  }

  /** colliderect: the rectangles overlap as open intervals on both axes, so rectangles
      that only share an edge do not collide. */
  predicate Collide(a: Rect, b: Rect) {
    a.Left() < b.Right() && b.Left() < a.Right() && a.Top() < b.Bottom() && b.Top() < a.Bottom()
  }

  /** The integer a rectangle coordinate takes when assigned the real `v`:
      truncation toward zero. */
  function Trunc(v: real): (t: int)
    ensures 0.0 <= v ==> 0 <= t && t as real <= v < t as real + 1.0
    ensures v < 0.0 ==> t <= 0 && t as real - 1.0 < v <= t as real
  {
    if v >= 0.0 then v.Floor else -((-v).Floor)
  }
}
