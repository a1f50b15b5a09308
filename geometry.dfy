/** The part of CGPoint, CGSize and CGRect that the clip view uses, over
    integer coordinates. */
module Geometry {

  datatype Point = Point(x: int, y: int) {
    function Plus(d: Point): Point { Point(x + d.x, y + d.y) }
    function Minus(d: Point): Point { Point(x - d.x, y - d.y) }
  }

  /** `CGPoint.zero` */
  const Zero := Point(0, 0)

  /** View sizes are never negative. */
  datatype Size = Size(width: nat, height: nat)

  datatype Rect = Rect(origin: Point, size: Size) {
    function MinX(): int { origin.x }
    function MaxX(): int { origin.x + size.width }
    function MinY(): int { origin.y }
    function MaxY(): int { origin.y + size.height }

    /** The same rectangle moved so that its origin is `p` (`setBoundsOrigin`). */
    function WithOrigin(p: Point): Rect { Rect(p, size) }
  }

  /** `x.rounded(.towardZero)` on a real number. */
  function RoundedTowardZero(x: real): int {
    if x >= 0.0 then x.Floor else -((-x).Floor)
  }

  /** Half of an integral `d`, truncated toward zero. Dafny's `/` is
      Euclidean, so for a negative odd `d` it would give one less. */
  function HalfTowardZero(d: int): (r: int)
    ensures r == RoundedTowardZero(d as real / 2.0)
    ensures d >= 0 ==> 0 <= r && 2 * r <= d <= 2 * r + 1
    ensures d < 0 ==> r <= 0 && 2 * r - 1 <= d <= 2 * r
  {
    if d >= 0 then d / 2 else -((-d) / 2)
  }
}
