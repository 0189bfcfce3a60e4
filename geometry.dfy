/**
 * Points, compass directions and segments of the line-growth background,
 * the viewport bounds check, the compass step of one point to a neighbour,
 * and the predicate that decides whether a resize restarts the drawing.
 */
module Geometry {

  datatype Option<+T> = None | Some(value: T)

  /** No element of `s` occurs twice. */
  predicate Distinct<T(==)>(s: seq<T>)
  {
    forall i, j :: 0 <= i < j < |s| ==> s[i] != s[j]
  }

  /** The eight compass directions, in the order of their numeric codes. */
  datatype Direction =
    | Top | TopRight | TopLeft | BottomRight | BottomLeft | Bottom | Right | Left

  /** The numeric code of a direction (TOP is 0, LEFT is 7). */
  function Code(d: Direction): (c: nat)
    ensures c < 8
    ensures c == 0 <==> d == Top
  {
    match d
    case Top => 0
    case TopRight => 1
    case TopLeft => 2
    case BottomRight => 3
    case BottomLeft => 4
    case Bottom => 5
    case Right => 6
    case Left => 7
  }

  /**
   * A lattice point; `parent` is the back-reference tag a neighbour gets
   * from the step that produced it, and is absent on seed points.
   */
  datatype Point = Point(x: int, y: int, parent: Option<Direction>)

  /** A line segment between two points (the SVG line without its styling). */
  datatype Segment = Segment(from: Point, to: Point)

  /**
   * A point may be expanded when it lies in the viewport [0, width] x [0, height],
   * both bounds inclusive.
   */
  predicate IsPointValid(p: Point, width: int, height: int)
    ensures IsPointValid(p, width, height) <==> 0 <= p.x <= width && 0 <= p.y <= height
  {
    !(p.x < 0 || p.y < 0 || p.x > width || p.y > height)
  }

  /** The horizontal and vertical parts of one step of length `dist` in direction `d`. */
  function DeltaX(d: Direction, dist: int): int
  {
    match d
    case Top => 0
    case Bottom => 0
    case TopLeft => -dist
    case BottomLeft => -dist
    case Left => -dist
    case TopRight => dist
    case BottomRight => dist
    case Right => dist
  }

  function DeltaY(d: Direction, dist: int): int
  {
    match d
    case Left => 0
    case Right => 0
    case Top => -dist
    case TopLeft => -dist
    case TopRight => -dist
    case Bottom => dist
    case BottomLeft => dist
    case BottomRight => dist
  }

  /**
   * The parent tag given to the neighbour reached in direction `d`.
   * Six directions tag their opposite; LEFT and RIGHT both tag TOP_LEFT.
   */
  function ParentTag(d: Direction): Direction
  {
    match d
    case Top => Bottom
    case TopLeft => BottomRight
    case TopRight => BottomLeft
    case Bottom => Top
    case BottomLeft => TopRight
    case BottomRight => TopLeft
    case Left => TopLeft
    case Right => TopLeft
  }

  /**
   * The neighbour of `p` one step of length `dist` away in direction `d`.
   * The source adds `Background.DIST`, a static field that is never assigned
   * (only the instance field `DIST = 50` is), so the coordinate a step moves
   * would become NaN while the other is kept; the model uses the intended
   * integer step instead.
   */
  function Neighbor(p: Point, d: Direction, dist: int): Point
    requires dist > 0
  {
    Point(p.x + DeltaX(d, dist), p.y + DeltaY(d, dist), Some(ParentTag(d)))
  }

  /**
   * A neighbour is offset from its point by a vector of {-dist, 0, dist}^2
   * other than (0, 0), and carries the tag of the table.
   */
  lemma NeighborOffset(p: Point, d: Direction, dist: int)
    requires dist > 0
    ensures var n := Neighbor(p, d, dist);
      n.x - p.x in {-dist, 0, dist} && n.y - p.y in {-dist, 0, dist} &&
      (n.x, n.y) != (p.x, p.y) && n.parent == Some(ParentTag(d))
  {
  }

  /** Different directions step to different coordinates. */
  lemma NeighborInjective(p: Point, a: Direction, b: Direction, dist: int)
    requires dist > 0
    ensures a != b <==> (Neighbor(p, a, dist).x, Neighbor(p, a, dist).y) != (Neighbor(p, b, dist).x, Neighbor(p, b, dist).y)
  {
  }

  /**
   * A resize restarts the drawing unless the width drawn with was at most
   * 768 and the new width equals it.
   */
  predicate ShouldRedraw(drawnWidth: int, newWidth: int)
    ensures !ShouldRedraw(drawnWidth, newWidth) <==> drawnWidth <= 768 && newWidth == drawnWidth
  {
    drawnWidth > 768 || drawnWidth != newWidth
  }
}
