/**
 * The neighbours a point grows to: each randomly chosen direction becomes
 * the point one step away in that direction, tagged with the table's
 * back-reference.
 */
module Neighbors {
  import opened Geometry
  import opened PointKeys
  import opened DirectionChoice

  /** One neighbour per direction, in the order of the directions. */
  function StepAll(p: Point, dirs: seq<Direction>, dist: int): (ns: seq<Point>)
    requires dist > 0
    ensures |ns| == |dirs|
  {
    seq(|dirs|, k requires 0 <= k < |dirs| => Neighbor(p, dirs[k], dist))
  }

  /** Steps in distinct directions lead to points with distinct keys, none of them the key of `p`. */
  lemma StepAllKeys(p: Point, dirs: seq<Direction>, dist: int)
    requires dist > 0 && Distinct(dirs)
    ensures forall i, j :: 0 <= i < j < |dirs| ==> PointKey(StepAll(p, dirs, dist)[i]) != PointKey(StepAll(p, dirs, dist)[j])
    ensures forall k :: 0 <= k < |dirs| ==> PointKey(StepAll(p, dirs, dist)[k]) != PointKey(p)
  {
    var ns := StepAll(p, dirs, dist);
    forall i, j | 0 <= i < j < |dirs| ensures PointKey(ns[i]) != PointKey(ns[j]) {
      NeighborInjective(p, dirs[i], dirs[j], dist);
      PointKeyCoordinates(ns[i], ns[j]);
    }
    forall k | 0 <= k < |dirs| ensures PointKey(ns[k]) != PointKey(p) {
      PointKeyCoordinates(ns[k], p);
    }
  }

  /** The neighbours of `p`: one per direction chosen for its parent tag. */
  function RandomNeighbors(p: Point, dist: int, draws: seq<nat>): seq<Point>
    requires dist > 0 && DrawCount(p.parent) <= |draws|
  {
    StepAll(p, RandomDirections(p.parent, draws), dist)
  }

  /**
   * There are three neighbours (two when the parent tag is TOP), each one
   * step away in a direction other than the tag, all with distinct keys and
   * none with the key of `p`.
   */
  lemma RandomNeighborsFacts(p: Point, dist: int, draws: seq<nat>)
    requires dist > 0 && DrawCount(p.parent) <= |draws|
    ensures var ns := RandomNeighbors(p, dist, draws);
      |ns| == (if p.parent == Some(Top) then 2 else 3) &&
      (forall k :: 0 <= k < |ns| ==> exists d :: Some(d) != p.parent && ns[k] == Neighbor(p, d, dist)) &&
      (forall i, j :: 0 <= i < j < |ns| ==> PointKey(ns[i]) != PointKey(ns[j])) &&
      (forall k :: 0 <= k < |ns| ==> PointKey(ns[k]) != PointKey(p))
  {
    var dirs := RandomDirections(p.parent, draws);
    RandomDirectionsFacts(p.parent, draws);
    StepAllKeys(p, dirs, dist);
    var ns := StepAll(p, dirs, dist);
    assert forall k :: 0 <= k < |ns| ==> ns[k] == Neighbor(p, dirs[k], dist) && dirs[k] in dirs;
  }
}
