/**
 * One wave of the line-growth generator as a function of the state before
 * it: the points of the frontier are taken in order; a point whose key is
 * already visited is skipped; otherwise its key is marked visited and, if
 * the point lies in the viewport, its random neighbours that are not yet
 * visited each get a segment from the point and join the next frontier.
 */
module Waves {
  import opened Geometry
  import opened PointKeys
  import opened DirectionChoice
  import opened Neighbors

  /**
   * What a generation run is fixed to: the viewport, the step length and
   * the random tape, whose t-th number is the t-th draw of the run.
   */
  datatype Config = Config(width: int, height: int, dist: int, rand: nat -> nat)

  /**
   * The state of a wave in progress: the visited keys, the keys in the order
   * they were marked, the number of draws used, the points pushed onto the
   * next frontier and the segments emitted, both in order.
   */
  datatype Progress = Progress(
    visited: set<string>, marked: seq<string>, drawn: nat, pushed: seq<Point>, lines: seq<Segment>)

  /** `count` numbers of the tape starting at draw `start`. */
  function Draws(rand: nat -> nat, start: nat, count: nat): (ds: seq<nat>)
    ensures |ds| == count
  {
    seq(count, k requires 0 <= k < count => rand(start + k))
  }

  /** The points of `ns` whose keys are not in `visited`, in order. */
  function Unvisited(ns: seq<Point>, visited: set<string>): (r: seq<Point>)
    ensures forall q :: q in r <==> q in ns && PointKey(q) !in visited
    ensures |r| <= |ns|
  {
    if ns == [] then []
    else if PointKey(ns[0]) !in visited then [ns[0]] + Unvisited(ns[1..], visited)
    else Unvisited(ns[1..], visited)
  }

  /** No two points of `s` share a key. */
  predicate KeysDistinct(s: seq<Point>)
  {
    forall i, j :: 0 <= i < j < |s| ==> PointKey(s[i]) != PointKey(s[j])
  }

  /**
   * The filter works point by point: filtering a concatenation concatenates
   * the filtered parts, so it keeps the order of what it keeps and each
   * occurrence of it.
   */
  lemma {:induction false} UnvisitedAppend(a: seq<Point>, b: seq<Point>, visited: set<string>)
    ensures Unvisited(a + b, visited) == Unvisited(a, visited) + Unvisited(b, visited)
    ensures Unvisited([], visited) == []
    ensures forall q :: Unvisited([q], visited) == if PointKey(q) in visited then [] else [q]
    decreases |a|
  {
    forall q ensures Unvisited([q], visited) == if PointKey(q) in visited then [] else [q] {
      assert [q][1..] == [];
    }
    if a == [] {
      assert a + b == b;
    } else {
      assert (a + b)[0] == a[0] && (a + b)[1..] == a[1..] + b;
      UnvisitedAppend(a[1..], b, visited);
    }
  }

  /** Every point the filter keeps after the first one comes from the rest of the input. */
  lemma UnvisitedTail(ns: seq<Point>, visited: set<string>, j: nat)
    requires ns != [] && PointKey(ns[0]) !in visited && 0 < j < |Unvisited(ns, visited)|
    ensures exists m :: 1 <= m < |ns| && ns[m] == Unvisited(ns, visited)[j]
  {
    var rest := Unvisited(ns[1..], visited);
    assert Unvisited(ns, visited) == [ns[0]] + rest;
    assert Unvisited(ns, visited)[j] == rest[j - 1];
    assert rest[j - 1] in ns[1..];
    var m :| 0 <= m < |ns[1..]| && ns[1..][m] == rest[j - 1];
    assert ns[m + 1] == rest[j - 1];
  }

  /** The filter keeps distinct points distinct. */
  lemma {:induction false} UnvisitedDistinct(ns: seq<Point>, visited: set<string>)
    requires Distinct(ns)
    ensures Distinct(Unvisited(ns, visited))
    decreases |ns|
  {
    if ns != [] {
      var r, rest := Unvisited(ns, visited), Unvisited(ns[1..], visited);
      assert Distinct(ns[1..]);
      UnvisitedDistinct(ns[1..], visited);
      if PointKey(ns[0]) !in visited {
        assert r == [ns[0]] + rest;
        forall i, j | 0 <= i < j < |r| ensures r[i] != r[j] {
          if i == 0 {
            UnvisitedTail(ns, visited, j);
          } else {
            assert r[i] == rest[i - 1] && r[j] == rest[j - 1];
          }
        }
      }
    }
  }

  lemma UnvisitedHeadKey(ns: seq<Point>, visited: set<string>, j: nat)
    requires KeysDistinct(ns) && ns != [] && PointKey(ns[0]) !in visited
    requires 0 < j < |Unvisited(ns, visited)|
    ensures PointKey(Unvisited(ns, visited)[0]) != PointKey(Unvisited(ns, visited)[j])
  {
    UnvisitedTail(ns, visited, j);
    var m :| 1 <= m < |ns| && ns[m] == Unvisited(ns, visited)[j];
    assert Unvisited(ns, visited)[0] == ns[0];
  }

  /** Keeping the head of a list in front of the kept rest keeps keys distinct. */
  lemma UnvisitedConsKeys(ns: seq<Point>, visited: set<string>)
    requires KeysDistinct(ns) && ns != [] && PointKey(ns[0]) !in visited
    requires KeysDistinct(Unvisited(ns[1..], visited))
    ensures KeysDistinct(Unvisited(ns, visited))
  {
    var rest := Unvisited(ns[1..], visited);
    var r := [ns[0]] + rest;
    assert Unvisited(ns, visited) == r;
    forall i, j | 0 <= i < j < |r| ensures PointKey(r[i]) != PointKey(r[j]) {
      if i == 0 {
        UnvisitedHeadKey(ns, visited, j);
      } else {
        assert PointKey(rest[i - 1]) != PointKey(rest[j - 1]);
      }
    }
  }

  /** Filtering a list whose points have pairwise distinct keys keeps the keys pairwise distinct. */
  lemma {:induction false} UnvisitedKeysDistinct(ns: seq<Point>, visited: set<string>)
    requires KeysDistinct(ns)
    ensures KeysDistinct(Unvisited(ns, visited))
    decreases |ns|
  {
    if ns != [] {
      assert KeysDistinct(ns[1..]);
      UnvisitedKeysDistinct(ns[1..], visited);
      if PointKey(ns[0]) !in visited {
        UnvisitedConsKeys(ns, visited);
      }
    }
  }

  /** One segment from `p` to each point of `ns`. */
  function LinesTo(p: Point, ns: seq<Point>): (ls: seq<Segment>)
    ensures |ls| == |ns|
    ensures forall k :: 0 <= k < |ns| ==> ls[k] == Segment(p, ns[k])
  {
    seq(|ns|, k requires 0 <= k < |ns| => Segment(p, ns[k]))
  }

  /** The keys of every point of the viewport [0, width] x [0, height]. */
  function InBoundsKeys(width: int, height: int): set<string>
  {
    set x: int, y: int | 0 <= x <= width && 0 <= y <= height :: KeyOf(x, y)
  }

  /** How many keys of the viewport are not yet visited: the measure that bounds a run. */
  function Unexplored(cfg: Config, visited: set<string>): nat
  {
    |InBoundsKeys(cfg.width, cfg.height) - visited|
  }

  /**
   * The neighbours an in-bounds point pushes: its random neighbours, drawn
   * from the tape at `drawn`, whose keys are not in `visited`.
   */
  function Offspring(cfg: Config, p: Point, drawn: nat, visited: set<string>): seq<Point>
    requires cfg.dist > 0
  {
    Unvisited(RandomNeighbors(p, cfg.dist, Draws(cfg.rand, drawn, DrawCount(p.parent))), visited)
  }

  /**
   * At most three offspring, each one step away from `p`, none with a key
   * in `visited`, and no two with the same key.
   */
  lemma OffspringFacts(cfg: Config, p: Point, drawn: nat, visited: set<string>)
    requires cfg.dist > 0
    ensures var ns := Offspring(cfg, p, drawn, visited);
      |ns| <= 3 &&
      (forall q :: q in ns ==> PointKey(q) !in visited && exists d :: q == Neighbor(p, d, cfg.dist)) &&
      (forall i, j :: 0 <= i < j < |ns| ==> PointKey(ns[i]) != PointKey(ns[j]))
  {
    var draws := Draws(cfg.rand, drawn, DrawCount(p.parent));
    var all := RandomNeighbors(p, cfg.dist, draws);
    RandomNeighborsFacts(p, cfg.dist, draws);
    assert KeysDistinct(all);
    UnvisitedKeysDistinct(all, visited);
    forall q | q in Offspring(cfg, p, drawn, visited)
      ensures exists d :: q == Neighbor(p, d, cfg.dist)
    {
      var j :| 0 <= j < |all| && all[j] == q;
      var d :| Some(d) != p.parent && all[j] == Neighbor(p, d, cfg.dist);
    }
  }

  /** The expansion of one dequeued point. */
  function ExpandPoint(cfg: Config, s: Progress, p: Point): Progress
    requires cfg.dist > 0
  {
    var key := PointKey(p);
    if key in s.visited then s
    else
      var visited := s.visited + {key};
      var marked := s.marked + [key];
      if IsPointValid(p, cfg.width, cfg.height) then
        var ns := Offspring(cfg, p, s.drawn, visited);
        Progress(visited, marked, s.drawn + DrawCount(p.parent), s.pushed + ns, s.lines + LinesTo(p, ns))
      else
        Progress(visited, marked, s.drawn, s.pushed, s.lines)
  }

  /** The expansion of the points `pts`, in order. */
  function ExpandAll(cfg: Config, s: Progress, pts: seq<Point>): Progress
    requires cfg.dist > 0
    decreases |pts|
  {
    if pts == [] then s
    else ExpandPoint(cfg, ExpandAll(cfg, s, pts[..|pts| - 1]), pts[|pts| - 1])
  }

  /** Expanding one more point of `pts` extends the expansion of its prefix. */
  lemma ExpandAllPrefix(cfg: Config, s: Progress, pts: seq<Point>, i: nat)
    requires cfg.dist > 0 && i < |pts|
    ensures ExpandAll(cfg, s, pts[..i + 1]) == ExpandPoint(cfg, ExpandAll(cfg, s, pts[..i]), pts[i])
  {
    assert pts[..i + 1][..i] == pts[..i];
  }

  /** `t` extends `s` with the same visited keys, marks, draws, pushes and segments. */
  predicate Extends(s: Progress, t: Progress)
  {
    s.visited <= t.visited && s.drawn <= t.drawn &&
    |s.marked| <= |t.marked| && t.marked[..|s.marked|] == s.marked &&
    |s.pushed| <= |t.pushed| && t.pushed[..|s.pushed|] == s.pushed &&
    |s.lines| <= |t.lines| && t.lines[..|s.lines|] == s.lines
  }

  /** Each visited key was marked exactly once. */
  predicate MarkedOnce(s: Progress)
  {
    Distinct(s.marked) && (set k | k in s.marked) == s.visited
  }

  /** The i-th segment ends at the i-th pushed point. */
  predicate Aligned(s: Progress)
  {
    |s.lines| == |s.pushed| && forall k :: 0 <= k < |s.lines| ==> s.lines[k].to == s.pushed[k]
  }

  /**
   * A segment emitted after state `s` on the way to state `r` starts at a
   * point in the viewport whose key was not visited in `s` and is in `r`,
   * ends one step away from it, and its end's key was not visited in `s`.
   */
  predicate NewLineSound(cfg: Config, s: Progress, r: Progress, l: Segment)
  {
    cfg.dist > 0 && IsPointValid(l.from, cfg.width, cfg.height) &&
    PointKey(l.from) !in s.visited && PointKey(l.from) in r.visited &&
    PointKey(l.to) !in s.visited &&
    (exists d :: l.to == Neighbor(l.from, d, cfg.dist))
  }

  lemma KeyInBounds(cfg: Config, p: Point)
    requires IsPointValid(p, cfg.width, cfg.height)
    ensures PointKey(p) in InBoundsKeys(cfg.width, cfg.height)
  {
  }

  lemma UnexploredShrinks(cfg: Config, visited: set<string>, more: set<string>)
    requires visited <= more
    ensures Unexplored(cfg, more) <= Unexplored(cfg, visited)
  {
    var all := InBoundsKeys(cfg.width, cfg.height);
    assert all - more <= all - visited;
    SubsetCard(all - more, all - visited);
  }

  lemma {:induction false} SubsetCard<T>(a: set<T>, b: set<T>)
    requires a <= b
    ensures |a| <= |b|
    decreases b
  {
    if a != {} {
      var x :| x in a;
      SubsetCard(a - {x}, b - {x});
    }
  }

  /**
   * Expanding one point: a point whose key is visited changes nothing;
   * otherwise its key, and only its key, is marked.
   */
  lemma ExpandPointVisits(cfg: Config, s: Progress, p: Point)
    requires cfg.dist > 0
    ensures var r := ExpandPoint(cfg, s, p);
      Extends(s, r) &&
      (PointKey(p) in s.visited ==> r == s) &&
      (PointKey(p) !in s.visited ==>
        r.visited == s.visited + {PointKey(p)} && r.marked == s.marked + [PointKey(p)])
  {
  }

  /**
   * Only an in-bounds point whose key was not visited emits segments: at
   * most three, one per pushed neighbour, each to a neighbour whose key is
   * not visited even after the point's own key was marked.
   */
  lemma ExpandPointLines(cfg: Config, s: Progress, p: Point)
    requires cfg.dist > 0
    ensures var r := ExpandPoint(cfg, s, p);
      (PointKey(p) in s.visited || !IsPointValid(p, cfg.width, cfg.height) ==>
        r.pushed == s.pushed && r.lines == s.lines) &&
      |r.pushed| - |s.pushed| == |r.lines| - |s.lines| <= 3 &&
      (forall k :: |s.pushed| <= k < |r.pushed| ==> PointKey(r.pushed[k]) !in r.visited) &&
      (forall k :: |s.lines| <= k < |r.lines| ==>
        r.lines[k].from == p && r.lines[k].to == r.pushed[k - |s.lines| + |s.pushed|] &&
        NewLineSound(cfg, s, r, r.lines[k]))
  {
    var r := ExpandPoint(cfg, s, p);
    var key := PointKey(p);
    if key !in s.visited && IsPointValid(p, cfg.width, cfg.height) {
      var ns := Offspring(cfg, p, s.drawn, s.visited + {key});
      OffspringFacts(cfg, p, s.drawn, s.visited + {key});
      PushedLines(cfg, s, r, p, ns);
    }
  }

  /** The segments and points one expansion adds, whatever its offspring `ns` are. */
  lemma PushedLines(cfg: Config, s: Progress, r: Progress, p: Point, ns: seq<Point>)
    requires cfg.dist > 0 && IsPointValid(p, cfg.width, cfg.height)
    requires PointKey(p) !in s.visited && r.visited == s.visited + {PointKey(p)}
    requires r.pushed == s.pushed + ns && r.lines == s.lines + LinesTo(p, ns)
    requires |ns| <= 3
    requires forall q :: q in ns ==> PointKey(q) !in r.visited && exists d :: q == Neighbor(p, d, cfg.dist)
    ensures |r.pushed| - |s.pushed| == |r.lines| - |s.lines| <= 3
    ensures forall k :: |s.pushed| <= k < |r.pushed| ==> PointKey(r.pushed[k]) !in r.visited
    ensures forall k :: |s.lines| <= k < |r.lines| ==>
      r.lines[k].from == p && r.lines[k].to == r.pushed[k - |s.lines| + |s.pushed|] &&
      NewLineSound(cfg, s, r, r.lines[k])
  {
    forall k | |s.pushed| <= k < |r.pushed| ensures PointKey(r.pushed[k]) !in r.visited {
      assert r.pushed[k] == ns[k - |s.pushed|];
    }
    forall k | |s.lines| <= k < |r.lines|
      ensures r.lines[k].from == p && r.lines[k].to == r.pushed[k - |s.lines| + |s.pushed|]
      ensures NewLineSound(cfg, s, r, r.lines[k])
    {
      var q := ns[k - |s.lines|];
      assert r.lines[k] == Segment(p, q);
      assert r.pushed[k - |s.lines| + |s.pushed|] == q;
    }
  }

  /** The keys of the points of `pts`. */
  function Keys(pts: seq<Point>): set<string>
    decreases |pts|
  {
    if pts == [] then {} else Keys(pts[..|pts| - 1]) + {PointKey(pts[|pts| - 1])}
  }

  lemma ExtendsTransitive(s: Progress, t: Progress, u: Progress)
    requires Extends(s, t) && Extends(t, u)
    ensures Extends(s, u)
  {
    assert u.marked[..|s.marked|] == u.marked[..|t.marked|][..|s.marked|];
    assert u.pushed[..|s.pushed|] == u.pushed[..|t.pushed|][..|s.pushed|];
    assert u.lines[..|s.lines|] == u.lines[..|t.lines|][..|s.lines|];
  }

  /** A wave only adds to its state. */
  lemma {:induction false} ExpandAllExtends(cfg: Config, s: Progress, pts: seq<Point>)
    requires cfg.dist > 0
    ensures Extends(s, ExpandAll(cfg, s, pts))
    decreases |pts|
  {
    if pts != [] {
      var init, last := pts[..|pts| - 1], pts[|pts| - 1];
      ExpandAllExtends(cfg, s, init);
      var mid := ExpandAll(cfg, s, init);
      ExpandPointVisits(cfg, mid, last);
      ExtendsTransitive(s, mid, ExpandAll(cfg, s, pts));
    }
  }

  /** A wave marks every dequeued point's key as visited, skipped or not, and nothing else. */
  lemma {:induction false} ExpandAllVisits(cfg: Config, s: Progress, pts: seq<Point>)
    requires cfg.dist > 0
    ensures ExpandAll(cfg, s, pts).visited == s.visited + Keys(pts)
    decreases |pts|
  {
    if pts != [] {
      var init, last := pts[..|pts| - 1], pts[|pts| - 1];
      ExpandAllVisits(cfg, s, init);
      var mid := ExpandAll(cfg, s, init);
      ExpandPointVisits(cfg, mid, last);
      assert ExpandAll(cfg, s, pts).visited == mid.visited + {PointKey(last)};
    }
  }

  /** Visited keys stay marked exactly once across a wave: no key is expanded twice. */
  lemma {:induction false} ExpandAllMarkedOnce(cfg: Config, s: Progress, pts: seq<Point>)
    requires cfg.dist > 0 && MarkedOnce(s)
    ensures MarkedOnce(ExpandAll(cfg, s, pts))
    decreases |pts|
  {
    if pts != [] {
      var init, last := pts[..|pts| - 1], pts[|pts| - 1];
      ExpandAllMarkedOnce(cfg, s, init);
      var mid := ExpandAll(cfg, s, init);
      ExpandPointVisits(cfg, mid, last);
      var r := ExpandAll(cfg, s, pts);
      if PointKey(last) !in mid.visited {
        forall i, j | 0 <= i < j < |r.marked| ensures r.marked[i] != r.marked[j] {
          if j == |r.marked| - 1 {
            assert r.marked[i] in mid.marked;
          } else {
            assert r.marked[i] == mid.marked[i] && r.marked[j] == mid.marked[j];
          }
        }
      }
    }
  }

  /**
   * Across a wave, the segments emitted and the points pushed match one to
   * one, and every new segment starts at a newly visited in-bounds point and
   * ends one step away at a point that was not visited when the wave began.
   */
  lemma {:induction false} ExpandAllLines(cfg: Config, s: Progress, pts: seq<Point>)
    requires cfg.dist > 0
    ensures var r := ExpandAll(cfg, s, pts);
      Extends(s, r) &&
      (Aligned(s) ==> Aligned(r)) &&
      |r.lines| - |s.lines| == |r.pushed| - |s.pushed| <= 3 * |pts| &&
      forall k :: |s.lines| <= k < |r.lines| ==> NewLineSound(cfg, s, r, r.lines[k])
    decreases |pts|
  {
    if pts != [] {
      var init, last := pts[..|pts| - 1], pts[|pts| - 1];
      ExpandAllLines(cfg, s, init);
      var mid := ExpandAll(cfg, s, init);
      ExpandPointVisits(cfg, mid, last);
      ExpandPointLines(cfg, mid, last);
      var r := ExpandAll(cfg, s, pts);
      ExtendsTransitive(s, mid, r);
      forall k | |s.lines| <= k < |r.lines| ensures NewLineSound(cfg, s, r, r.lines[k]) {
        if k < |mid.lines| {
          assert r.lines[k] == mid.lines[k];
          assert NewLineSound(cfg, s, mid, mid.lines[k]);
        } else {
          assert NewLineSound(cfg, mid, r, r.lines[k]);
        }
      }
      if Aligned(s) {
        forall k | 0 <= k < |r.lines| ensures r.lines[k].to == r.pushed[k] {
          if k < |mid.lines| {
            assert r.lines[k] == mid.lines[k] && r.pushed[k] == mid.pushed[k];
          }
        }
      }
    }
  }

  /** No two segments of `ls` share a React key. */
  predicate SegmentKeysDistinct(ls: seq<Segment>)
  {
    forall i, j :: 0 <= i < j < |ls| ==> SegmentKey(ls[i]) != SegmentKey(ls[j])
  }

  /** Every segment of `ls` starts at a point whose key is in `visited`. */
  predicate FromVisited(ls: seq<Segment>, visited: set<string>)
  {
    forall l :: l in ls ==> PointKey(l.from) in visited
  }

  /** The segments one expansion emits end at points with pairwise distinct keys. */
  lemma ExpandPointTargets(cfg: Config, s: Progress, p: Point)
    requires cfg.dist > 0
    ensures var r := ExpandPoint(cfg, s, p);
      forall i, j :: |s.lines| <= i < j < |r.lines| ==> PointKey(r.lines[i].to) != PointKey(r.lines[j].to)
  {
    var key := PointKey(p);
    if key !in s.visited && IsPointValid(p, cfg.width, cfg.height) {
      var ns := Offspring(cfg, p, s.drawn, s.visited + {key});
      OffspringFacts(cfg, p, s.drawn, s.visited + {key});
      assert ExpandPoint(cfg, s, p).lines == s.lines + LinesTo(p, ns);
      LinesToTargets(s.lines, p, ns);
    }
  }

  /** Segments from `p` to points with pairwise distinct keys end at pairwise distinct keys. */
  lemma LinesToTargets(before: seq<Segment>, p: Point, ns: seq<Point>)
    requires forall i, j :: 0 <= i < j < |ns| ==> PointKey(ns[i]) != PointKey(ns[j])
    ensures var ls := before + LinesTo(p, ns);
      forall i, j :: |before| <= i < j < |ls| ==> PointKey(ls[i].to) != PointKey(ls[j].to)
  {
    var ls := before + LinesTo(p, ns);
    forall i, j | |before| <= i < j < |ls|
      ensures PointKey(ls[i].to) != PointKey(ls[j].to)
    {
      assert ls[i].to == ns[i - |before|] && ls[j].to == ns[j - |before|];
    }
  }

  /**
   * The segments of one wave have pairwise distinct React keys: segments
   * from different dequeued points start at different newly visited keys,
   * and those from one point end at different keys.
   */
  lemma {:induction false} ExpandAllSegmentKeys(cfg: Config, s: Progress, pts: seq<Point>)
    requires cfg.dist > 0
    ensures var r := ExpandAll(cfg, s, pts);
      forall i, j :: |s.lines| <= i < j < |r.lines| ==> SegmentKey(r.lines[i]) != SegmentKey(r.lines[j])
    decreases |pts|
  {
    if pts != [] {
      var init, last := pts[..|pts| - 1], pts[|pts| - 1];
      ExpandAllSegmentKeys(cfg, s, init);
      ExpandAllLines(cfg, s, init);
      var mid := ExpandAll(cfg, s, init);
      ExpandPointLines(cfg, mid, last);
      ExpandPointTargets(cfg, mid, last);
      var r := ExpandAll(cfg, s, pts);
      forall i, j | |s.lines| <= i < j < |r.lines|
        ensures SegmentKey(r.lines[i]) != SegmentKey(r.lines[j])
      {
        SegmentKeyInjective(r.lines[i], r.lines[j]);
        if j < |mid.lines| {
          assert r.lines[i] == mid.lines[i] && r.lines[j] == mid.lines[j];
        } else if i < |mid.lines| {
          assert r.lines[i] == mid.lines[i];
          assert NewLineSound(cfg, s, mid, mid.lines[i]);
        }
      }
    }
  }

  /**
   * Appending a wave to the segments emitted so far keeps their React keys
   * pairwise distinct, since every earlier segment starts at a key visited
   * before the wave and every new one at a key the wave visits first.
   */
  lemma AppendWaveKeys(cfg: Config, s: Progress, pts: seq<Point>, emitted: seq<Segment>)
    requires cfg.dist > 0 && s.lines == []
    requires SegmentKeysDistinct(emitted) && FromVisited(emitted, s.visited)
    ensures var r := ExpandAll(cfg, s, pts);
      SegmentKeysDistinct(emitted + r.lines) && FromVisited(emitted + r.lines, r.visited)
  {
    var r := ExpandAll(cfg, s, pts);
    ExpandAllLines(cfg, s, pts);
    ExpandAllSegmentKeys(cfg, s, pts);
    var all := emitted + r.lines;
    forall i, j | 0 <= i < j < |all|
      ensures SegmentKey(all[i]) != SegmentKey(all[j])
    {
      SegmentKeyInjective(all[i], all[j]);
      if j < |emitted| {
        assert all[i] == emitted[i] && all[j] == emitted[j];
      } else if i < |emitted| {
        assert all[i] == emitted[i] && all[j] == r.lines[j - |emitted|];
        assert NewLineSound(cfg, s, r, r.lines[j - |emitted|]);
      } else {
        assert all[i] == r.lines[i - |emitted|] && all[j] == r.lines[j - |emitted|];
      }
    }
    forall l | l in all
      ensures PointKey(l.from) in r.visited
    {
      if l !in emitted {
        var k :| 0 <= k < |r.lines| && r.lines[k] == l;
        assert NewLineSound(cfg, s, r, r.lines[k]);
      }
    }
  }

  /**
   * A wave never increases the number of unvisited viewport keys, and it
   * decreases it whenever anything was pushed: a point pushes only after
   * its own in-bounds key was newly visited.
   */
  lemma {:induction false} ExpandAllProgress(cfg: Config, s: Progress, pts: seq<Point>)
    requires cfg.dist > 0
    ensures var r := ExpandAll(cfg, s, pts);
      Unexplored(cfg, r.visited) <= Unexplored(cfg, s.visited) &&
      (r.pushed == s.pushed || Unexplored(cfg, r.visited) < Unexplored(cfg, s.visited))
    decreases |pts|
  {
    if pts != [] {
      var init, last := pts[..|pts| - 1], pts[|pts| - 1];
      ExpandAllProgress(cfg, s, init);
      var mid := ExpandAll(cfg, s, init);
      ExpandPointVisits(cfg, mid, last);
      ExpandPointLines(cfg, mid, last);
      var r := ExpandAll(cfg, s, pts);
      UnexploredShrinks(cfg, mid.visited, r.visited);
      var key := PointKey(last);
      if r.pushed != mid.pushed {
        KeyInBounds(cfg, last);
        var all := InBoundsKeys(cfg.width, cfg.height);
        assert all - r.visited == (all - mid.visited) - {key};
      }
    }
  }
}
