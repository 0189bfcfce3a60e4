/**
 * The line-growth generator as an object: a FIFO frontier of points and a
 * set of visited keys, updated one wave per `Step`, and the driver that
 * keeps asking for waves until the generator is exhausted.
 */
module Generator {
  import opened Geometry
  import opened PointKeys
  import opened DirectionChoice
  import opened Neighbors
  import opened Seeds
  import opened Waves

  /**
   * Dequeuing the head of the unprocessed frontier and enqueuing `more`
   * leaves the rest of the frontier before everything pushed so far.
   */
  lemma DequeueFront<T>(snapshot: seq<T>, i: nat, pushed: seq<T>, more: seq<T>)
    requires i < |snapshot|
    ensures (snapshot[i..] + pushed)[0] == snapshot[i]
    ensures (snapshot[i..] + pushed)[1..] + more == snapshot[i + 1..] + (pushed + more)
  {
    assert (snapshot[i..] + pushed)[1..] == snapshot[i + 1..] + pushed;
  }

  /**
   * The body of the wave loop for one dequeued point: a point whose key is
   * visited is skipped; otherwise its key is marked and, when the point is
   * in the viewport, its random neighbours whose keys are not visited are
   * returned, to be drawn to and pushed.
   */
  method ExpandHead(cfg: Config, point: Point, visited: set<string>, drawn: nat, ghost s: Progress)
    returns (visited': set<string>, drawn': nat, neighbors: seq<Point>)
    requires cfg.dist > 0 && visited == s.visited && drawn == s.drawn
    ensures var r := ExpandPoint(cfg, s, point);
      visited' == r.visited && drawn' == r.drawn &&
      r.pushed == s.pushed + neighbors && r.lines == s.lines + LinesTo(point, neighbors)
  {
    var key := PointKey(point);
    if key in visited {
      return visited, drawn, [];
    }
    visited', drawn', neighbors := visited + {key}, drawn, [];
    if IsPointValid(point, cfg.width, cfg.height) {
      var draws := Draws(cfg.rand, drawn, DrawCount(point.parent));
      var dirs := GetRandomDirections(point.parent, draws);
      assert StepAll(point, dirs, cfg.dist) == RandomNeighbors(point, cfg.dist, draws);
      drawn' := drawn + DrawCount(point.parent);
      neighbors := Unvisited(StepAll(point, dirs, cfg.dist), visited');
    }
  }

  /**
   * One wave over the frontier `snapshot`: dequeues exactly |snapshot|
   * points, expanding each in turn, and returns the queue left behind (the
   * points pushed during the wave, in order) with the segments emitted.
   */
  method ExpandWave(cfg: Config, snapshot: seq<Point>, visited: set<string>, drawn: nat, ghost start: Progress)
    returns (points: seq<Point>, seen: set<string>, used: nat, lines: seq<Segment>)
    requires cfg.dist > 0 && start.visited == visited && start.drawn == drawn
    requires start.pushed == [] && start.lines == []
    ensures var r := ExpandAll(cfg, start, snapshot);
      points == r.pushed && lines == r.lines && seen == r.visited && used == r.drawn
  {
    points, seen, used, lines := snapshot, visited, drawn, [];
    ghost var acc := start;
    var count := |snapshot|;
    for i := 0 to count
      invariant acc == ExpandAll(cfg, start, snapshot[..i])
      invariant points == snapshot[i..] + acc.pushed && lines == acc.lines
      invariant seen == acc.visited && used == acc.drawn
    {
      ExpandAllPrefix(cfg, start, snapshot, i);
      var point := points[0];
      var neighbors;
      seen, used, neighbors := ExpandHead(cfg, point, seen, used, acc);
      DequeueFront(snapshot, i, acc.pushed, neighbors);
      points := points[1..] + neighbors;
      lines := lines + LinesTo(point, neighbors);
      acc := ExpandPoint(cfg, acc, point);
    }
    assert snapshot[..count] == snapshot;
  }

  /** The waves joined in order. */
  function Concat(waves: seq<seq<Segment>>): seq<Segment>
    decreases |waves|
  {
    if waves == [] then [] else Concat(waves[..|waves| - 1]) + waves[|waves| - 1]
  }

  /** Emitting one more wave extends the joined history by that wave. */
  lemma ConcatSnoc(history: seq<Segment>, waves: seq<seq<Segment>>, w: seq<Segment>)
    ensures history + Concat(waves + [w]) == history + Concat(waves) + w
  {
    assert (waves + [w])[..|waves|] == waves;
  }

  class LineGenerator {
    const width: int
    const height: int
    /**
     * The step between a point and its neighbours: the intended 50 of the
     * component's `this.DIST`, which its offsets never read.
     */
    const dist: int
    /** The random tape: the t-th call of `Math.random` in the run. */
    const rand: nat -> nat

    var frontier: seq<Point>
    var visited: set<string>
    /** How many random draws the run has used. */
    var drawn: nat
    /** The visited keys in the order they were marked. */
    ghost var marked: seq<string>
    /** Every segment emitted so far, in order: the component's `els` list. */
    ghost var emitted: seq<Segment>

    function Cfg(): Config
    {
      Config(width, height, dist, rand)
    }

    ghost predicate Valid()
      reads this
    {
      dist > 0 && MarkedOnce(Progress(visited, marked, drawn, [], [])) &&
      SegmentKeysDistinct(emitted) && FromVisited(emitted, visited)
    }

    /** The viewport keys not yet visited. */
    ghost function Remaining(): nat
      reads this
    {
      Unexplored(Cfg(), visited)
    }

    /** A run starts from the seed grid with nothing visited. */
    constructor (width: int, height: int, dist: int, rand: nat -> nat)
      requires dist > 0
      ensures Valid()
      ensures this.width == width && this.height == height && this.dist == dist && this.rand == rand
      ensures frontier == SeedGrid(width, height) && visited == {} && drawn == 0 && emitted == []
    {
      var seeds := GetSeedPoints(width, height);
      this.width, this.height, this.dist, this.rand := width, height, dist, rand;
      frontier, visited, drawn, marked, emitted := seeds, {}, 0, [], [];
    }

    /**
     * The next wave, or None once the frontier is empty. A wave dequeues
     * exactly the points in the frontier when it starts and expands them
     * in order; the new frontier is exactly the points it pushed. The
     * wave's segments join those emitted before, and no two of all of them
     * share a React key.
     */
    method Step() returns (wave: Option<seq<Segment>>)
      requires Valid()
      modifies this
      ensures Valid()
      ensures old(frontier) == [] ==> wave == None && unchanged(this)
      ensures old(frontier) != [] ==>
        var r := ExpandAll(Cfg(), Progress(old(visited), old(marked), old(drawn), [], []), old(frontier));
        wave == Some(r.lines) && frontier == r.pushed &&
        visited == r.visited && marked == r.marked && drawn == r.drawn
      ensures wave.Some? ==> emitted == old(emitted) + wave.value
    {
      if |frontier| == 0 {
        return None;
      }
      ghost var start := Progress(visited, marked, drawn, [], []);
      var points, seen, used, lines := ExpandWave(Cfg(), frontier, visited, drawn, start);
      ExpandAllMarkedOnce(Cfg(), start, frontier);
      AppendWaveKeys(Cfg(), start, frontier, emitted);
      marked := ExpandAll(Cfg(), start, frontier).marked;
      emitted := emitted + lines;
      frontier, visited, drawn := points, seen, used;
      wave := Some(lines);
    }

    /**
     * The driver: asks for waves until the generator is exhausted and
     * returns them in order. It terminates because each wave either visits
     * a new viewport key or leaves the frontier empty, and visited keys are
     * never forgotten. The waves, joined in order, are exactly the
     * segments it emits.
     */
    method Run() returns (waves: seq<seq<Segment>>)
      requires Valid()
      modifies this
      ensures Valid() && frontier == []
      ensures old(visited) <= visited
      ensures emitted == old(emitted) + Concat(waves)
    {
      waves := [];
      ghost var history := emitted;
      while true
        invariant Valid() && old(visited) <= visited
        invariant emitted == history + Concat(waves)
        decreases Remaining(), |frontier|
      {
        ghost var before := Progress(visited, marked, drawn, [], []);
        ghost var pending := frontier;
        var wave := Step();
        if pending != [] {
          ExpandAllVisits(Cfg(), before, pending);
          ExpandAllProgress(Cfg(), before, pending);
        }
        if wave == None {
          return;
        }
        ConcatSnoc(history, waves, wave.value);
        waves := waves + [wave.value];
      }
    }
  }
}
