# Line-growth background generator, modelled in Dafny

The `Background` component of react-horizons draws its background as a web of
line segments. The segments grow outward in waves from a grid of seed points.
The web is built by a breadth-first generator over an implicit lattice of points:

- Seeds sit on a 500-pixel grid that starts at (100, 100) and covers the viewport.
- Every point that is newly visited and inside the viewport picks two or three
  random compass directions. It then steps `dist` pixels in each of them.
- The point gets one segment to each resulting neighbour whose key `"x,y"` is
  not yet visited, and those neighbours join the next wave's frontier.
- Each wave dequeues exactly the points that were in the frontier when it began.
  It yields its segments as one unit.

The project models that core:

- `geometry.dfy`: directions and their numeric codes, points, segments, the
  inclusive viewport check, the compass step with its parent-tag table, and the
  resize predicate that decides whether to redraw.
- `point_keys.dfy`: the decimal `"x,y"` key, and the proof that two keys are
  equal exactly when the coordinates are. It also holds a segment's React key
  `s<from>e<to>`, and the proof that the key determines both endpoint keys.
- `directions.dfy`: the direction choice. The candidates are filtered, an array
  is shuffled in place by a descending Fisher-Yates loop, and a slice is taken
  whose start depends on JavaScript truthiness.
- `neighbors.dfy`: the mapping of the chosen directions to neighbour points.
- `seeds.dfy`: the nested seed loops, proved equal to a recursive definition of
  the grid.
- `waves.dfy`: one wave as a function of the state before it, with lemmas
  about visiting, segments and progress.
- `generator.dfy`: the generator as a class. It holds a frontier, a visited
  set and a counter of random draws. `Step` produces one wave, or `None` once
  the generator is exhausted. The loop behind `Step` uses `shift`/`push` on a
  queue. `Run` is the driver, and it provably terminates. A ghost history of
  the emitted segments stands for the `els` list, and no two of its segments
  share a React key.

`Math.random` is replaced by a tape `rand: nat -> nat`. The t-th draw of the run
is `rand(t)`. The Fisher-Yates iteration for index i swaps with
`rand(t) % (i + 1)`, so every partner in [0, i] can occur.
`window.innerWidth` and `window.innerHeight` become the parameters `width` and
`height`. The neighbour step is a positive integer `dist`. The component sets `this.DIST = 50`, the intended step, but its offsets read the unset `Background.DIST` (see "Left out").

The direction choice keeps fewer directions than the candidate lists hold.
The code slices the shuffled candidates from index 4 (`slice(incoming ? 4 : 5)`),
so a point with a parent tag keeps 3 of its 7 candidates. The condition uses
JavaScript truthiness, so when the parent tag is TOP (code 0) the slice starts
at 5 and only 2 directions are kept. A seed has no parent, so it keeps 3 of its
8 candidates.

## Model

| member | source | states |
|---|---|---|
| Geometry.Code | dist/Lines.js:4-13 | every direction has a code below 8, and only TOP has code 0 (the one falsy code) |
| Geometry.IsPointValid | dist/Lines.js:124-130 | a point is valid iff 0 <= x <= width and 0 <= y <= height; both bounds are inclusive |
| Geometry.DeltaX | dist/Lines.js:139-195 | the horizontal part of each case of the switch (0 for TOP and BOTTOM, -dist for the three left-hand directions, +dist for the three right-hand ones); NeighborOffset and NeighborInjective state what it guarantees |
| Geometry.DeltaY | dist/Lines.js:139-195 | the vertical part of each case of the switch (0 for LEFT and RIGHT, -dist for the three upper directions, +dist for the three lower ones); NeighborOffset and NeighborInjective state what it guarantees |
| Geometry.ParentTag | dist/Lines.js:139-195 | the `parent` of each case: six directions tag their opposite, while LEFT and RIGHT both tag TOP_LEFT as written; NeighborOffset states that every neighbour carries this tag |
| Geometry.Neighbor | dist/Lines.js:139-195 | one case of the switch, the point one step away with the table's tag; NeighborOffset proves the offset lies in {-dist, 0, dist}² without (0, 0), and NeighborInjective proves different directions reach different coordinates |
| Geometry.NeighborOffset | dist/Lines.js:139-195 | a neighbour differs from its point by a vector in {-dist, 0, dist}² other than (0, 0); its parent tag follows the switch table, including LEFT and RIGHT both tagging TOP_LEFT |
| Geometry.NeighborInjective | dist/Lines.js:139-195 | two directions lead to the same coordinates iff they are the same direction |
| Geometry.ShouldRedraw | dist/Lines.js:37 | a resize does not redraw iff the drawn width is at most 768 and the new width equals it |
| PointKeys.KeyOf | dist/Lines.js:133 | the template string `"x,y"` of two integers; PointKeyCoordinates proves it determines x and y |
| PointKeys.PointKey | dist/Lines.js:132-134 | `_getPointKey`: the key of the coordinates, where the parent tag plays no part; PointKeyCoordinates proves two keys are equal iff x and y agree |
| PointKeys.NatToStringInjective | dist/Lines.js:133 | two naturals have the same decimal rendering iff they are equal |
| PointKeys.IntToStringInjective | dist/Lines.js:133 | two integers, with their signs, have the same decimal rendering iff they are equal |
| PointKeys.PointKeyCoordinates | dist/Lines.js:132-134 | two points have the same key iff their x and y agree, whatever their parent tags |
| PointKeys.NatToString | dist/Lines.js:133 | the decimal rendering of a natural: a single digit exactly when it is below 10, and it starts with a digit, which is `0` only for 0 itself, so there are no leading zeros; NatToStringInjective proves it injective |
| PointKeys.IntToString | dist/Lines.js:133 | the decimal rendering of an integer, with a leading minus sign exactly when it is negative; IntToStringInjective and IntToStringChars state its properties |
| PointKeys.IntToStringChars | dist/Lines.js:133 | a rendered integer holds only decimal digits and minus signs, so neither the comma of a point key nor the `e` of a segment key can occur inside it |
| PointKeys.PointKeyLacksE | dist/Lines.js:133 | a point key never holds the letter `e` |
| PointKeys.SegmentKey | dist/Lines.js:112 | the React key `s<from key>e<to key>` of a segment; SegmentKeyInjective proves it determines both endpoint keys |
| PointKeys.SegmentKeyInjective | dist/Lines.js:112 | two segments have the same React key iff their start keys agree and their end keys agree |
| DirectionChoice.Without | dist/Lines.js:207 | the `filter` of the candidates against the incoming direction, in order; WithoutFacts states what it keeps and its length |
| DirectionChoice.Candidates | dist/Lines.js:207 | the filtered compass literal; CandidatesFacts proves it is each direction other than the incoming one, once |
| DirectionChoice.CompassComplete | dist/Lines.js:207 | `Compass`, the literal list of directions, holds all eight directions, each once |
| DirectionChoice.DrawCount | dist/Lines.js:209-210 | the number of `Math.random` calls one shuffle makes, one per iteration from the last index down to 1: 7 for a seed and 6 otherwise; CandidatesFacts proves it is one less than the number of candidates |
| DirectionChoice.Swap | dist/Lines.js:211 | the destructuring swap of two entries, of the same length; SwapPermutes proves it is a permutation |
| DirectionChoice.WithoutFacts | dist/Lines.js:207 | filtering keeps exactly the elements other than the incoming direction and keeps them distinct; on a distinct list it drops one element when the incoming direction occurs and none otherwise |
| DirectionChoice.CandidatesFacts | dist/Lines.js:207 | the filtered compass holds each direction other than the incoming one exactly once: 8 for a seed, 7 otherwise |
| DirectionChoice.SwapPermutes | dist/Lines.js:211 | swapping two entries is a permutation and keeps entries distinct |
| DirectionChoice.ShuffleDown | dist/Lines.js:209-212 | the iterations i, i-1, ..., 1 of the descending loop, the k-th taking its partner from the k-th draw; ShuffleDownPermutes proves it permutes its input, and Shuffle proves the array loop computes it |
| DirectionChoice.Shuffled | dist/Lines.js:209-212 | the whole shuffle, of the same length as its input; ShuffledPermutes proves it is a permutation that keeps entries distinct |
| DirectionChoice.Truthy | dist/Lines.js:214 | JavaScript truthiness of the incoming direction: absent, or TOP whose code is 0, is falsy; every other direction is truthy |
| DirectionChoice.SliceStart | dist/Lines.js:214 | where the slice starts: 4 for a truthy incoming direction, otherwise 5; RandomDirectionsFacts derives the 3-or-2 result length from it |
| DirectionChoice.RandomDirections | dist/Lines.js:206-215 | `_getRandomDirections`: filter, shuffle, slice; RandomDirectionsFacts proves its results are distinct, never the incoming direction, and 3 (2 for TOP) in number, and GetRandomDirections proves the in-place form equals it |
| DirectionChoice.ShuffleDownPermutes | dist/Lines.js:209-212 | the loop iterations from i down to 1 permute the list and keep it distinct |
| DirectionChoice.ShuffledPermutes | dist/Lines.js:209-212 | the whole shuffle is a permutation of the candidates and keeps them distinct |
| DirectionChoice.Shuffle | dist/Lines.js:209-212 | the in-place loop over the array leaves exactly the shuffled sequence |
| DirectionChoice.RandomDirectionsFacts | dist/Lines.js:206-215 | the chosen directions are distinct and never the incoming one; there are 3 of them, or 2 when the incoming direction is TOP |
| DirectionChoice.GetRandomDirections | dist/Lines.js:206-215 | filtering into an array, shuffling it in place and slicing returns exactly the chosen directions |
| Neighbors.StepAll | dist/Lines.js:139-203 | the `map` over the directions, one neighbour per direction in order; StepAllKeys proves distinct directions give distinct keys |
| Neighbors.RandomNeighbors | dist/Lines.js:136-204 | `_getRandomNeighbors`: the chosen directions mapped to neighbours; RandomNeighborsFacts proves their count, offsets and distinct keys |
| Neighbors.StepAllKeys | dist/Lines.js:139-195 | steps in distinct directions give points with pairwise distinct keys, none equal to the key of the point itself |
| Neighbors.RandomNeighborsFacts | dist/Lines.js:136-204 | there are 3 neighbours (2 when the parent tag is TOP); each is one step away in a direction other than the parent tag; their keys are pairwise distinct and differ from the point's key |
| Seeds.SeedGrid | dist/Lines.js:222-233 | the seed list as a recursive definition, column by column; SeedGridExact, SeedGridEmpty and SeedGrid600 state its contents, and GetSeedPoints proves the nested loops build it |
| Seeds.SeedGridExact | dist/Lines.js:222-233 | the seeds are exactly the parentless points (100 + 500k, 100 + 500j) with x < width and y < height; they are pairwise distinct and in strictly increasing x-major order |
| Seeds.SeedGridEmpty | dist/Lines.js:224-225 | there are no seeds when width <= 100 or height <= 100 |
| Seeds.GetSeedPoints | dist/Lines.js:217-234 | the nested loops return exactly the seed grid |
| Seeds.SeedGrid600 | dist/Lines.js:224-229 | a 600 x 600 viewport has the single seed (100, 100) |
| Waves.UnvisitedAppend | dist/Lines.js:99 | the filter works point by point: filtering a concatenation gives the filtered parts in order, and a single point is kept iff its key is not visited, so the kept points keep their order and multiplicity |
| Waves.UnvisitedDistinct | dist/Lines.js:99 | the filter keeps distinct points distinct |
| Waves.UnvisitedKeysDistinct | dist/Lines.js:99 | filtering a list whose points have pairwise distinct keys keeps the keys pairwise distinct |
| Waves.Unvisited | dist/Lines.js:99 | the filter keeps a neighbour iff its key is not visited, and never returns more points than it was given; UnvisitedAppend adds order and multiplicity |
| Waves.Draws | dist/Lines.js:209-210 | the `count` numbers of the random tape that follow the `start` draws already used, in order and exactly `count` of them |
| Waves.LinesTo | dist/Lines.js:101 | `neighbors.map(n => this._createLine(point, n))`: one segment per neighbour, and the k-th goes from the point to the k-th neighbour |
| Waves.OffspringFacts | dist/Lines.js:99 | a point pushes at most three neighbours; each is one step away from it, has a key that is not visited, and no two share a key |
| Waves.Offspring | dist/Lines.js:99 | the neighbours one in-bounds point pushes; OffspringFacts states their count, offsets, distinct keys and unvisited keys |
| Waves.ExpandPoint | dist/Lines.js:90-103 | the loop body for one dequeued point as a function of the state; ExpandPointVisits and ExpandPointLines state what it changes, and ExpandHead proves the imperative body computes it |
| Waves.ExpandAll | dist/Lines.js:86-104 | the for loop of one wave as a left fold of ExpandPoint over the snapshot; the ExpandAll lemmas state its effect, and ExpandWave proves the shift/push loop computes it |
| Waves.ExpandPointVisits | dist/Lines.js:90-96 | a point whose key is visited changes nothing; otherwise exactly its key is added to the visited set, once |
| Waves.ExpandPointLines | dist/Lines.js:92-103 | only a newly visited in-bounds point emits segments; it emits at most three, one to each point it pushes, each ending at a point whose key is not visited at emission time |
| Waves.PushedLines | dist/Lines.js:101-102 | the i-th segment emitted for a point ends at the i-th point it pushes, and every such segment is sound |
| Waves.ExpandAllExtends | dist/Lines.js:89-104 | a wave only adds: visited keys, draws, pushed points and segments all grow by extension |
| Waves.ExpandAllVisits | dist/Lines.js:89-96 | after a wave, the visited set is the old one plus the keys of every dequeued point |
| Waves.ExpandAllMarkedOnce | dist/Lines.js:92-96 | across a wave, each visited key is marked exactly once, so no key is expanded twice |
| Waves.ExpandAllLines | dist/Lines.js:86-103 | a wave emits as many segments as it pushes points, at most three per dequeued point. Each segment starts at an in-bounds point newly visited in the wave, ends one step away and ends at a key that was unvisited when the wave began |
| Waves.ExpandPointTargets | dist/Lines.js:99-101 | the segments one point emits end at points with pairwise distinct keys |
| Waves.ExpandAllSegmentKeys | dist/Lines.js:86-112 | no two segments emitted in one wave share a React key: segments from different dequeued points start at different newly visited keys, and those from one point end at different keys |
| Waves.AppendWaveKeys | dist/Lines.js:74-76 | appending a wave's segments to the ones emitted before keeps every React key in the list distinct, and every segment still starts at a visited key |
| Waves.ExpandAllProgress | dist/Lines.js:85-107 | a wave never increases the number of unvisited in-bounds keys, and it strictly decreases that number whenever it pushes anything |
| Generator.ExpandHead | dist/Lines.js:90-102 | one iteration of the wave loop computes exactly the expansion of the dequeued point |
| Generator.ExpandWave | dist/Lines.js:86-104 | the for loop dequeues exactly the snapshot's points. It leaves behind exactly the points pushed during the wave, in order, together with its segments |
| Generator.LineGenerator.constructor | dist/Lines.js:81-83 | a run starts from the seed grid with nothing visited and no segment emitted |
| Generator.LineGenerator.Step | dist/Lines.js:85-107 | an empty frontier yields None and changes nothing. Otherwise the wave's segments, the new frontier, the visited set and the draws used are exactly those of expanding the old frontier in order. The wave's segments are appended to the emitted ones, every visited key stays marked once, and no two emitted segments share a React key |
| Generator.LineGenerator.Run | dist/Lines.js:64-77 | asking for waves until there are none terminates with an empty frontier. The returned waves, joined in order, are exactly the segments emitted, so `els` never holds two segments with the same React key. Keys visited before are still visited |

## Left out

- Rendering is not modelled: React, `setState` and the SVG `line` attributes (stroke, width, caps, pixel strings). A segment is the pair (from, to) with its React key `s<from>e<to>`. The `els` display list is the ghost history `emitted` of the generator.
- Timing is not modelled: the `setInterval`/`clearInterval` schedule and the debounced `resize` listener. `Run` asks for waves back to back.
- `window.innerWidth` and `window.innerHeight` are fixed for a run. The source re-reads them on each call, so a resize during a run could change them.
- `Math.random` is a tape of naturals. The model proves that the shuffle is a permutation for every tape. It does not state that the shuffle is uniform, which is a probabilistic property.
- The source adds the static `Background.DIST` to coordinates, but only the instance field `this.DIST = 50` is ever set. As written, the coordinate that a step moves becomes NaN and the other one is kept. So the TOP and BOTTOM neighbours of (x, y) share the key `"x,NaN"`, LEFT and RIGHT share `"NaN,y"`, and the four diagonal neighbours share `"NaN,NaN"`. The model uses the intended integer step `dist > 0` instead, and does not model floating point.
- Three defensive pieces of code that never fire are left out: the unreachable `default` case of the direction switch, the `point &&` guard and the optional chaining in `_getPointKey`. Every direction is one of the eight, and every dequeued point is defined.
- Generator.LineGenerator.Run: its contract does not restate each wave's contents in terms of the seeds. `Step` describes each wave, and `Run` states termination, the empty final frontier, that the waves joined are the emitted segments, and that visited keys are kept.
