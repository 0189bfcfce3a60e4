/**
 * The random choice of directions in which a point grows: the eight
 * compass directions without the incoming one, shuffled in place by a
 * descending Fisher-Yates loop, and then cut down by a slice whose start
 * depends on whether the incoming direction is truthy.
 *
 * The random numbers are a parameter: the k-th draw of a call picks the swap
 * partner of the k-th iteration as `draws[k] % (i + 1)`, so every partner in
 * [0, i] is available, as `Math.floor(Math.random() * (i + 1))` makes it.
 */
module DirectionChoice {
  import opened Geometry

  /** The candidate list in the order the source writes it. */
  const Compass: seq<Direction> := [Top, TopRight, TopLeft, Bottom, BottomLeft, BottomRight, Left, Right]

  lemma CompassComplete()
    ensures |Compass| == 8 && Distinct(Compass)
    ensures forall d: Direction :: d in Compass
  {
    forall d: Direction ensures d in Compass {
      match d
      case Top => assert Compass[0] == d;
      case TopRight => assert Compass[1] == d;
      case TopLeft => assert Compass[2] == d;
      case Bottom => assert Compass[3] == d;
      case BottomLeft => assert Compass[4] == d;
      case BottomRight => assert Compass[5] == d;
      case Left => assert Compass[6] == d;
      case Right => assert Compass[7] == d;
    }
  }

  /**
   * `s` without the elements equal to `incoming`, in order; an absent
   * incoming direction is never equal to a direction, so nothing is removed.
   */
  function Without(s: seq<Direction>, incoming: Option<Direction>): seq<Direction>
  {
    if s == [] then []
    else if Some(s[0]) != incoming then [s[0]] + Without(s[1..], incoming)
    else Without(s[1..], incoming)
  }

  /**
   * Filtering keeps exactly the elements other than `incoming`; it keeps
   * distinct elements distinct and, on a distinct list, removes one element
   * when `incoming` occurs and none otherwise.
   */
  lemma {:induction false} WithoutFacts(s: seq<Direction>, incoming: Option<Direction>)
    ensures forall d :: d in Without(s, incoming) <==> d in s && Some(d) != incoming
    ensures Distinct(s) ==> Distinct(Without(s, incoming))
    ensures Distinct(s) ==>
      |Without(s, incoming)| == if incoming.Some? && incoming.value in s then |s| - 1 else |s|
  {
    if s != [] {
      WithoutFacts(s[1..], incoming);
      var rest := Without(s[1..], incoming);
      if Distinct(s) {
        assert Distinct(s[1..]);
        assert s[0] !in s[1..];
        if Some(s[0]) != incoming {
          var r := [s[0]] + rest;
          forall i, j | 0 <= i < j < |r| ensures r[i] != r[j] {
            if i == 0 {
              assert r[j] in rest;
            } else {
              assert r[i] == rest[i - 1] && r[j] == rest[j - 1];
            }
          }
        }
      }
    }
  }

  /** The directions a point with parent tag `incoming` may grow in, before shuffling. */
  function Candidates(incoming: Option<Direction>): seq<Direction>
  {
    Without(Compass, incoming)
  }

  /** How many random draws one call consumes: one per loop iteration i = n-1 down to 1. */
  function DrawCount(incoming: Option<Direction>): nat
  {
    if incoming.None? then 7 else 6
  }

  /**
   * The candidates are the eight directions without the incoming one, each
   * once: eight of them for a seed, seven otherwise.
   */
  lemma CandidatesFacts(incoming: Option<Direction>)
    ensures Distinct(Candidates(incoming))
    ensures forall d :: d in Candidates(incoming) <==> Some(d) != incoming
    ensures |Candidates(incoming)| == DrawCount(incoming) + 1
    ensures |Candidates(incoming)| == if incoming.None? then 8 else 7
  {
    CompassComplete();
    WithoutFacts(Compass, incoming);
  }

  function Swap<T>(s: seq<T>, i: nat, j: nat): (r: seq<T>)
    requires i < |s| && j < |s|
    ensures |r| == |s|
  {
    s[i := s[j]][j := s[i]]
  }

  lemma SwapPermutes<T>(s: seq<T>, i: nat, j: nat)
    requires i < |s| && j < |s|
    ensures multiset(Swap(s, i, j)) == multiset(s)
    ensures Distinct(s) ==> Distinct(Swap(s, i, j))
  {
    var r := Swap(s, i, j);
    if Distinct(s) {
      forall a, b | 0 <= a < b < |r| ensures r[a] != r[b] {
        var a' := if a == i then j else if a == j then i else a;
        var b' := if b == i then j else if b == j then i else b;
        assert r[a] == s[a'] && r[b] == s[b'] && a' != b';
      }
    }
  }

  /**
   * The iterations i, i-1, ..., 1 of the descending Fisher-Yates loop,
   * the first of them taking its partner from `draws[0]`.
   */
  function ShuffleDown<T>(s: seq<T>, i: nat, draws: seq<nat>): (r: seq<T>)
    requires i < |s| && i <= |draws|
    ensures |r| == |s|
    decreases i
  {
    if i == 0 then s else ShuffleDown(Swap(s, i, draws[0] % (i + 1)), i - 1, draws[1..])
  }

  lemma {:induction false} ShuffleDownPermutes<T>(s: seq<T>, i: nat, draws: seq<nat>)
    requires i < |s| && i <= |draws|
    ensures multiset(ShuffleDown(s, i, draws)) == multiset(s)
    ensures Distinct(s) ==> Distinct(ShuffleDown(s, i, draws))
    decreases i
  {
    if i > 0 {
      var j := draws[0] % (i + 1);
      SwapPermutes(s, i, j);
      ShuffleDownPermutes(Swap(s, i, j), i - 1, draws[1..]);
    }
  }

  /** The whole shuffle; it is a permutation of `s`, of distinct elements when `s` has them. */
  function Shuffled<T>(s: seq<T>, draws: seq<nat>): (r: seq<T>)
    requires |s| <= |draws| + 1
    ensures |r| == |s|
  {
    if |s| == 0 then s else ShuffleDown(s, |s| - 1, draws)
  }

  lemma ShuffledPermutes<T>(s: seq<T>, draws: seq<nat>)
    requires |s| <= |draws| + 1
    ensures multiset(Shuffled(s, draws)) == multiset(s)
    ensures Distinct(s) ==> Distinct(Shuffled(s, draws))
  {
    if |s| > 0 {
      ShuffleDownPermutes(s, |s| - 1, draws);
    }
  }

  /**
   * Shuffles `a` in place: the loop runs i from the last index down to 1
   * and swaps `a[i]` with `a[j]`, j taken from the next draw.
   */
  method Shuffle<T>(a: array<T>, draws: seq<nat>)
    requires a.Length <= |draws| + 1
    modifies a
    ensures a[..] == Shuffled(old(a[..]), draws)
  {
    var i := a.Length - 1;
    while i > 0
      invariant a.Length == 0 || 0 <= i < a.Length
      invariant a.Length == 0 ==> a[..] == old(a[..])
      invariant a.Length > 0 ==>
        ShuffleDown(a[..], i, draws[a.Length - 1 - i..]) == Shuffled(old(a[..]), draws)
    {
      ghost var before := a[..];
      var k := a.Length - 1 - i;
      var j := draws[k] % (i + 1);
      a[i], a[j] := a[j], a[i];
      assert a[..] == Swap(before, i, j);
      assert draws[k..][1..] == draws[k + 1..];
      i := i - 1;
    }
  }

  /**
   * The JavaScript truthiness of the incoming direction: absent and TOP
   * (whose code is 0) are falsy.
   */
  predicate Truthy(incoming: Option<Direction>)
  {
    incoming.Some? && Code(incoming.value) != 0
  }

  /** Where the slice of the shuffled candidates starts. */
  function SliceStart(incoming: Option<Direction>): nat
  {
    if Truthy(incoming) then 4 else 5
  }

  /** The directions chosen for a point with parent tag `incoming`. */
  function RandomDirections(incoming: Option<Direction>, draws: seq<nat>): seq<Direction>
    requires DrawCount(incoming) <= |draws|
  {
    CandidatesFacts(incoming);
    Shuffled(Candidates(incoming), draws)[SliceStart(incoming)..]
  }

  lemma SuffixOfPermutation(s: seq<Direction>, t: seq<Direction>, k: nat)
    requires multiset(t) == multiset(s) && Distinct(t) && k <= |t|
    ensures Distinct(t[k..])
    ensures forall d :: d in t[k..] ==> d in s
  {
    forall d | d in t[k..] ensures d in s {
      assert d in multiset(t);
    }
  }

  /**
   * Three distinct directions, none of them the incoming one; only two when
   * the incoming direction is TOP, whose falsy code moves the slice start
   * to 5 of 7.
   */
  lemma RandomDirectionsFacts(incoming: Option<Direction>, draws: seq<nat>)
    requires DrawCount(incoming) <= |draws|
    ensures |RandomDirections(incoming, draws)| == if incoming == Some(Top) then 2 else 3
    ensures Distinct(RandomDirections(incoming, draws))
    ensures forall d :: d in RandomDirections(incoming, draws) ==> Some(d) != incoming
  {
    var candidates := Candidates(incoming);
    CandidatesFacts(incoming);
    ShuffledPermutes(candidates, draws);
    SuffixOfPermutation(candidates, Shuffled(candidates, draws), SliceStart(incoming));
  }

  /**
   * The imperative form: copies the candidates into an array, shuffles the
   * array in place and returns its tail from the slice start.
   */
  method GetRandomDirections(incoming: Option<Direction>, draws: seq<nat>) returns (r: seq<Direction>)
    requires DrawCount(incoming) <= |draws|
    ensures r == RandomDirections(incoming, draws)
  {
    var candidates := Candidates(incoming);
    CandidatesFacts(incoming);
    var a := new Direction[|candidates|](k requires 0 <= k < |candidates| => candidates[k]);
    assert a[..] == candidates;
    Shuffle(a, draws);
    r := a[SliceStart(incoming)..];
  }
}
