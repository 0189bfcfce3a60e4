/**
 * The seed points: a grid with spacing 500 starting at 100 on both axes,
 * covering every position below the viewport size, laid out column by
 * column (x-major).
 */
module Seeds {
  import opened Geometry

  /** The seeds of the column at `x`, from row `y` downward. */
  function SeedColumn(x: int, y: int, height: int): seq<Point>
    decreases height - y
  {
    if y < height then [Point(x, y, None)] + SeedColumn(x, y + 500, height) else []
  }

  /** The seeds of the columns from `x` rightward. */
  function SeedColumns(x: int, width: int, height: int): seq<Point>
    decreases width - x
  {
    if x < width then SeedColumn(x, 100, height) + SeedColumns(x + 500, width, height) else []
  }

  function SeedGrid(width: int, height: int): seq<Point>
  {
    SeedColumns(100, width, height)
  }

  /** A grid position `100 + 500k` for some k >= 0. */
  predicate OnGrid(v: int)
  {
    v >= 100 && (v - 100) % 500 == 0
  }

  predicate IsSeed(p: Point, width: int, height: int)
  {
    p.parent == None && OnGrid(p.x) && p.x < width && OnGrid(p.y) && p.y < height
  }

  /** Strictly before in x-major order. */
  predicate Before(p: Point, q: Point)
  {
    p.x < q.x || (p.x == q.x && p.y < q.y)
  }

  lemma {:induction false} SeedColumnExact(x: int, y: int, height: int)
    requires OnGrid(y)
    ensures forall p: Point :: p in SeedColumn(x, y, height) <==>
      p.parent == None && p.x == x && OnGrid(p.y) && y <= p.y < height
    ensures forall i, j :: 0 <= i < j < |SeedColumn(x, y, height)| ==>
      SeedColumn(x, y, height)[i].y < SeedColumn(x, y, height)[j].y
    decreases height - y
  {
    if y < height {
      SeedColumnExact(x, y + 500, height);
      var rest := SeedColumn(x, y + 500, height);
      forall p: Point | p.parent == None && p.x == x && OnGrid(p.y) && y <= p.y < height
        ensures p in SeedColumn(x, y, height)
      {
        if p.y != y {
          assert p in rest;
        }
      }
      forall j | 1 <= j < |SeedColumn(x, y, height)| ensures SeedColumn(x, y, height)[j].y > y {
        assert SeedColumn(x, y, height)[j] in rest;
      }
    }
  }

  lemma {:induction false} SeedColumnsExact(x: int, width: int, height: int)
    requires OnGrid(x)
    ensures forall p :: p in SeedColumns(x, width, height) <==>
      IsSeed(p, width, height) && x <= p.x
    ensures forall i, j :: 0 <= i < j < |SeedColumns(x, width, height)| ==>
      Before(SeedColumns(x, width, height)[i], SeedColumns(x, width, height)[j])
    decreases width - x
  {
    if x < width {
      SeedColumnExact(x, 100, height);
      SeedColumnsExact(x + 500, width, height);
      var col, rest := SeedColumn(x, 100, height), SeedColumns(x + 500, width, height);
      var all := col + rest;
      forall p | IsSeed(p, width, height) && x <= p.x ensures p in all {
        if p.x != x {
          assert p in rest;
        } else {
          assert p in col;
        }
      }
      forall i, j | 0 <= i < j < |all| ensures Before(all[i], all[j]) {
        if j < |col| {
          assert all[i] == col[i] && all[j] == col[j];
        } else if i >= |col| {
          assert all[i] == rest[i - |col|] && all[j] == rest[j - |col|];
        } else {
          assert all[i] in col && all[j] in rest;
        }
      }
    }
  }

  /**
   * The seed grid holds exactly the parentless points (100 + 500k, 100 + 500j)
   * below the viewport size, each once, in strictly increasing x-major order.
   */
  lemma SeedGridExact(width: int, height: int)
    ensures forall p :: p in SeedGrid(width, height) <==> IsSeed(p, width, height)
    ensures forall i, j :: 0 <= i < j < |SeedGrid(width, height)| ==>
      Before(SeedGrid(width, height)[i], SeedGrid(width, height)[j])
    ensures Distinct(SeedGrid(width, height))
  {
    SeedColumnsExact(100, width, height);
    var g := SeedGrid(width, height);
    forall i, j | 0 <= i < j < |g| ensures g[i] != g[j] {
      assert Before(g[i], g[j]);
    }
  }

  lemma {:induction false} ShortColumnsEmpty(x: int, width: int, height: int)
    requires height <= 100
    ensures SeedColumns(x, width, height) == []
    decreases width - x
  {
    if x < width {
      ShortColumnsEmpty(x + 500, width, height);
    }
  }

  /** A viewport no larger than 100 in either direction has no seeds. */
  lemma SeedGridEmpty(width: int, height: int)
    requires width <= 100 || height <= 100
    ensures SeedGrid(width, height) == []
  {
    if height <= 100 {
      ShortColumnsEmpty(100, width, height);
    }
  }

  /**
   * The nested loops of the source: x from 100 in steps of 500 while below
   * the width, and for each x, y from 100 in steps of 500 while below the
   * height, appending the parentless point (x, y).
   */
  method GetSeedPoints(width: int, height: int) returns (seeds: seq<Point>)
    ensures seeds == SeedGrid(width, height)
  {
    seeds := [];
    var x := 100;
    while x < width
      invariant seeds + SeedColumns(x, width, height) == SeedGrid(width, height)
      decreases width - x
    {
      var y := 100;
      ghost var rest := SeedColumns(x + 500, width, height);
      assert seeds + SeedColumn(x, y, height) + rest == SeedGrid(width, height);
      while y < height
        invariant seeds + SeedColumn(x, y, height) + rest == SeedGrid(width, height)
        decreases height - y
      {
        ghost var col := SeedColumn(x, y + 500, height);
        assert seeds + ([Point(x, y, None)] + col) + rest == (seeds + [Point(x, y, None)]) + col + rest;
        seeds := seeds + [Point(x, y, None)];
        y := y + 500;
      }
      x := x + 500;
    }
  }

  /** A 600 x 600 viewport has the single seed (100, 100). */
  lemma SeedGrid600()
    ensures SeedGrid(600, 600) == [Point(100, 100, None)]
  {
    assert SeedColumn(100, 600, 600) == [];
    assert SeedColumns(600, 600, 600) == [];
  }
}
