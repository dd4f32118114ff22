/** Coordinates on the square board of side n: the row-major index
    x + n*y used by getMap, the four-neighbourhood, and the edges. */
module Grid {

  predicate InGrid(n: int, x: int, y: int)
  {
    0 <= x < n && 0 <= y < n
  }

  /** The array index getMap uses for (x, y). */
  function Index(n: int, x: int, y: int): int
  {
    x + n * y
  }

  /** n * k is at least n for every positive k. */
  lemma {:induction false} MulAtLeast(n: int, k: int)
    requires 0 < n && 1 <= k
    ensures n * k >= n
    decreases k
  {
    if k > 1 {
      MulAtLeast(n, k - 1);
      assert n * k == n * (k - 1) + n;
    }
  }

  /** Quotient and remainder are unique. */
  lemma DivModUnique(n: int, i: int, q: int, r: int)
    requires 0 < n && 0 <= r < n && i == n * q + r
    ensures i / n == q && i % n == r
  {
    var q', r' := i / n, i % n;
    assert n * (q - q') == r' - r;
    if q > q' {
      MulAtLeast(n, q - q');
    } else if q < q' {
      MulAtLeast(n, q' - q);
    }
  }

  /** An in-grid coordinate has an index in [0, n*n), and the index gives
      the coordinate back. */
  lemma IndexCoords(n: int, x: int, y: int)
    requires InGrid(n, x, y)
    ensures 0 <= Index(n, x, y) < n * n
    ensures Index(n, x, y) % n == x && Index(n, x, y) / n == y
  {
    if y < n - 1 {
      MulAtLeast(n, n - 1 - y);
      assert n * (n - 1 - y) == n * n - n - n * y;
    } else {
      assert n * y == n * n - n;
    }
    DivModUnique(n, Index(n, x, y), y, x);
  }

  /** Every index in [0, n*n) is the index of an in-grid coordinate. */
  lemma CoordsIndex(n: int, i: int)
    requires 0 < n && 0 <= i < n * n
    ensures InGrid(n, i % n, i / n) && Index(n, i % n, i / n) == i
  {
    var q := i / n;
    assert i == n * q + i % n;
    if q >= n {
      MulAtLeast(n, q - n + 1);
    }
  }

  /** The in-grid four-neighbours of (x, y), in the order left, up, down,
      right in which both propagators visit them. */
  function Neighbourhood(n: int, x: int, y: int): (r: seq<int>)
    requires InGrid(n, x, y)
    ensures |r| <= 4
    ensures forall e :: e in r ==> 0 <= e < n * n && e != Index(n, x, y)
  {
    IndexCoords(n, x, y);
    (if x - 1 >= 0 then (IndexCoords(n, x - 1, y); [Index(n, x - 1, y)]) else [])
    + (if y - 1 >= 0 then (IndexCoords(n, x, y - 1); [Index(n, x, y - 1)]) else [])
    + (if y + 1 < n then (IndexCoords(n, x, y + 1); [Index(n, x, y + 1)]) else [])
    + (if x + 1 < n then (IndexCoords(n, x + 1, y); [Index(n, x + 1, y)]) else [])
  }

  /** The neighbourhood holds exactly the in-grid cells at Manhattan
      distance one. */
  lemma NeighbourhoodMembers(n: int, x: int, y: int)
    requires InGrid(n, x, y)
    ensures forall x', y' :: InGrid(n, x', y') ==>
      (Index(n, x', y') in Neighbourhood(n, x, y) <==> Distance(x, y, x', y') == 1)
  {
    forall x', y' | InGrid(n, x', y')
      ensures Index(n, x', y') in Neighbourhood(n, x, y) <==> Distance(x, y, x', y') == 1
    {
      IndexCoords(n, x', y');
      var r := Neighbourhood(n, x, y);
      if Distance(x, y, x', y') == 1 {
        if x' == x - 1 { assert y' == y; }
        else if x' == x + 1 { assert y' == y; }
        else { assert x' == x; }
      }
      if Index(n, x', y') in r {
        var i := Index(n, x', y');
        if x - 1 >= 0 { IndexCoords(n, x - 1, y); }
        if y - 1 >= 0 { IndexCoords(n, x, y - 1); }
        if y + 1 < n { IndexCoords(n, x, y + 1); }
        if x + 1 < n { IndexCoords(n, x + 1, y); }
      }
    }
  }

  /** A member of the neighbourhood is one of the four in-grid neighbours. */
  lemma NeighbourhoodCases(n: int, x: int, y: int, d: int)
    requires InGrid(n, x, y) && d in Neighbourhood(n, x, y)
    ensures (InGrid(n, x - 1, y) && d == Index(n, x - 1, y)) || (InGrid(n, x, y - 1) && d == Index(n, x, y - 1)) ||
            (InGrid(n, x, y + 1) && d == Index(n, x, y + 1)) || (InGrid(n, x + 1, y) && d == Index(n, x + 1, y))
  {
  }

  /** Manhattan distance. */
  function Distance(x: int, y: int, x': int, y': int): nat
  {
    (if x <= x' then x' - x else x - x') + (if y <= y' then y' - y else y - y')
  }

  /** j is one of the four in-grid neighbours of index i. */
  predicate Adjacent(n: int, i: int, j: int)
  {
    0 < n && 0 <= i < n * n && (CoordsIndex(n, i); j in Neighbourhood(n, i % n, i / n))
  }

  /** On the top or left edge: a build-up seed there carries the NW flag. */
  predicate OnNWEdge(n: int, x: int, y: int)
  {
    x == 0 || y == 0
  }

  /** On the bottom or right edge: a build-up seed there carries the SE flag. */
  predicate OnSEEdge(n: int, x: int, y: int)
  {
    x == n - 1 || y == n - 1
  }

  predicate OnPerimeter(n: int, x: int, y: int)
  {
    OnNWEdge(n, x, y) || OnSEEdge(n, x, y)
  }
}
