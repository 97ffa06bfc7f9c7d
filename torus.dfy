/**
 * The toroidal width x height grid the organisms live on: cells, the eight
 * Moore neighbours of a cell with wrap-around on both axes, and a reference
 * definition of toroidal adjacency that the neighbour function is proved
 * against.
 */
module Torus {

  datatype Cell = Cell(x: int, y: int)

  predicate InBounds(c: Cell, width: int, height: int) {
    0 <= c.x < width && 0 <= c.y < height
  }

  /** The Moore offsets (dx, dy) of radius 1, the centre excluded. */
  const Offsets: seq<(int, int)> :=
    [(-1, -1), (-1, 0), (-1, 1), (0, -1), (0, 1), (1, -1), (1, 0), (1, 1)]

  /**
   * The k-th Moore neighbour of c on the torus; the random choice among the
   * neighbourhood is the index k, an input.
   */
  function Neighbour(c: Cell, k: nat, width: int, height: int): (r: Cell)
    requires k < |Offsets| && width > 0 && height > 0
    ensures InBounds(r, width, height)
  {
    Cell((c.x + Offsets[k].0) % width, (c.y + Offsets[k].1) % height)
  }

  /** The distance between positions a and b on a ring of n positions. */
  function RingDistance(a: int, b: int, n: int): (d: int)
    requires n > 0
    ensures 0 <= d && 2 * d <= n
    ensures d == 0 <==> a % n == b % n
  {
    var f := (b - a) % n;
    ModOfDifference(a, b, n);
    if f <= n - f then f else n - f
  }

  /**
   * Reference definition of the Moore neighbourhood on the torus: a cell of
   * the grid other than c, at most one step away from c along each axis,
   * counting the wrap-around.
   */
  predicate Adjacent(c: Cell, d: Cell, width: int, height: int)
    requires width > 0 && height > 0
  {
    InBounds(d, width, height) && d != c
    && RingDistance(c.x, d.x, width) <= 1 && RingDistance(c.y, d.y, height) <= 1
  }

  /** (b - a) % n is zero exactly when a and b fall on the same ring position. */
  lemma ModOfDifference(a: int, b: int, n: int)
    requires n > 0
    ensures (b - a) % n == 0 <==> a % n == b % n
  {
    var qa, qb, qd := a / n, b / n, (b - a) / n;
    assert a == qa * n + a % n;
    assert b == qb * n + b % n;
    assert b - a == qd * n + (b - a) % n;
    if a % n == b % n {
      assert b - a == (qb - qa) * n;
      ModUnique(b - a, n, qb - qa, 0);
    } else {
      if (b - a) % n == 0 {
        assert b == a + qd * n;
        assert b == (qa + qd) * n + a % n;
        ModUnique(b, n, qa + qd, a % n);
      }
    }
  }

  /** Euclidean remainder is the unique r in [0, n) with v == q * n + r. */
  lemma ModUnique(v: int, n: int, q: int, r: int)
    requires n > 0 && 0 <= r < n && v == q * n + r
    ensures v % n == r && v / n == q
  {
    var q', r' := v / n, v % n;
    assert v == q' * n + r';
    assert (q - q') * n == q * n - q' * n;
    if q > q' {
      MulAtLeast(q - q', n);
    } else if q < q' {
      assert (q' - q) * n == q' * n - q * n;
      MulAtLeast(q' - q, n);
    }
  }

  lemma {:induction false} MulAtLeast(d: int, n: int)
    requires d >= 1 && n >= 0
    ensures d * n >= n
  {
    if d > 1 {
      MulAtLeast(d - 1, n);
      assert d * n == (d - 1) * n + n;
    }
  }

  /** Shifting an in-range position by one step and wrapping, without %. */
  lemma WrapStep(a: int, dx: int, n: int)
    requires n > 0 && 0 <= a < n && -1 <= dx <= 1
    ensures (a + dx) % n == if a + dx < 0 then a + dx + n else if a + dx >= n then a + dx - n else a + dx
  {
    if a + dx < 0 {
      ModUnique(a + dx, n, -1, a + dx + n);
    } else if a + dx >= n {
      ModUnique(a + dx, n, 1, a + dx - n);
    } else {
      ModUnique(a + dx, n, 0, a + dx);
    }
  }

  /** The ring distance between a and its one-step shift is |dx|, on a ring of at least two. */
  lemma RingDistanceOfStep(a: int, dx: int, n: int)
    requires n >= 2 && 0 <= a < n && -1 <= dx <= 1
    ensures RingDistance(a, (a + dx) % n, n) == if dx == 0 then 0 else 1
  {
    WrapStep(a, dx, n);
    var b := (a + dx) % n;
    if b - a == dx {
      WrapStep(0, dx, n);
      assert (b - a) % n == (0 + dx) % n;
    } else if b - a == dx + n {
      ModUnique(b - a, n, 0, dx + n);
    } else {
      assert b - a == dx - n;
      ModUnique(b - a, n, -1, dx);
    }
  }

  /** Every one of the eight neighbours is adjacent to c (on a grid at least 2 x 2). */
  lemma NeighbourIsAdjacent(c: Cell, k: nat, width: int, height: int)
    requires InBounds(c, width, height) && width >= 2 && height >= 2 && k < |Offsets|
    ensures Adjacent(c, Neighbour(c, k, width, height), width, height)
  {
    var (dx, dy) := Offsets[k];
    var d := Neighbour(c, k, width, height);
    RingDistanceOfStep(c.x, dx, width);
    RingDistanceOfStep(c.y, dy, height);
  }

  /** The Moore offset that leads from a to b along one axis. */
  function StepBetween(a: int, b: int, n: int): (dx: int)
    requires n >= 2 && 0 <= a < n && 0 <= b < n && RingDistance(a, b, n) <= 1
    ensures -1 <= dx <= 1 && (a + dx) % n == b
    ensures dx == 0 <==> a == b
  {
    DifferenceInRange(a, b, n);
    var f := (b - a) % n;
    if f == 0 then
      ModUnique(a, n, 0, a);
      0
    else if f == 1 then
      WrapStep(a, 1, n);
      1
    else
      WrapStep(a, -1, n);
      -1
  }

  /** The remainder of the difference of two in-range positions, without %. */
  lemma DifferenceInRange(a: int, b: int, n: int)
    requires n > 0 && 0 <= a < n && 0 <= b < n
    ensures (b - a) % n == if b >= a then b - a else b - a + n
  {
    if b >= a { ModUnique(b - a, n, 0, b - a); } else { ModUnique(b - a, n, -1, b - a + n); }
  }

  /** The position of offset (dx, dy) in Offsets. */
  function OffsetIndex(dx: int, dy: int): (k: nat)
    requires -1 <= dx <= 1 && -1 <= dy <= 1 && (dx, dy) != (0, 0)
    ensures k < |Offsets| && Offsets[k] == (dx, dy)
  {
    var i := 3 * (dx + 1) + (dy + 1);
    if i < 4 then i else i - 1
  }

  /** Every cell adjacent to c is one of its eight neighbours: the choice covers the neighbourhood. */
  lemma AdjacentIsNeighbour(c: Cell, d: Cell, width: int, height: int)
    requires InBounds(c, width, height) && width >= 2 && height >= 2
    requires Adjacent(c, d, width, height)
    ensures exists k :: 0 <= k < |Offsets| && Neighbour(c, k, width, height) == d
  {
    var dx := StepBetween(c.x, d.x, width);
    var dy := StepBetween(c.y, d.y, height);
    var k := OffsetIndex(dx, dy);
    assert Neighbour(c, k, width, height) == d;
  }

  /** On a grid at least 3 x 3 the eight neighbours are pairwise different cells. */
  lemma NeighboursDistinct(c: Cell, k: nat, j: nat, width: int, height: int)
    requires InBounds(c, width, height) && width >= 3 && height >= 3
    requires k < |Offsets| && j < |Offsets| && k != j
    ensures Neighbour(c, k, width, height) != Neighbour(c, j, width, height)
  {
    var (kx, ky) := Offsets[k];
    var (jx, jy) := Offsets[j];
    WrapStep(c.x, kx, width);
    WrapStep(c.x, jx, width);
    WrapStep(c.y, ky, height);
    WrapStep(c.y, jy, height);
  }
}
