/**
 * Sums and means over the resource grid, taken as a width x height table of
 * reals: what the reporters compute, and the bounds and monotonicity facts
 * the model's invariants give them.
 */
module Stats {

  function Sum(xs: seq<real>): real {
    if xs == [] then 0.0 else Sum(xs[..|xs| - 1]) + xs[|xs| - 1]
  }

  function GridTotal(g: seq<seq<real>>): real {
    if g == [] then 0.0 else GridTotal(g[..|g| - 1]) + Sum(g[|g| - 1])
  }

  /** The number of cells of the grid (the array's size). */
  function CellCount(g: seq<seq<real>>): nat {
    if g == [] then 0 else CellCount(g[..|g| - 1]) + |g[|g| - 1]|
  }

  /** The mean of `count` values adding up to `total`, reported as 0 when there are none. */
  function Mean(total: real, count: nat): (m: real)
    ensures count == 0 ==> m == 0.0
  {
    if count == 0 then 0.0 else total / count as real
  }

  predicate Shaped(g: seq<seq<real>>, width: nat, height: nat) {
    |g| == width && forall i :: 0 <= i < |g| ==> |g[i]| == height
  }

  /** Every value lies in [lo, hi]. */
  predicate Within(xs: seq<real>, lo: real, hi: real) {
    forall j :: 0 <= j < |xs| ==> lo <= xs[j] <= hi
  }

  /** A width x height grid has width * height cells. */
  lemma {:induction false} CellCountShaped(g: seq<seq<real>>, width: nat, height: nat)
    requires Shaped(g, width, height)
    ensures CellCount(g) == width * height
  {
    if g != [] {
      CellCountShaped(g[..|g| - 1], width - 1, height);
      assert width * height == (width - 1) * height + height;
    }
  }

  /** n copies of v added up; kept apart from n * v so that the bounds below stay linear. */
  function Times(n: nat, v: real): real {
    if n == 0 then 0.0 else Times(n - 1, v) + v
  }

  lemma {:induction false} TimesIsProduct(n: nat, v: real)
    ensures Times(n, v) == n as real * v
  {
    if n > 0 {
      TimesIsProduct(n - 1, v);
      assert n as real * v == (n - 1) as real * v + v;
    }
  }

  lemma {:induction false} TimesAdd(a: nat, b: nat, v: real)
    ensures Times(a + b, v) == Times(a, v) + Times(b, v)
  {
    if b > 0 {
      TimesAdd(a, b - 1, v);
    }
  }

  /** Values all in [lo, hi] add up to between |xs| copies of lo and |xs| copies of hi. */
  lemma {:induction false} SumBounds(xs: seq<real>, lo: real, hi: real)
    requires Within(xs, lo, hi)
    ensures Times(|xs|, lo) <= Sum(xs) <= Times(|xs|, hi)
  {
    if xs != [] {
      SumBounds(xs[..|xs| - 1], lo, hi);
    }
  }

  /** Pointwise smaller values have a smaller sum. */
  lemma {:induction false} SumMonotone(xs: seq<real>, ys: seq<real>)
    requires |xs| == |ys|
    requires forall j :: 0 <= j < |xs| ==> xs[j] <= ys[j]
    ensures Sum(xs) <= Sum(ys)
  {
    if xs != [] {
      SumMonotone(xs[..|xs| - 1], ys[..|ys| - 1]);
    }
  }

  /** A grid whose cells all lie in [lo, hi] has a total between its size in copies of lo and of hi. */
  lemma {:induction false} GridBounds(g: seq<seq<real>>, lo: real, hi: real)
    requires forall i :: 0 <= i < |g| ==> Within(g[i], lo, hi)
    ensures Times(CellCount(g), lo) <= GridTotal(g) <= Times(CellCount(g), hi)
  {
    if g != [] {
      var init, last := g[..|g| - 1], g[|g| - 1];
      GridBounds(init, lo, hi);
      SumBounds(last, lo, hi);
      TimesAdd(CellCount(init), |last|, lo);
      TimesAdd(CellCount(init), |last|, hi);
    }
  }

  /** The mean of count values adding up to between count copies of lo and of hi lies in [lo, hi]. */
  lemma MeanBetween(total: real, count: nat, lo: real, hi: real)
    requires 0 < count && Times(count, lo) <= total <= Times(count, hi)
    ensures lo <= Mean(total, count) <= hi
  {
    TimesIsProduct(count, lo);
    TimesIsProduct(count, hi);
    var n := count as real;
    assert total / n * n == total;
  }

  /** The mean of a non-empty grid whose cells all lie in [lo, hi] lies in [lo, hi]. */
  lemma GridMeanBounds(g: seq<seq<real>>, lo: real, hi: real)
    requires CellCount(g) > 0
    requires forall i :: 0 <= i < |g| ==> Within(g[i], lo, hi)
    ensures lo <= Mean(GridTotal(g), CellCount(g)) <= hi
  {
    GridBounds(g, lo, hi);
    MeanBetween(GridTotal(g), CellCount(g), lo, hi);
  }

  /** A non-empty grid filled with c has mean c. */
  lemma GridMeanUniform(g: seq<seq<real>>, c: real)
    requires CellCount(g) > 0
    requires forall i :: 0 <= i < |g| ==> Within(g[i], c, c)
    ensures Mean(GridTotal(g), CellCount(g)) == c
  {
    GridMeanBounds(g, c, c);
  }

  lemma MeanMonotone(a: real, b: real, count: nat)
    requires a <= b
    ensures Mean(a, count) <= Mean(b, count)
  {
    if count > 0 {
      var n := count as real;
      assert a / n * n == a && b / n * n == b;
    }
  }

  /** A grid that is pointwise no larger than another of the same shape has no larger total and mean. */
  lemma {:induction false} GridMonotone(g: seq<seq<real>>, h: seq<seq<real>>, width: nat, height: nat)
    requires Shaped(g, width, height) && Shaped(h, width, height)
    requires forall i, j :: 0 <= i < width && 0 <= j < height ==> g[i][j] <= h[i][j]
    ensures CellCount(g) == CellCount(h)
    ensures GridTotal(g) <= GridTotal(h)
    ensures Mean(GridTotal(g), CellCount(g)) <= Mean(GridTotal(h), CellCount(h))
  {
    CellCountShaped(g, width, height);
    CellCountShaped(h, width, height);
    if g != [] {
      GridMonotone(g[..|g| - 1], h[..|h| - 1], width - 1, height);
      SumMonotone(g[|g| - 1], h[|h| - 1]);
    }
    MeanMonotone(GridTotal(g), GridTotal(h), CellCount(g));
  }
}
