/** The global burst grid: the instants `k * interval` for integer `k`, in
    seconds of PTP time. Generator and capture both snap a clock reading to
    this grid with `(t // interval + 1) * interval`, Python's floor division
    on floats, which is exact floor division on Dafny reals. */
module Grid {

  /** Python's `a // b` on floats: the floor of the exact quotient. Python
      raises `ZeroDivisionError` when `b` is zero. */
  function FloorDiv(a: real, b: real): (q: int)
    requires b != 0.0
    ensures q as real <= a / b < q as real + 1.0
  {
    (a / b).Floor
  }

  /** The `k`-th grid instant. */
  function GridPoint(k: int, interval: real): real {
    k as real * interval
  }

  /** `x` is one of the grid instants. */
  ghost predicate OnGrid(x: real, interval: real) {
    exists k: int :: x == GridPoint(k, interval)
  }

  /** The boundary `(t // interval + 1) * interval` both sides compute. */
  function NextBoundary(t: real, interval: real): (b: real)
    requires interval != 0.0
    ensures OnGrid(b, interval)
    ensures interval > 0.0 ==> t < b <= t + interval
    ensures interval < 0.0 ==> t + interval <= b < t
  {
    var k := FloorDiv(t, interval) + 1;
    MulBounds(t, interval, FloorDiv(t, interval));
    GridPoint(k, interval)
  }

  /** `q <= t / c < q + 1` scaled by `c`, for either sign of `c`. */
  lemma MulBounds(t: real, c: real, q: int)
    requires c != 0.0
    requires q as real <= t / c < q as real + 1.0
    ensures c > 0.0 ==> q as real * c <= t < (q + 1) as real * c
    ensures c < 0.0 ==> (q + 1) as real * c < t <= q as real * c
  {
    var x := t / c;
    var lo := q as real;
    var hi := (q + 1) as real;
    assert x * c == t;
    assert hi == lo + 1.0;
    if c > 0.0 {
      assert lo * c <= x * c;
      assert x < hi;
      assert x * c < hi * c;
      assert t < hi * c;
    } else {
      assert lo * c >= x * c;
      assert x * c > hi * c;
    }
  }

  /** Every time in the half-open cell `[k*I, (k+1)*I)` snaps to `(k+1)*I`:
      the boundary depends only on the cell, not on when a scheduler started. */
  lemma {:induction false} BoundaryOfCell(t: real, interval: real, k: int)
    requires interval > 0.0
    requires k as real * interval <= t < (k + 1) as real * interval
    ensures NextBoundary(t, interval) == (k + 1) as real * interval
  {
    FloorOfCell(t, interval, k);
    NextBoundaryUnfolds(t, interval);
  }

  /** Inside the cell `[k*I, (k+1)*I)` the floor quotient is `k`. */
  lemma {:induction false} FloorOfCell(t: real, interval: real, k: int)
    requires interval > 0.0
    requires k as real * interval <= t < (k + 1) as real * interval
    ensures FloorDiv(t, interval) == k
  {
    var lo := k as real;
    var hi := (k + 1) as real;
    QuotientInCell(t, interval, lo, hi);
    var q := FloorDiv(t, interval);
    assert q as real < hi && lo < q as real + 1.0;
    assert q < k + 1 && k < q + 1;
  }

  /** Dividing the cell `[lo*I, hi*I)` by a positive `I`. */
  lemma QuotientInCell(t: real, interval: real, lo: real, hi: real)
    requires interval > 0.0
    requires lo * interval <= t < hi * interval
    ensures lo <= t / interval < hi
  {
    var x := t / interval;
    assert x * interval == t;
    CancelFactor(lo, x, interval);
    CancelFactorStrict(x, hi, interval);
  }

  /** A positive factor can be cancelled from an inequality. */
  lemma CancelFactor(a: real, b: real, c: real)
    requires c > 0.0 && a * c <= b * c
    ensures a <= b
  {
    assert (b - a) * c == b * c - a * c;
  }

  /** A positive factor can be cancelled from a strict inequality. */
  lemma CancelFactorStrict(a: real, b: real, c: real)
    requires c > 0.0 && a * c < b * c
    ensures a < b
  {
    assert (b - a) * c == b * c - a * c;
  }

  /** Scaling by a positive factor keeps the order. */
  lemma ScaleFactor(a: real, b: real, c: real)
    requires c > 0.0 && a <= b
    ensures a * c <= b * c
  {
    assert b * c - a * c == (b - a) * c;
  }

  /** Scaling by a positive factor keeps a strict order. */
  lemma ScaleFactorStrict(a: real, b: real, c: real)
    requires c > 0.0 && a < b
    ensures a * c < b * c
  {
    assert b * c - a * c == (b - a) * c;
  }

  /** Consecutive grid instants are one interval apart. */
  lemma GridStep(k: int, interval: real)
    ensures (k + 1) as real * interval == k as real * interval + interval
  {
    var lo := k as real;
    var hi := (k + 1) as real;
    assert hi == lo + 1.0;
    assert hi * interval == lo * interval + interval;
  }

  lemma NextBoundaryUnfolds(t: real, interval: real)
    requires interval != 0.0
    ensures NextBoundary(t, interval) == (FloorDiv(t, interval) + 1) as real * interval
  {
  }

  /** Two readings in the same cell of the grid agree on the boundary. */
  lemma SameCellSameBoundary(t1: real, t2: real, interval: real, k: int)
    requires interval > 0.0
    requires k as real * interval <= t1 < (k + 1) as real * interval
    requires k as real * interval <= t2 < (k + 1) as real * interval
    ensures NextBoundary(t1, interval) == NextBoundary(t2, interval)
  {
    BoundaryOfCell(t1, interval, k);
    BoundaryOfCell(t2, interval, k);
  }

  /** Snapping a boundary moves exactly one interval on: recomputing never
      drifts. */
  lemma NextOfNext(t: real, interval: real)
    requires interval > 0.0
    ensures NextBoundary(NextBoundary(t, interval), interval) == NextBoundary(t, interval) + interval
  {
    var k := FloorDiv(t, interval) + 1;
    var b := NextBoundary(t, interval);
    NextBoundaryUnfolds(t, interval);
    assert b == k as real * interval;
    GridStep(k, interval);
    BoundaryOfCell(b, interval, k);
  }

  /** The boundary is the least grid instant strictly after `t`. */
  lemma NextBoundaryIsLeast(t: real, interval: real, k: int)
    requires interval > 0.0
    requires k as real * interval > t
    ensures NextBoundary(t, interval) <= k as real * interval
  {
    var q := FloorDiv(t, interval);
    var x := t / interval;
    assert x * interval == t;
    CancelFactorStrict(x, k as real, interval);
    assert q as real < k as real;
    assert q + 1 <= k;
    ScaleFactor((q + 1) as real, k as real, interval);
    NextBoundaryUnfolds(t, interval);
  }
}
