/**
  The tiling loops of the mask computation: a region is repeated along a
  step by a loop `for (i = 0; i < span; i += period)` that unions the
  current copy into an accumulator and moves the copy one step on.
 */
module Tiling {
  import opened Geometry

  /** Pixel `(x, y)` is in the copy of `g` moved by `(a * sx, b * sy)`. */
  predicate InCopy(g: Region, sx: int, sy: int, a: int, b: int, x: int, y: int) {
    g(x - a * sx, y - b * sy)
  }

  /** Pixel `(x, y)` is in one of `n` copies of `g` moved by `0, s, 2s, ...`. */
  function Repeated(g: Region, sx: int, sy: int, n: int): Region {
    (x: int, y: int) => exists k :: 0 <= k < n && InCopy(g, sx, sy, k, k, x, y)
  }

  /** Pixel `(x, y)` is in one of the copies of `g` moved by `(a * sx, b * sy)` for `a < m`, `b < n`. */
  function Grid(g: Region, sx: int, sy: int, m: int, n: int): Region {
    (x: int, y: int) => exists a, b :: 0 <= a < m && 0 <= b < n && InCopy(g, sx, sy, a, b, x, y)
  }

  /** The number of passes of `for (i = 0; i < span; i += period)`. */
  function Steps(span: int, period: int): nat
    requires span > 0 ==> period > 0
    decreases span
  {
    if span <= 0 then 0 else 1 + Steps(span - period, period)
  }

  /** The passes of the loop reach the span without overshooting it by a full period. */
  lemma {:induction false} StepsCover(span: int, period: int)
    requires period > 0
    ensures Steps(span, period) * period >= span
    ensures span > 0 ==> (Steps(span, period) - 1) * period < span
    ensures span > 0 ==> Steps(span, period) >= 1
    decreases span
  {
    if span > 0 {
      StepsCover(span - period, period);
      var n := Steps(span - period, period);
      assert (n + 1) * period == n * period + period;
    }
  }

  /** Adding the copy at step `k` extends `k` copies to `k + 1`. */
  lemma RepeatedStep(g: Region, sx: int, sy: int, k: nat, x: int, y: int)
    ensures Repeated(g, sx, sy, k + 1)(x, y) == (Repeated(g, sx, sy, k)(x, y) || InCopy(g, sx, sy, k, k, x, y))
  {
    if Repeated(g, sx, sy, k + 1)(x, y) {
      var j :| 0 <= j < k + 1 && InCopy(g, sx, sy, j, j, x, y);
      if j < k {
        assert Repeated(g, sx, sy, k)(x, y);
      }
    }
  }

  /** Moving copy `(a, b)` one more step gives copy `(a + da, b + db)`. */
  lemma ShiftStep(g: Region, sx: int, sy: int, a: int, b: int, da: int, db: int, x: int, y: int)
    ensures InCopy(g, sx, sy, a, b, x - da * sx, y - db * sy) == InCopy(g, sx, sy, a + da, b + db, x, y)
  {
    assert (a + da) * sx == a * sx + da * sx;
    assert (b + db) * sy == b * sy + db * sy;
  }

  /** One pass of a tiling loop adds the current copy to the accumulator. */
  lemma AccStep(acc0: Region, tmp0: Region, sx: int, sy: int, k: nat, acc1: Region, moved: Region)
    requires forall x, y {:trigger acc1(x, y)} :: acc1(x, y) == (acc0(x, y) || Repeated(tmp0, sx, sy, k)(x, y))
    requires forall x, y {:trigger moved(x, y)} :: moved(x, y) == InCopy(tmp0, sx, sy, k, k, x, y)
    ensures forall x, y {:trigger Union(acc1, moved)(x, y)} :: Union(acc1, moved)(x, y) == (acc0(x, y) || Repeated(tmp0, sx, sy, k + 1)(x, y))
  {
    forall x, y ensures Union(acc1, moved)(x, y) == (acc0(x, y) || Repeated(tmp0, sx, sy, k + 1)(x, y)) {
      RepeatedStep(tmp0, sx, sy, k, x, y);
    }
  }

  /** Translating copy `(a, b)` by `(da * sx, db * sy)` gives copy `(a + da, b + db)`. */
  lemma MoveStep(g: Region, sx: int, sy: int, a: int, b: int, da: int, db: int, dx: int, dy: int, moved: Region)
    requires dx == da * sx && dy == db * sy
    requires forall x, y {:trigger moved(x, y)} :: moved(x, y) == InCopy(g, sx, sy, a, b, x, y)
    ensures forall x, y {:trigger Translate(moved, dx, dy)(x, y)} :: Translate(moved, dx, dy)(x, y) == InCopy(g, sx, sy, a + da, b + db, x, y)
  {
    forall x, y ensures Translate(moved, dx, dy)(x, y) == InCopy(g, sx, sy, a + da, b + db, x, y) {
      assert Translate(moved, dx, dy)(x, y) == moved(x - dx, y - dy);
      ShiftStep(g, sx, sy, a, b, da, db, x, y);
    }
  }

  /** One run of a tiling loop: `acc |= tmp; tmp.translate(sx, sy)` for each pass
      of `for (i = 0; i < span; i += period)`.  The accumulator gains the copies of
      the initial `tmp` at each step taken, and `tmp` ends one step past the last. */
  method UnionRepeated(acc0: Region, tmp0: Region, span: int, period: int, sx: int, sy: int)
    returns (acc: Region, tmp: Region)
    requires span > 0 ==> period > 0
    ensures forall x, y {:trigger acc(x, y)} :: acc(x, y) == (acc0(x, y) || Repeated(tmp0, sx, sy, Steps(span, period))(x, y))
    ensures forall x, y {:trigger tmp(x, y)} :: tmp(x, y) == InCopy(tmp0, sx, sy, Steps(span, period), Steps(span, period), x, y)
  {
    acc := acc0;
    tmp := tmp0;
    var i := 0;
    var k: nat := 0;
    while i < span
      invariant k + Steps(span - i, period) == Steps(span, period)
      invariant forall x, y {:trigger acc(x, y)} :: acc(x, y) == (acc0(x, y) || Repeated(tmp0, sx, sy, k)(x, y))
      invariant forall x, y {:trigger InCopy(tmp0, sx, sy, k, k, x, y)} :: tmp(x, y) == InCopy(tmp0, sx, sy, k, k, x, y)
      decreases span - i
    {
      AccStep(acc0, tmp0, sx, sy, k, acc, tmp);
      MoveStep(tmp0, sx, sy, k, k, 1, 1, sx, sy, tmp);
      acc := Union(acc, tmp);
      tmp := Translate(tmp, sx, sy);
      i := i + period;
      k := k + 1;
    }
    assert k == Steps(span, period);
  }

  /** A region tiled along one axis, as the edge loops build it: the accumulator
      and the moving copy both start as `base`. */
  method TileLine(base: Region, span: int, period: int, sx: int, sy: int) returns (acc: Region)
    requires span > 0 ==> period > 0
    ensures forall x, y {:trigger acc(x, y)} :: acc(x, y) == (base(x, y) || Repeated(base, sx, sy, Steps(span, period))(x, y))
  {
    var tmp;
    acc, tmp := UnionRepeated(base, base, span, period, sx, sy);
  }

  /** The edge loops tile two regions in one pass: `toppixRegion |= tmpRegion;
      bottompixRegion |= tmp2Region` and both copies move on by the same step. */
  method TilePair(base1: Region, base2: Region, span: int, period: int, sx: int, sy: int)
    returns (acc1: Region, acc2: Region)
    requires span > 0 ==> period > 0
    ensures forall x, y {:trigger acc1(x, y)} :: acc1(x, y) == (base1(x, y) || Repeated(base1, sx, sy, Steps(span, period))(x, y))
    ensures forall x, y {:trigger acc2(x, y)} :: acc2(x, y) == (base2(x, y) || Repeated(base2, sx, sy, Steps(span, period))(x, y))
  {
    acc1, acc2 := base1, base2;
    var tmp1, tmp2 := base1, base2;
    var i := 0;
    var k: nat := 0;
    while i < span
      invariant k + Steps(span - i, period) == Steps(span, period)
      invariant forall x, y {:trigger acc1(x, y)} :: acc1(x, y) == (base1(x, y) || Repeated(base1, sx, sy, k)(x, y))
      invariant forall x, y {:trigger acc2(x, y)} :: acc2(x, y) == (base2(x, y) || Repeated(base2, sx, sy, k)(x, y))
      invariant forall x, y {:trigger InCopy(base1, sx, sy, k, k, x, y)} :: tmp1(x, y) == InCopy(base1, sx, sy, k, k, x, y)
      invariant forall x, y {:trigger InCopy(base2, sx, sy, k, k, x, y)} :: tmp2(x, y) == InCopy(base2, sx, sy, k, k, x, y)
      decreases span - i
    {
      AccStep(base1, base1, sx, sy, k, acc1, tmp1);
      AccStep(base2, base2, sx, sy, k, acc2, tmp2);
      MoveStep(base1, sx, sy, k, k, 1, 1, sx, sy, tmp1);
      MoveStep(base2, sx, sy, k, k, 1, 1, sx, sy, tmp2);
      acc1 := Union(acc1, tmp1);
      acc2 := Union(acc2, tmp2);
      tmp1 := Translate(tmp1, sx, sy);
      tmp2 := Translate(tmp2, sx, sy);
      i := i + period;
      k := k + 1;
    }
    assert k == Steps(span, period);
  }

  /** Column `a` of the grid, read off a region that holds copy `(a, 0)`. */
  lemma ColumnAt(g: Region, sx: int, sy: int, a: int, j: int, col: Region, x: int, y: int)
    requires forall u, v {:trigger col(u, v)} :: col(u, v) == InCopy(g, sx, sy, a, 0, u, v)
    ensures InCopy(col, 0, sy, j, j, x, y) == InCopy(g, sx, sy, a, j, x, y)
  {
    assert j * 0 == 0;
    assert col(x - j * 0, y - j * sy) == InCopy(g, sx, sy, a, 0, x - j * 0, y - j * sy);
    assert 0 * sy == 0;
  }

  /** Adding the column of copies at `a` extends `a` columns to `a + 1`. */
  lemma GridStep(g: Region, sx: int, sy: int, a: nat, n: int, col: Region, x: int, y: int)
    requires forall u, v {:trigger col(u, v)} :: col(u, v) == InCopy(g, sx, sy, a, 0, u, v)
    ensures Grid(g, sx, sy, a + 1, n)(x, y) == (Grid(g, sx, sy, a, n)(x, y) || Repeated(col, 0, sy, n)(x, y))
  {
    if Grid(g, sx, sy, a + 1, n)(x, y) {
      var i, j :| 0 <= i < a + 1 && 0 <= j < n && InCopy(g, sx, sy, i, j, x, y);
      if i == a {
        ColumnAt(g, sx, sy, a, j, col, x, y);
        assert InCopy(col, 0, sy, j, j, x, y);
      } else {
        assert Grid(g, sx, sy, a, n)(x, y);
      }
    }
    if Repeated(col, 0, sy, n)(x, y) {
      var j :| 0 <= j < n && InCopy(col, 0, sy, j, j, x, y);
      ColumnAt(g, sx, sy, a, j, col, x, y);
      assert InCopy(g, sx, sy, a, j, x, y);
    }
  }

  /** One pass of the outer centre loop adds column `a` to the grid. */
  lemma ColumnStep(g: Region, sx: int, sy: int, a: nat, n: int, acc1: Region, col: Region, acc: Region)
    requires forall x, y {:trigger acc1(x, y)} :: acc1(x, y) == (g(x, y) || Grid(g, sx, sy, a, n)(x, y))
    requires forall u, v {:trigger col(u, v)} :: col(u, v) == InCopy(g, sx, sy, a, 0, u, v)
    requires forall x, y {:trigger acc(x, y)} :: acc(x, y) == (acc1(x, y) || Repeated(col, 0, sy, n)(x, y))
    ensures forall x, y {:trigger acc(x, y)} :: acc(x, y) == (g(x, y) || Grid(g, sx, sy, a + 1, n)(x, y))
  {
    forall x, y ensures acc(x, y) == (g(x, y) || Grid(g, sx, sy, a + 1, n)(x, y)) {
      GridStep(g, sx, sy, a, n, col, x, y);
    }
  }

  /** The centre loop of the doubly tiled case: an outer loop along x whose passes
      each run the inner loop along y from the current copy.  When the outer loop
      does not run, the inner period is never used. */
  method TileGrid(base: Region, spanX: int, periodX: int, spanY: int, periodY: int) returns (acc: Region)
    requires spanX > 0 ==> periodX > 0 && (spanY > 0 ==> periodY > 0)
    ensures forall x, y {:trigger acc(x, y)} ::
              acc(x, y) == (base(x, y) || (spanX > 0 && Grid(base, periodX, periodY, Steps(spanX, periodX), Steps(spanY, periodY))(x, y)))
  {
    acc := base;
    var tmp := base;
    var i := 0;
    var a: nat := 0;
    var n := if spanX > 0 then Steps(spanY, periodY) else 0;
    while i < spanX
      invariant 0 <= i
      invariant a + Steps(spanX - i, periodX) == Steps(spanX, periodX)
      invariant forall x, y {:trigger acc(x, y)} :: acc(x, y) == (base(x, y) || Grid(base, periodX, periodY, a, n)(x, y))
      invariant forall x, y {:trigger InCopy(base, periodX, periodY, a, 0, x, y)} :: tmp(x, y) == InCopy(base, periodX, periodY, a, 0, x, y)
      decreases spanX - i
    {
      var acc1 := acc;
      var ignored;
      acc, ignored := UnionRepeated(acc1, tmp, spanY, periodY, 0, periodY);
      ColumnStep(base, periodX, periodY, a, n, acc1, tmp, acc);
      MoveStep(base, periodX, periodY, a, 0, 1, 0, periodX, 0, tmp);
      tmp := Translate(tmp, periodX, 0);
      i := i + periodX;
      a := a + 1;
    }
  }

  /** `d * period` is at least `period` for `d >= 1`. */
  lemma MulAtLeast(d: int, period: int)
    requires period > 0 && d >= 1
    ensures d * period >= period
  {
    var e := d - 1;
    assert d * period == e * period + period;
    assert e * period >= 0;
  }

  /** `x - j * period` lies in `[0, period)` only for `j == x / period`. */
  lemma ModUnique(x: int, period: int, j: int)
    requires period > 0
    requires 0 <= x - j * period < period
    ensures x - j * period == x % period
  {
    var k := x / period;
    var r := x % period;
    assert x == k * period + r;
    if j < k {
      assert (k - j) * period == k * period - j * period;
      MulAtLeast(k - j, period);
    } else if j > k {
      assert (j - k) * period == j * period - k * period;
      MulAtLeast(j - k, period);
    }
  }

  /** A coordinate within the first period is its own remainder. */
  lemma OwnRemainder(x: int, period: int)
    requires 0 <= x < period
    ensures x % period == x
  {
  }

  /** A product with a positive factor is strictly monotone in the other factor. */
  lemma MulLess(a: int, b: int, period: int)
    requires period > 0
    ensures a * period < b * period ==> a < b
  {
    if a >= b {
      if a > b {
        MulAtLeast(a - b, period);
      }
      assert a * period == (a - b) * period + b * period;
    }
  }

  /** The quotient of a non-negative coordinate times the period does not exceed the coordinate. */
  lemma QuotientBelow(x: int, period: int)
    requires period > 0 && x >= 0
    ensures 0 <= x / period && (x / period) * period <= x
  {
    assert x == (x / period) * period + x % period;
  }

  /** A step below the number of passes lies inside the span. */
  lemma StepBelow(span: int, period: int, x: int)
    requires period > 0 && 0 <= x < span
    ensures 0 <= x / period < Steps(span, period)
  {
    StepsCover(span, period);
    QuotientBelow(x, period);
    MulLess(x / period, Steps(span, period), period);
  }

  /** The quotient and remainder of a pixel's coordinate split it into a copy index and an offset. */
  lemma DivMod(x: int, period: int)
    requires period > 0
    ensures x - (x / period) * period == x % period
  {
  }

  /** Copy `x / period` of a tile repeated along x covers pixel `(x, y)` exactly
      when the tile covers `(x mod period, y)`. */
  lemma LineCopyAtQuotient(base: Region, period: int, x: int, y: int)
    requires period > 0
    ensures InCopy(base, period, 0, x / period, x / period, x, y) == base(x % period, y)
  {
    DivMod(x, period);
    assert (x / period) * 0 == 0;
  }

  /** A copy that covers a pixel is the copy at its quotient. */
  lemma LineCopyInPeriod(base: Region, period: int, h: int, j: int, x: int, y: int)
    requires period > 0
    requires forall u, v :: base(u, v) ==> 0 <= u < period && 0 <= v < h
    ensures InCopy(base, period, 0, j, j, x, y) ==> base(x % period, y)
  {
    assert j * 0 == 0;
    if InCopy(base, period, 0, j, j, x, y) {
      assert base(x - j * period, y);
      ModUnique(x, period, j);
    }
  }

  /** A tile lying within one period along x (and within `[0, h)` along y),
      repeated across a span, covers pixel `(x, y)` of the span rectangle exactly
      when the tile covers `(x mod period, y)`: the repetition is the periodic
      extension that `drawTiledPixmap` paints. */
  lemma RepeatedIsPeriodic(base: Region, span: int, period: int, h: int, x: int, y: int)
    requires period > 0
    requires forall u, v :: base(u, v) ==> 0 <= u < period && 0 <= v < h
    requires Within(x, y, Rect(0, 0, span, h))
    ensures (base(x, y) || Repeated(base, period, 0, Steps(span, period))(x, y)) == base(x % period, y)
  {
    var k := x / period;
    if base(x % period, y) {
      StepBelow(span, period, x);
      LineCopyAtQuotient(base, period, x, y);
      assert InCopy(base, period, 0, k, k, x, y);
    }
    if Repeated(base, period, 0, Steps(span, period))(x, y) {
      var j :| 0 <= j < Steps(span, period) && InCopy(base, period, 0, j, j, x, y);
      LineCopyInPeriod(base, period, h, j, x, y);
    }
    if base(x, y) {
      OwnRemainder(x, period);
    }
  }

  /** Copy `(x / periodX, y / periodY)` of a tile covers pixel `(x, y)` exactly when
      the tile covers `(x mod periodX, y mod periodY)`. */
  lemma GridCopyAtQuotient(base: Region, periodX: int, periodY: int, x: int, y: int)
    requires periodX > 0 && periodY > 0
    ensures InCopy(base, periodX, periodY, x / periodX, y / periodY, x, y) == base(x % periodX, y % periodY)
  {
    DivMod(x, periodX);
    DivMod(y, periodY);
  }

  /** A copy of the grid that covers a pixel is the copy at its quotients. */
  lemma GridCopyInPeriod(base: Region, periodX: int, periodY: int, i: int, j: int, x: int, y: int)
    requires periodX > 0 && periodY > 0
    requires forall u, v :: base(u, v) ==> 0 <= u < periodX && 0 <= v < periodY
    ensures InCopy(base, periodX, periodY, i, j, x, y) ==> base(x % periodX, y % periodY)
  {
    if InCopy(base, periodX, periodY, i, j, x, y) {
      assert base(x - i * periodX, y - j * periodY);
      ModUnique(x, periodX, i);
      ModUnique(y, periodY, j);
    }
  }

  /** A pixel whose remainders the tile covers is covered by the copy at its quotients. */
  lemma GridCovers(base: Region, spanX: int, periodX: int, spanY: int, periodY: int, x: int, y: int)
    requires periodX > 0 && periodY > 0
    requires Within(x, y, Rect(0, 0, spanX, spanY))
    requires base(x % periodX, y % periodY)
    ensures Grid(base, periodX, periodY, Steps(spanX, periodX), Steps(spanY, periodY))(x, y)
  {
    var a, b := x / periodX, y / periodY;
    StepBelow(spanX, periodX, x);
    StepBelow(spanY, periodY, y);
    GridCopyAtQuotient(base, periodX, periodY, x, y);
    assert 0 <= a < Steps(spanX, periodX) && 0 <= b < Steps(spanY, periodY) && InCopy(base, periodX, periodY, a, b, x, y);
  }

  /** A pixel covered by some copy of the grid has remainders the tile covers. */
  lemma GridCovered(base: Region, periodX: int, periodY: int, m: int, n: int, x: int, y: int)
    requires periodX > 0 && periodY > 0
    requires forall u, v :: base(u, v) ==> 0 <= u < periodX && 0 <= v < periodY
    requires Grid(base, periodX, periodY, m, n)(x, y)
    ensures base(x % periodX, y % periodY)
  {
    var i, j :| 0 <= i < m && 0 <= j < n && InCopy(base, periodX, periodY, i, j, x, y);
    GridCopyInPeriod(base, periodX, periodY, i, j, x, y);
  }

  /** The doubly tiled centre matches the periodic extension in both directions. */
  lemma GridIsPeriodic(base: Region, spanX: int, periodX: int, spanY: int, periodY: int, x: int, y: int)
    requires periodX > 0 && periodY > 0
    requires forall u, v :: base(u, v) ==> 0 <= u < periodX && 0 <= v < periodY
    requires Within(x, y, Rect(0, 0, spanX, spanY))
    ensures (base(x, y) || Grid(base, periodX, periodY, Steps(spanX, periodX), Steps(spanY, periodY))(x, y))
      == base(x % periodX, y % periodY)
  {
    var m, n := Steps(spanX, periodX), Steps(spanY, periodY);
    if base(x % periodX, y % periodY) {
      GridCovers(base, spanX, periodX, spanY, periodY, x, y);
    }
    if Grid(base, periodX, periodY, m, n)(x, y) {
      GridCovered(base, periodX, periodY, m, n, x, y);
    }
    if base(x, y) {
      OwnRemainder(x, periodX);
      OwnRemainder(y, periodY);
    }
  }

  /** Copy `y / period` of a tile repeated along y covers pixel `(x, y)` exactly
      when the tile covers `(x, y mod period)`. */
  lemma ColumnCopyAtQuotient(base: Region, period: int, x: int, y: int)
    requires period > 0
    ensures InCopy(base, 0, period, y / period, y / period, x, y) == base(x, y % period)
  {
    DivMod(y, period);
    assert (y / period) * 0 == 0;
  }

  /** A copy along y that covers a pixel is the copy at its quotient. */
  lemma ColumnCopyInPeriod(base: Region, period: int, w: int, j: int, x: int, y: int)
    requires period > 0
    requires forall u, v :: base(u, v) ==> 0 <= u < w && 0 <= v < period
    ensures InCopy(base, 0, period, j, j, x, y) ==> base(x, y % period)
  {
    assert j * 0 == 0;
    if InCopy(base, 0, period, j, j, x, y) {
      assert base(x, y - j * period);
      ModUnique(y, period, j);
    }
  }

  /** The vertical counterpart of `RepeatedIsPeriodic`: a tile within `[0, w)` along x
      and one period along y, repeated down a span, covers pixel `(x, y)` of the
      span rectangle exactly when the tile covers `(x, y mod period)`. */
  lemma ColumnIsPeriodic(base: Region, span: int, period: int, w: int, x: int, y: int)
    requires period > 0
    requires forall u, v :: base(u, v) ==> 0 <= u < w && 0 <= v < period
    requires Within(x, y, Rect(0, 0, w, span))
    ensures (base(x, y) || Repeated(base, 0, period, Steps(span, period))(x, y)) == base(x, y % period)
  {
    var k := y / period;
    if base(x, y % period) {
      StepBelow(span, period, y);
      ColumnCopyAtQuotient(base, period, x, y);
      assert InCopy(base, 0, period, k, k, x, y);
    }
    if Repeated(base, 0, period, Steps(span, period))(x, y) {
      var j :| 0 <= j < Steps(span, period) && InCopy(base, 0, period, j, j, x, y);
      ColumnCopyInPeriod(base, period, w, j, x, y);
    }
    if base(x, y) {
      OwnRemainder(y, period);
    }
  }
}
