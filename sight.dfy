/**
 * The line-of-sight rule of the map, as grid_isVisiblePoint and
 * grid_checkForVisiblePassage decide it, stated over a snapshot `m` of the
 * master grid. The map is a flat buffer of `nr` rows of `nc` characters (the
 * last one of each row is the newline); index i is row i / nc, column i % nc.
 *
 * The walk starts at whichever point has the larger row (the map point when
 * both share a row) and moves one column per step towards the other point,
 * its row falling by |Δrow| / |Δcol| each step (one row per step when both
 * share a column). Rows are exact reals, so the 0.0001 error margin of the
 * source becomes an exact comparison: "below the margin" is "at most 0".
 */
module Sight {
  function Abs(x: int): nat { if x < 0 then -x else x }

  /** The characters that stop a line of sight: boundaries, rock and passage. */
  predicate Blocks(c: char) { c == '-' || c == ' ' || c == '+' || c == '|' || c == '#' }

  /** A cell of the snapshot; the walk only reads cells inside it (WalkInGrid). */
  function At(m: seq<char>, i: int): char { if 0 <= i < |m| then m[i] else ' ' }

  /**
   * The walk between two points: its start and end columns and rows, the
   * column step, the row step, and how many steps the loop of
   * grid_isVisiblePoint runs before it stops.
   */
  datatype Walk = Walk(startX: int, startY: int, endX: int, endY: int, xinc: int, yinc: real, steps: nat)

  function WalkOf(a: int, b: int, nc: int): (w: Walk)
    requires a >= 0 && b >= 0 && nc >= 1
    ensures w.startY >= w.endY
  {
    var mc := a % nc;
    var mr := a / nc;
    var pc := b % nc;
    var pr := b / nc;
    var sx := if pr > mr then pc else mc;
    var sy := if pr > mr then pr else mr;
    var ex := if pr > mr then mc else pc;
    var ey := if pr > mr then mr else pr;
    if sx - ex != 0 then
      Walk(sx, sy, ex, ey, if sx > ex then -1 else 1, -(Abs(sy - ey) as real / Abs(sx - ex) as real),
           if sy == ey then Abs(sx - ex) - 1 else Abs(sx - ex))
    else
      Walk(sx, sy, ex, ey, 0, -1.0, sy - ey)
  }

  /** The row (`currY`) and column (`currX`) after k steps. */
  function Y(w: Walk, k: int): real { w.startY as real + k as real * w.yinc }

  function X(w: Walk, k: int): int { w.startX + k * w.xinc }

  /** The row of the upper of the two cells the walk is between after k steps. */
  function Row(w: Walk, k: int): int { Y(w, k).Floor }

  predicate OnRow(w: Walk, k: int) { Row(w, k) as real == Y(w, k) }

  predicate AtDest(w: Walk, k: int) { Y(w, k) - w.endY as real <= 0.0 && X(w, k) == w.endX }

  /** The condition of the walk's loop, tested when k steps are done. */
  predicate LoopCond(w: Walk, k: int) { X(w, k + 1) - w.endX != 0 || Y(w, k) - w.endY as real > 0.0 }

  function StartIndex(w: Walk, nc: int): int { w.startX + w.startY * nc }

  function TopIndex(w: Walk, nc: int, k: int): int { Row(w, k) * nc + X(w, k) }

  /** Step k lands on a blocking cell, or between two blocking cells of one column. */
  predicate TopBlocks(m: seq<char>, nc: int, w: Walk, k: int)
  {
    Blocks(At(m, TopIndex(w, nc, k)))
    && if !OnRow(w, k) then Blocks(At(m, TopIndex(w, nc, k) + nc)) && !AtDest(w, k) else !AtDest(w, k)
  }

  /** How many rows step k crosses. */
  function RowDiff(w: Walk, k: int): int { Row(w, k - 1) - Row(w, k) }

  function RightIndex(w: Walk, nc: int, k: int, i: int): int { Row(w, k) * nc + X(w, k) + nc * i }

  function LeftIndex(w: Walk, nc: int, k: int, i: int): int { RightIndex(w, nc, k, i) - w.xinc }

  predicate ReachedYDest(w: Walk, nc: int, k: int, i: int)
    requires nc >= 1
  {
    (Row(w, k) * nc + nc * i) / nc - w.endY <= 0
  }

  predicate NotStartChar(w: Walk, nc: int, k: int, i: int)
  {
    LeftIndex(w, nc, k, i) != StartIndex(w, nc) && RightIndex(w, nc, k, i) != StartIndex(w, nc)
  }

  /** Crossing the i-th row of step k passes between two blocking cells of that row. */
  predicate SplitBlocks(m: seq<char>, nc: int, w: Walk, k: int, i: int)
    requires nc >= 1
  {
    Blocks(At(m, RightIndex(w, nc, k, i))) && Blocks(At(m, LeftIndex(w, nc, k, i)))
    && (!ReachedYDest(w, nc, k, i) || X(w, k) != w.endX) && NotStartChar(w, nc, k, i)
  }

  predicate StepBlocks(m: seq<char>, nc: int, w: Walk, k: int)
    requires nc >= 1
  {
    TopBlocks(m, nc, w, k) || exists i :: 1 <= i <= RowDiff(w, k) && SplitBlocks(m, nc, w, k, i)
  }

  predicate LineOfSight(m: seq<char>, nc: int, w: Walk)
    requires nc >= 1
  {
    forall k :: 1 <= k <= w.steps ==> !StepBlocks(m, nc, w, k)
  }

  /** None of the first k steps is blocked. */
  predicate ClearUpTo(m: seq<char>, nc: int, w: Walk, k: int)
    requires nc >= 1
  {
    forall j :: 1 <= j <= k ==> !StepBlocks(m, nc, w, j)
  }

  lemma ClearExtends(m: seq<char>, nc: int, w: Walk, k: int)
    requires nc >= 1 && ClearUpTo(m, nc, w, k - 1) && !StepBlocks(m, nc, w, k)
    ensures ClearUpTo(m, nc, w, k)
  {
  }

  lemma BlockedStepHides(m: seq<char>, nc: int, w: Walk, k: int)
    requires nc >= 1 && 1 <= k <= w.steps && StepBlocks(m, nc, w, k)
    ensures !LineOfSight(m, nc, w)
  {
  }

  /** Every cell passes before it is read: a walk is a line of sight once all its steps are clear. */
  lemma ClearToTheEnd(m: seq<char>, nc: int, w: Walk)
    requires nc >= 1 && ClearUpTo(m, nc, w, w.steps)
    ensures LineOfSight(m, nc, w)
  {
  }

  /** Every passage cell has a full row above and below it, so its four neighbours exist. */
  predicate PassagesInterior(m: seq<char>, nc: int)
  {
    forall i :: 0 <= i < |m| && m[i] == '#' ==> nc <= i < |m| - nc
  }

  /** The number of passage cells left, right, below and above passage cell a. */
  function PassageNeighbours(m: seq<char>, nc: int, a: int): nat
    requires nc >= 1 && nc <= a < |m| - nc
  {
    (if m[a - 1] == '#' then 1 else 0) + (if m[a + 1] == '#' then 1 else 0)
    + (if m[a + nc] == '#' then 1 else 0) + (if m[a - nc] == '#' then 1 else 0)
  }

  /**
   * grid_checkForVisiblePassage: a passage cell more than one row or column
   * away from the viewer is hidden when more than one of its neighbours is a
   * passage too.
   */
  function PassageVisible(m: seq<char>, nc: int, a: int, mr: int, pr: int, mc: int, pc: int): bool
    requires nc >= 1 && 0 <= a < |m| && PassagesInterior(m, nc)
  {
    if m[a] == '#' && (Abs(mr - pr) > 1 || Abs(mc - pc) > 1) then PassageNeighbours(m, nc, a) <= 1
    else true
  }

  /**
   * grid_isVisiblePoint: whether map point a can be seen from player point b.
   * Index nc * nr passes the range check of the source but names the
   * terminator of the buffer, from which the walk reads past the end; it is
   * excluded.
   */
  predicate IsVisible(m: seq<char>, nc: int, nr: int, a: int, b: int)
    requires nc >= 1 && nr >= 1 && |m| == nc * nr && a != |m| && b != |m| && PassagesInterior(m, nc)
  {
    if b < 0 || b > |m| || a < 0 || a > |m| then false
    else if m[a] == '#' && !PassageVisible(m, nc, a, a / nc, b / nc, a % nc, b % nc) then false
    else LineOfSight(m, nc, WalkOf(a, b, nc))
  }

  // ------------------------------------------------------ shape of a walk

  lemma DivBelow(a: int, nc: int, nr: int)
    requires nc >= 1 && 0 <= a < nc * nr
    ensures 0 <= a / nc < nr && 0 <= a % nc < nc
  {
  }

  lemma ScaledRise(k: int, dx: int, dy: int)
    requires 0 <= k <= dx && dx > 0 && dy >= 0
    ensures 0.0 <= k as real * (dy as real / dx as real) <= dy as real
    ensures k < dx && dy > 0 ==> k as real * (dy as real / dx as real) < dy as real
    ensures k == dx ==> k as real * (dy as real / dx as real) == dy as real
  {
    var q := dy as real / dx as real;
    assert q >= 0.0;
    assert dx as real * q == dy as real;
    assert (dx - k) as real * q >= 0.0;
    if k < dx && dy > 0 {
      assert q > 0.0;
      assert (dx - k) as real * q > 0.0;
    }
  }

  /** Where the walk is after k steps, in each of its three shapes. */
  /** The relations WalkOf establishes between the fields of a walk. */
  predicate WellShaped(w: Walk)
  {
    w.startY >= w.endY
    && (w.startX != w.endX ==> (w.xinc == (if w.startX > w.endX then -1 else 1)
      && w.yinc == -(Abs(w.startY - w.endY) as real / Abs(w.startX - w.endX) as real)
      && w.steps == if w.startY == w.endY then Abs(w.startX - w.endX) - 1 else Abs(w.startX - w.endX)))
    && (w.startX == w.endX ==> w.xinc == 0 && w.yinc == -1.0 && w.steps == w.startY - w.endY)
  }

  lemma WalkOfShape(a: int, b: int, nc: int, nr: int)
    requires nc >= 1 && 0 <= a < nc * nr && 0 <= b < nc * nr
    ensures var w := WalkOf(a, b, nc);
      WellShaped(w) && 0 <= w.endY && w.startY < nr
      && 0 <= w.startX < nc && 0 <= w.endX < nc
  {
    DivBelow(a, nc, nr);
    DivBelow(b, nc, nr);
  }

  lemma WalkShape(w: Walk, k: int)
    requires WellShaped(w)
    requires 0 <= k <= w.steps + 1
    ensures X(w, k) == w.startX + k * w.xinc
    ensures w.startX == w.endX ==> Y(w, k) == (w.startY - k) as real && OnRow(w, k) && Row(w, k) == w.startY - k
    ensures w.startX != w.endX && w.startY == w.endY ==> Y(w, k) == w.startY as real && OnRow(w, k)
    ensures k <= w.steps ==> w.endY as real <= Y(w, k) <= w.startY as real
    ensures k <= w.steps ==> w.endY <= Row(w, k) <= w.startY
  {
    var dx := Abs(w.startX - w.endX);
    var dy := w.startY - w.endY;
    if w.startX == w.endX {
    } else if w.startY == w.endY {
      assert w.yinc == 0.0;
    } else if k <= w.steps {
      ScaledRise(k, dx, dy);
      assert Y(w, k) == w.startY as real - k as real * (dy as real / dx as real);
    }
  }

  /** Each step moves the row up by the fixed row step. */
  lemma YStep(w: Walk, k: int)
    ensures Y(w, k + 1) == Y(w, k) + w.yinc
  {
    assert (k + 1) as real * w.yinc == k as real * w.yinc + w.yinc;
  }

  /** The rows and columns a step reads lie between the start and the end of the walk. */
  lemma WalkBetween(w: Walk, k: int)
    requires WellShaped(w) && 1 <= k <= w.steps
    ensures w.startX <= w.endX ==> w.startX <= X(w, k - 1) <= w.endX && w.startX <= X(w, k) <= w.endX
    ensures w.startX >= w.endX ==> w.endX <= X(w, k - 1) <= w.startX && w.endX <= X(w, k) <= w.startX
    ensures X(w, k - 1) == X(w, k) - w.xinc
    ensures w.startX != w.endX ==> X(w, k) != w.startX
    ensures w.endY <= Row(w, k) <= Row(w, k - 1) <= w.startY
    ensures !OnRow(w, k) ==> Row(w, k) + 1 <= w.startY
  {
    WalkShape(w, k);
    WalkShape(w, k - 1);
    YStep(w, k - 1);
    assert w.yinc <= 0.0;
    if w.startX != w.endX && w.startY == w.endY {
      assert Y(w, k) == w.startY as real;
    }
  }

  /** While fewer than `steps` steps are done, the loop goes on. */
  lemma WalkContinues(w: Walk, k: int)
    requires WellShaped(w) && 0 <= k < w.steps
    ensures LoopCond(w, k)
  {
    WalkShape(w, k);
    WalkShape(w, k + 1);
    var dx := Abs(w.startX - w.endX);
    var dy := w.startY - w.endY;
    if w.startX != w.endX && w.startY != w.endY && k + 1 == dx {
      ScaledRise(k, dx, dy);
      assert Y(w, k) == w.startY as real - k as real * (dy as real / dx as real);
    }
  }

  /** Step k reaches the destination exactly when it is the last step of a walk that leaves its row. */
  lemma WalkArrives(w: Walk, k: int)
    requires WellShaped(w) && 1 <= k <= w.steps
    ensures AtDest(w, k) <==> k == w.steps && !(w.startY == w.endY && w.startX != w.endX)
  {
    WalkShape(w, k);
    var dx := Abs(w.startX - w.endX);
    var dy := w.startY - w.endY;
    if w.startX != w.endX && w.startY != w.endY {
      ScaledRise(k, dx, dy);
      assert Y(w, k) == w.startY as real - k as real * (dy as real / dx as real);
    }
  }

  /** A walk with no steps, or one along a row, stops after its last step without arriving. */
  lemma WalkExits(w: Walk)
    requires WellShaped(w) && (w.steps == 0 || (w.startY == w.endY && w.startX != w.endX))
    ensures !LoopCond(w, w.steps)
  {
    WalkShape(w, w.steps);
    WalkShape(w, w.steps + 1);
  }

  lemma CellIndex(r: int, c: int, nc: int, nr: int)
    requires 0 <= r < nr && 0 <= c < nc
    ensures 0 <= r * nc + c < nc * nr
  {
    assert r * nc <= (nr - 1) * nc;
  }

  /** Every cell step k of a walk between two cells of the map reads is a cell of the map. */
  lemma WalkInGrid(w: Walk, nc: int, nr: int, k: int)
    requires WellShaped(w) && 1 <= k <= w.steps && nc >= 1
    requires 0 <= w.endY && w.startY < nr && 0 <= w.startX < nc && 0 <= w.endX < nc
    ensures 0 <= TopIndex(w, nc, k) < nc * nr
    ensures !OnRow(w, k) ==> 0 <= TopIndex(w, nc, k) + nc < nc * nr
    ensures forall i :: 1 <= i <= RowDiff(w, k) ==>
      0 <= RightIndex(w, nc, k, i) < nc * nr && 0 <= LeftIndex(w, nc, k, i) < nc * nr
  {
    WalkBetween(w, k);
    var r, x := Row(w, k), X(w, k);
    CellIndex(r, x, nc, nr);
    if !OnRow(w, k) {
      CellIndex(r + 1, x, nc, nr);
      RowsBelow(r, x, nc, 1);
    }
    forall i | 1 <= i <= RowDiff(w, k)
      ensures 0 <= RightIndex(w, nc, k, i) < nc * nr && 0 <= LeftIndex(w, nc, k, i) < nc * nr
    {
      CellIndex(r + i, x, nc, nr);
      CellIndex(r + i, x - w.xinc, nc, nr);
      RowsBelow(r, x, nc, i);
      RowsBelow(r, x - w.xinc, nc, i);
    }
  }

  // ------------------------------------------------------ index arithmetic

  /** Division by the stride undoes multiplication by it. */
  lemma MulNonneg(a: int, b: int)
    requires a >= 0 && b >= 0
    ensures a * b >= 0
  {
  }

  /** A non-zero multiple of the stride is at least the stride away from zero. */
  lemma MulBounds(d: int, nc: int)
    requires nc >= 1
    ensures d >= 1 ==> d * nc >= nc
    ensures d <= -1 ==> d * nc <= -nc
  {
    if d >= 1 {
      MulNonneg(d - 1, nc);
      assert (d - 1) * nc == d * nc - nc;
    }
    if d <= -1 {
      MulNonneg(-d - 1, nc);
      assert (-d - 1) * nc == -(d * nc) - nc;
    }
  }

  /** Division by the stride undoes multiplication by it. */
  lemma MulDivCancel(q: int, nc: int)
    requires nc >= 1
    ensures (q * nc) / nc == q
  {
    var d := (q * nc) / nc;
    assert (q - d) * nc == (q * nc) % nc;
    MulBounds(q - d, nc);
  }

  /** A cell index names exactly one row and one column. */
  /** The cell i rows below cell (r, x) is at index (r + i) * nc + x. */
  lemma RowsBelow(r: int, x: int, nc: int, i: int)
    ensures r * nc + x + nc * i == (r + i) * nc + x
  {
  }

  lemma IndexUnique(r: int, x: int, r': int, x': int, nc: int)
    requires 0 <= x < nc && 0 <= x' < nc && r * nc + x == r' * nc + x'
    ensures r == r' && x == x'
  {
    assert (r - r') * nc == x' - x;
    MulBounds(r - r', nc);
  }

  lemma IndexSplit(a: int, nc: int)
    requires nc >= 1
    ensures a == (a / nc) * nc + a % nc
  {
  }

  // ------------------------------------------------------ neighbours

  /** A cell next to the viewer, diagonals included, and the viewer's own cell, are always visible. */
  lemma NeighbourVisible(m: seq<char>, nc: int, nr: int, a: int, b: int)
    requires nc >= 1 && nr >= 1 && |m| == nc * nr && PassagesInterior(m, nc)
    requires 0 <= a < |m| && 0 <= b < |m|
    requires Abs(a / nc - b / nc) <= 1 && Abs(a % nc - b % nc) <= 1
    ensures IsVisible(m, nc, nr, a, b)
  {
    var w := WalkOf(a, b, nc);
    WalkOfShape(a, b, nc, nr);
    forall k | 1 <= k <= w.steps
      ensures !StepBlocks(m, nc, w, k)
    {
      assert k == 1 && w.steps == 1;
      WalkArrives(w, 1);
      WalkShape(w, 1);
      assert Y(w, 0) == w.startY as real;
      assert Y(w, 1) == (w.startY - 1) as real;
      assert Row(w, 0) == w.startY && Row(w, 1) == w.startY - 1;
      assert RowDiff(w, 1) == 1;
      RowsBelow(w.startY - 1, X(w, 1), nc, 1);
      assert RightIndex(w, nc, 1, 1) == w.startY * nc + X(w, 1);
      assert !NotStartChar(w, nc, 1, 1);
    }
  }

  // ------------------------------------------------------ along a row

  function MinOf(a: int, b: int): int { if a < b then a else b }

  function MaxOf(a: int, b: int): int { if a < b then b else a }

  /** No cell strictly between a and b blocks the view. */
  predicate RowClear(m: seq<char>, a: int, b: int)
  {
    forall i :: MinOf(a, b) < i < MaxOf(a, b) ==> !Blocks(At(m, i))
  }

  /** A step of a walk along a row reads the one cell it lands on. */
  lemma RowStep(m: seq<char>, nc: int, a: int, b: int, k: int)
    requires nc >= 1 && a >= 0 && b >= 0 && a / nc == b / nc && a != b
    requires 1 <= k <= WalkOf(a, b, nc).steps
    ensures var w := WalkOf(a, b, nc);
      w.xinc == (if a < b then 1 else -1)
      && (StepBlocks(m, nc, w, k) <==> Blocks(At(m, a + k * w.xinc)))
  {
    var w := WalkOf(a, b, nc);
    IndexSplit(a, nc);
    IndexSplit(b, nc);
    assert w.startX == a % nc && w.endX == b % nc;
    assert w.yinc == 0.0;
    assert Y(w, k) == w.startY as real && Y(w, k - 1) == w.startY as real;
    assert Row(w, k) == w.startY && Row(w, k - 1) == w.startY;
    assert TopIndex(w, nc, k) == a + k * w.xinc;
    assert X(w, k) != w.endX;
  }

  /** Along a row, the line of sight is clear exactly when every cell between the two points is. */
  lemma RowLineOfSight(m: seq<char>, nc: int, a: int, b: int)
    requires nc >= 1 && a >= 0 && b >= 0 && a / nc == b / nc
    ensures LineOfSight(m, nc, WalkOf(a, b, nc)) <==> RowClear(m, a, b)
  {
    var w := WalkOf(a, b, nc);
    if a == b {
      return;
    }
    IndexSplit(a, nc);
    IndexSplit(b, nc);
    assert w.steps == Abs(a - b) - 1;
    if LineOfSight(m, nc, w) {
      forall i | MinOf(a, b) < i < MaxOf(a, b)
        ensures !Blocks(At(m, i))
      {
        var k := Abs(i - a);
        RowStep(m, nc, a, b, k);
      }
    }
    if RowClear(m, a, b) {
      forall k | 1 <= k <= w.steps
        ensures !StepBlocks(m, nc, w, k)
      {
        RowStep(m, nc, a, b, k);
      }
    }
  }

  /** A point in the viewer's row is visible exactly when the cells between are clear and the passage rule lets it through. */
  lemma RowVisibility(m: seq<char>, nc: int, nr: int, a: int, b: int)
    requires nc >= 1 && nr >= 1 && |m| == nc * nr && PassagesInterior(m, nc)
    requires 0 <= a < |m| && 0 <= b < |m| && a / nc == b / nc
    ensures IsVisible(m, nc, nr, a, b)
      <==> PassageVisible(m, nc, a, a / nc, b / nc, a % nc, b % nc) && RowClear(m, a, b)
  {
    RowLineOfSight(m, nc, a, b);
  }

  // ------------------------------------------------------ along a column

  /** No cell of column x strictly between rows r1 and r2 blocks the view. */
  predicate ColumnClear(m: seq<char>, nc: int, x: int, r1: int, r2: int)
  {
    forall r :: MinOf(r1, r2) < r < MaxOf(r1, r2) ==> !Blocks(At(m, r * nc + x))
  }

  /**
   * A step of a walk up a column: it lands on the cell k rows up, which
   * blocks unless it is the destination, and crosses the row below it,
   * which blocks unless it is the start.
   */
  lemma ColumnStep(m: seq<char>, nc: int, w: Walk, k: int)
    requires nc >= 1 && WellShaped(w) && w.startX == w.endX && 1 <= k <= w.steps
    ensures StepBlocks(m, nc, w, k) <==>
      (k < w.steps && Blocks(At(m, (w.startY - k) * nc + w.startX)))
      || (k >= 2 && Blocks(At(m, (w.startY - k + 1) * nc + w.startX)))
  {
    WalkShape(w, k);
    WalkShape(w, k - 1);
    WalkArrives(w, k);
    assert RowDiff(w, k) == 1;
    assert RightIndex(w, nc, k, 1) == (w.startY - k + 1) * nc + w.startX;
    assert LeftIndex(w, nc, k, 1) == RightIndex(w, nc, k, 1);
    MulDivCancel(w.startY - k + 1, nc);
    assert (Row(w, k) * nc + nc * 1) / nc == w.startY - k + 1;
    assert !ReachedYDest(w, nc, k, 1);
    if k >= 2 {
      assert (w.startY - k + 1) * nc + w.startX != StartIndex(w, nc) by {
        assert w.startY * nc - (w.startY - k + 1) * nc == (k - 1) * nc;
      }
    }
    assert NotStartChar(w, nc, k, 1) <==> k >= 2;
    assert TopBlocks(m, nc, w, k) <==> k < w.steps && Blocks(At(m, (w.startY - k) * nc + w.startX));
    assert SplitBlocks(m, nc, w, k, 1) <==> k >= 2 && Blocks(At(m, (w.startY - k + 1) * nc + w.startX));
    if exists i :: 1 <= i <= RowDiff(w, k) && SplitBlocks(m, nc, w, k, i) {
      var i :| 1 <= i <= RowDiff(w, k) && SplitBlocks(m, nc, w, k, i);
      assert i == 1;
    }
  }

  /** Along a column, the line of sight is clear exactly when every cell between the two points is. */
  lemma ColumnLineOfSight(m: seq<char>, nc: int, nr: int, a: int, b: int)
    requires nc >= 1 && nr >= 1 && 0 <= a < nc * nr && 0 <= b < nc * nr && a % nc == b % nc
    ensures LineOfSight(m, nc, WalkOf(a, b, nc)) <==> ColumnClear(m, nc, a % nc, a / nc, b / nc)
  {
    var w := WalkOf(a, b, nc);
    WalkOfShape(a, b, nc, nr);
    var x, sy, ey := a % nc, w.startY, w.endY;
    assert w.startX == x && w.endX == x;
    assert MinOf(a / nc, b / nc) == ey && MaxOf(a / nc, b / nc) == sy;
    if LineOfSight(m, nc, w) {
      forall r | ey < r < sy
        ensures !Blocks(At(m, r * nc + x))
      {
        ColumnStep(m, nc, w, sy - r);
      }
    }
    if ColumnClear(m, nc, x, a / nc, b / nc) {
      forall k | 1 <= k <= w.steps
        ensures !StepBlocks(m, nc, w, k)
      {
        ColumnStep(m, nc, w, k);
        assert k < w.steps ==> ey < sy - k < sy;
        assert k >= 2 ==> ey < sy - k + 1 < sy;
      }
    }
  }

  // ------------------------------------------------------ endpoints

  function EndIndex(w: Walk, nc: int): int { w.endX + w.endY * nc }

  /** No cell a step reads is its start cell, except through the split test, which skips the start cell. */
  lemma TopNotStart(w: Walk, nc: int, k: int)
    requires nc >= 1 && WellShaped(w) && 1 <= k <= w.steps
    requires 0 <= w.startX < nc && 0 <= w.endX < nc
    ensures TopIndex(w, nc, k) != StartIndex(w, nc)
    ensures !OnRow(w, k) ==> TopIndex(w, nc, k) + nc != StartIndex(w, nc)
  {
    WalkBetween(w, k);
    WalkShape(w, k);
    var r, x := Row(w, k), X(w, k);
    if TopIndex(w, nc, k) == StartIndex(w, nc) {
      IndexUnique(r, x, w.startY, w.startX, nc);
    }
    if !OnRow(w, k) && TopIndex(w, nc, k) + nc == StartIndex(w, nc) {
      assert TopIndex(w, nc, k) + nc == (r + 1) * nc + x;
      IndexUnique(r + 1, x, w.startY, w.startX, nc);
    }
  }

  /** A step lands on its end cell only when it arrives there. */
  lemma TopAtEnd(w: Walk, nc: int, k: int)
    requires nc >= 1 && WellShaped(w) && 1 <= k <= w.steps
    requires 0 <= w.startX < nc && 0 <= w.endX < nc
    ensures TopIndex(w, nc, k) == EndIndex(w, nc) ==> AtDest(w, k)
  {
    WalkBetween(w, k);
    WalkShape(w, k);
    var r, x := Row(w, k), X(w, k);
    if TopIndex(w, nc, k) == EndIndex(w, nc) {
      IndexUnique(r, x, w.endY, w.endX, nc);
      assert k == w.steps && !(w.startY == w.endY && w.startX != w.endX) by {
        if w.startX != w.endX {
          if w.xinc == 1 {
            assert k == w.endX - w.startX;
          } else {
            assert k == w.startX - w.endX;
          }
        }
      }
      WalkArrives(w, k);
    }
  }

  /** Between two rows, a step never reads the end cell as the lower one. */
  lemma BelowNotEnd(w: Walk, nc: int, k: int)
    requires nc >= 1 && WellShaped(w) && 1 <= k <= w.steps
    requires 0 <= w.startX < nc && 0 <= w.endX < nc
    ensures !OnRow(w, k) ==> TopIndex(w, nc, k) + nc != EndIndex(w, nc)
  {
    WalkBetween(w, k);
    var r, x := Row(w, k), X(w, k);
    if !OnRow(w, k) && TopIndex(w, nc, k) + nc == EndIndex(w, nc) {
      assert 0 <= x < nc && w.endY <= r;
      RowsBelow(r, x, nc, 1);
      IndexUnique(r + 1, x, w.endY, w.endX, nc);
    }
  }

  lemma SplitNotEnd(w: Walk, nc: int, k: int, i: int)
    requires nc >= 1 && WellShaped(w) && 1 <= k <= w.steps && 1 <= i
    requires 0 <= w.startX < nc && 0 <= w.endX < nc
    ensures RightIndex(w, nc, k, i) != EndIndex(w, nc) && LeftIndex(w, nc, k, i) != EndIndex(w, nc)
  {
    WalkBetween(w, k);
    var r, x := Row(w, k), X(w, k);
    RowsBelow(r, x, nc, i);
    assert RightIndex(w, nc, k, i) == (r + i) * nc + x;
    assert LeftIndex(w, nc, k, i) == (r + i) * nc + X(w, k - 1);
    if RightIndex(w, nc, k, i) == EndIndex(w, nc) {
      IndexUnique(r + i, x, w.endY, w.endX, nc);
    }
    if LeftIndex(w, nc, k, i) == EndIndex(w, nc) {
      IndexUnique(r + i, X(w, k - 1), w.endY, w.endX, nc);
    }
  }

  /** A step never lets its start cell block it, nor its end cell, which it only lands on when it arrives. */
  lemma StepIgnoresEndpoints(m: seq<char>, nc: int, w: Walk, k: int, e: int, c: char)
    requires nc >= 1 && WellShaped(w) && 1 <= k <= w.steps
    requires 0 <= w.startX < nc && 0 <= w.endX < nc
    requires e == StartIndex(w, nc) || e == EndIndex(w, nc)
    requires 0 <= e < |m|
    ensures StepBlocks(m, nc, w, k) == StepBlocks(m[e := c], nc, w, k)
  {
    var m' := m[e := c];
    if e == StartIndex(w, nc) {
      TopNotStart(w, nc, k);
    } else {
      TopAtEnd(w, nc, k);
      BelowNotEnd(w, nc, k);
    }
    assert TopBlocks(m, nc, w, k) == TopBlocks(m', nc, w, k);
    forall i | 1 <= i <= RowDiff(w, k)
      ensures SplitBlocks(m, nc, w, k, i) == SplitBlocks(m', nc, w, k, i)
    {
      if e != StartIndex(w, nc) {
        SplitNotEnd(w, nc, k, i);
      }
    }
  }

  lemma WalkIgnoresEndpoints(m: seq<char>, nc: int, w: Walk, e: int, c: char)
    requires nc >= 1 && WellShaped(w) && 0 <= w.startX < nc && 0 <= w.endX < nc
    requires (e == StartIndex(w, nc) || e == EndIndex(w, nc)) && 0 <= e < |m|
    ensures LineOfSight(m, nc, w) == LineOfSight(m[e := c], nc, w)
  {
    var m' := m[e := c];
    if LineOfSight(m, nc, w) {
      forall k | 1 <= k <= w.steps
        ensures !StepBlocks(m', nc, w, k)
      {
        StepIgnoresEndpoints(m, nc, w, k, e, c);
      }
    }
    if LineOfSight(m', nc, w) {
      forall k | 1 <= k <= w.steps
        ensures !StepBlocks(m, nc, w, k)
      {
        StepIgnoresEndpoints(m, nc, w, k, e, c);
      }
    }
  }

  /** What the two points themselves hold never decides whether the line between them is clear. */
  lemma EndpointsNeverOcclude(m: seq<char>, nc: int, nr: int, a: int, b: int, c: char)
    requires nc >= 1 && nr >= 1 && |m| == nc * nr && 0 <= a < |m| && 0 <= b < |m|
    ensures LineOfSight(m, nc, WalkOf(a, b, nc)) == LineOfSight(m[a := c], nc, WalkOf(a, b, nc))
    ensures LineOfSight(m, nc, WalkOf(a, b, nc)) == LineOfSight(m[b := c], nc, WalkOf(a, b, nc))
  {
    var w := WalkOf(a, b, nc);
    WalkOfShape(a, b, nc, nr);
    IndexSplit(a, nc);
    IndexSplit(b, nc);
    assert (StartIndex(w, nc) == a && EndIndex(w, nc) == b) || (StartIndex(w, nc) == b && EndIndex(w, nc) == a);
    WalkIgnoresEndpoints(m, nc, w, a, c);
    WalkIgnoresEndpoints(m, nc, w, b, c);
  }

  // ------------------------------------------------------ symmetry

  /** The line of sight is the same seen from either end. */
  lemma LineOfSightSymmetric(m: seq<char>, nc: int, a: int, b: int)
    requires nc >= 1 && a >= 0 && b >= 0
    ensures LineOfSight(m, nc, WalkOf(a, b, nc)) == LineOfSight(m, nc, WalkOf(b, a, nc))
  {
    if a / nc == b / nc {
      RowLineOfSight(m, nc, a, b);
      RowLineOfSight(m, nc, b, a);
    } else {
      assert WalkOf(a, b, nc) == WalkOf(b, a, nc);
    }
  }

  /** Between two cells that are not passages, visibility goes both ways. */
  lemma VisibleSymmetric(m: seq<char>, nc: int, nr: int, a: int, b: int)
    requires nc >= 1 && nr >= 1 && |m| == nc * nr && PassagesInterior(m, nc)
    requires 0 <= a < |m| && 0 <= b < |m| && m[a] != '#' && m[b] != '#'
    ensures IsVisible(m, nc, nr, a, b) == IsVisible(m, nc, nr, b, a)
  {
    LineOfSightSymmetric(m, nc, a, b);
  }

  /**
   * A five by five map with a room spot at 11, a floor cell at 12 and a
   * passage running down column 3 past 13.
   */
  const JunctionMap: string := "    \n   #\n ..#\n   #\n    \n"

  /** The passage rule looks at the map point only, so a viewer in a passage can see a room that cannot see it. */
  lemma PassageSightOneWay()
    ensures PassagesInterior(JunctionMap, 5)
    ensures IsVisible(JunctionMap, 5, 5, 11, 13) && !IsVisible(JunctionMap, 5, 5, 13, 11)
  {
    var m := JunctionMap;
    assert |m| == 25;
    RowVisibility(m, 5, 5, 11, 13);
    assert RowClear(m, 11, 13) by {
      assert MinOf(11, 13) == 11 && MaxOf(11, 13) == 13 && m[12] == '.';
    }
    assert m[11] == '.' && m[13] == '#';
    assert PassageNeighbours(m, 5, 13) == 2 by {
      assert m[12] == '.' && m[14] == '\n' && m[18] == '#' && m[8] == '#';
    }
  }
}
