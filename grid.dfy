/**
 * The map store: the terrain as loaded (`originalGrid`, never written after
 * loading) and the current map with gold and player letters (`masterGrid`),
 * both `numRows` rows of `numColumns` characters, the last of each row a
 * newline. The C buffers carry a terminating NUL after the N = numRows *
 * numColumns cells; the model's buffers hold the N cells only.
 */
module Grid {
  import opened Wrappers
  import opened Chars
  import opened Sight
  import opened Player

  /** The characters grid_updateMaster accepts: gold, the self marker, rock, room, passage, letters. */
  predicate MasterChar(c: char)
  {
    c == '*' || c == '@' || c == ' ' || c == '.' || c == '#' || IsAlpha(c)
  }

  predicate NoNul(s: seq<char>) { forall i :: 0 <= i < |s| ==> s[i] != '\0' }

  // ------------------------------------------------------------ map text

  /** The length of the first line (file_readLine), the whole text when it has no newline. */
  function FirstLineLength(s: string): (n: nat)
    ensures n <= |s| && (n < |s| ==> s[n] == '\n')
    ensures forall i :: 0 <= i < n ==> s[i] != '\n'
  {
    if s == [] || s[0] == '\n' then 0 else 1 + FirstLineLength(s[1..])
  }

  /** The number of lines (file_numLines): one per newline. */
  function LineCount(s: string): nat
  {
    if s == [] then 0 else LineCount(s[..|s| - 1]) + (if s[|s| - 1] == '\n' then 1 else 0)
  }

  /** Rows of equal width, each ended by a newline: the shape the map files have. */
  predicate IsMapText(s: string)
  {
    var nc := FirstLineLength(s) + 1;
    LineCount(s) >= 1 && |s| == nc * LineCount(s) && NoNul(s)
    && forall i :: 0 <= i < |s| ==> (s[i] == '\n' <==> i % nc == nc - 1)
  }

  // ------------------------------------------------------ updating a cell

  /**
   * grid_updateMaster on the N cells of the master grid, with the guard
   * refusing every index outside them. The restore sentinel '!' copies the
   * terrain cell and still reports failure.
   */
  function UpdateCell(m: seq<char>, orig: seq<char>, idx: int, c: char): (r: (seq<char>, bool))
    requires |orig| == |m|
    ensures |r.0| == |m|
    ensures r.1 <==> 0 <= idx < |m| && MasterChar(c)
    ensures r.1 ==> r.0 == m[idx := c]
    ensures !r.1 && 0 <= idx < |m| && c == '!' ==> r.0 == m[idx := orig[idx]]
    ensures !r.1 && !(0 <= idx < |m| && c == '!') ==> r.0 == m
  {
    if idx >= |m| || idx < 0 then (m, false)
    else
      var m1 := if c == '!' then m[idx := orig[idx]] else m;
      if !MasterChar(c) then (m1, false) else (m1[idx := c], true)
  }

  /** No update puts a NUL into the cells, so the C string keeps its length N. */
  lemma UpdateCellKeepsTerminator(m: seq<char>, orig: seq<char>, idx: int, c: char)
    requires |orig| == |m| && NoNul(m) && NoNul(orig)
    ensures NoNul(UpdateCell(m, orig, idx, c).0)
  {
  }

  /**
   * grid_updateMaster as written, on the C buffer of n cells and a NUL: its
   * guard admits index n, the terminator.
   */
  function UpdateCellAsWritten(buf: seq<char>, orig: seq<char>, n: int, idx: int, c: char): (seq<char>, bool)
    requires n >= 0 && |buf| == n + 1 && |orig| == n + 1
  {
    if idx > n || idx < 0 then (buf, false)
    else
      var b1 := if c == '!' then buf[idx := orig[idx]] else buf;
      if !MasterChar(c) then (b1, false) else (b1[idx := c], true)
  }

  /** Away from index N the code as written behaves like the corrected update. */
  lemma UpdateCellAsWrittenAgrees(m: seq<char>, orig: seq<char>, idx: int, c: char)
    requires |orig| == |m| && idx != |m|
    ensures UpdateCellAsWritten(m + ['\0'], orig + ['\0'], |m|, idx, c)
      == (UpdateCell(m, orig, idx, c).0 + ['\0'], UpdateCell(m, orig, idx, c).1)
  {
    if 0 <= idx < |m| {
      assert (m + ['\0'])[idx := orig[idx]] == m[idx := orig[idx]] + ['\0'];
      assert (m + ['\0'])[idx := c] == m[idx := c] + ['\0'];
      assert (m[idx := orig[idx]] + ['\0'])[idx := c] == m[idx := orig[idx]][idx := c] + ['\0'];
    }
  }

  /** Writing gold at index N succeeds and leaves the buffer without a terminator. */
  lemma UpdateCellOverwritesTerminator(m: seq<char>, orig: seq<char>)
    requires |orig| == |m| && NoNul(m)
    ensures var r := UpdateCellAsWritten(m + ['\0'], orig + ['\0'], |m|, |m|, '*');
      r.1 && |r.0| == |m| + 1 && NoNul(r.0)
  {
    var r := UpdateCellAsWritten(m + ['\0'], orig + ['\0'], |m|, |m|, '*');
    assert r.0 == m + ['*'];
  }

  // ------------------------------------------------------ the player's view

  /** grid_getVisible: '@' at the player, visible cells from the map, the rest blank with newlines kept. */
  function VisibleView(m: seq<char>, nc: int, nr: int, p: int): (v: seq<char>)
    requires nc >= 1 && nr >= 1 && |m| == nc * nr && 0 <= p < |m| && PassagesInterior(m, nc)
    ensures |v| == |m|
  {
    seq(|m|, i requires 0 <= i < |m| => ViewCell(m, nc, nr, p, i))
  }

  function ViewCell(m: seq<char>, nc: int, nr: int, p: int, i: int): char
    requires nc >= 1 && nr >= 1 && |m| == nc * nr && 0 <= p < |m| && 0 <= i < |m| && PassagesInterior(m, nc)
  {
    if i == p then '@' else SeenCell(m, nc, nr, p, i)
  }

  /** A cell of the view before the self marker goes in. */
  function SeenCell(m: seq<char>, nc: int, nr: int, p: int, i: int): char
    requires nc >= 1 && nr >= 1 && |m| == nc * nr && 0 <= p < |m| && 0 <= i < |m| && PassagesInterior(m, nc)
  {
    if IsVisible(m, nc, nr, i, p) then m[i] else BlankCell(nc, i)
  }

  /** The cell of a blank view: a newline in the last column, rock elsewhere. */
  function BlankCell(nc: int, i: int): char
    requires nc >= 1
  {
    if i % nc == nc - 1 then '\n' else ' '
  }

  /** A remembered cell seen again as blank: players and gold fade to a room spot. */
  function Decay(c: char): (r: char)
    ensures r != '@' && !IsAlpha(r) && r != '*'
    ensures !(c == '@' || IsAlpha(c) || c == '*') ==> r == c
  {
    if c == '@' || IsAlpha(c) || c == '*' then '.' else c
  }

  /** grid_updatePlayerGrid's result: the fresh view, with its blanks filled from memory. */
  function Merge(known: seq<char>, view: seq<char>): (r: seq<char>)
    requires |known| >= |view|
    ensures |r| == |view|
  {
    seq(|view|, i requires 0 <= i < |view| => if view[i] == ' ' then Decay(known[i]) else view[i])
  }

  /** The remembered grid once grid_updatePlayerGrid has faded its markers in place. */
  function Faded(known: seq<char>, view: seq<char>): (r: seq<char>)
    ensures |r| == |known|
  {
    seq(|known|, i requires 0 <= i < |known| => if i < |view| && view[i] == ' ' then Decay(known[i]) else known[i])
  }

  /** The map's row structure: a newline exactly in the last column of each row. */
  predicate RowsEnded(m: seq<char>, nc: int)
    requires nc >= 1
  {
    forall i :: 0 <= i < |m| ==> (m[i] == '\n' <==> i % nc == nc - 1)
  }

  /**
   * What grid_getVisible shows: the self marker at the player, the rows of
   * the map, each cell next to the player as it is, passages the passage
   * rule hides as rock, and every other cell as it is exactly when it is
   * visible from the player, and as rock when it is not.
   */
  lemma ViewShape(m: seq<char>, nc: int, nr: int, p: int)
    requires nc >= 1 && nr >= 1 && |m| == nc * nr && 0 <= p < |m| && PassagesInterior(m, nc)
    requires RowsEnded(m, nc) && m[p] != '\n'
    ensures var v := VisibleView(m, nc, nr, p);
      v[p] == '@'
      && (forall i :: 0 <= i < |v| ==> (v[i] == '\n' <==> i % nc == nc - 1))
      && (forall i :: 0 <= i < |v| && i != p ==> v[i] == m[i] || v[i] == ' ')
      && (forall i :: 0 <= i < |v| && i != p && i % nc != nc - 1 ==>
            v[i] == (if IsVisible(m, nc, nr, i, p) then m[i] else ' '))
  {
  }

  lemma NeighboursInView(m: seq<char>, nc: int, nr: int, p: int, i: int)
    requires nc >= 1 && nr >= 1 && |m| == nc * nr && 0 <= p < |m| && PassagesInterior(m, nc)
    requires 0 <= i < |m| && i != p && Abs(i / nc - p / nc) <= 1 && Abs(i % nc - p % nc) <= 1
    ensures VisibleView(m, nc, nr, p)[i] == m[i]
  {
    NeighbourVisible(m, nc, nr, i, p);
  }

  lemma HiddenPassageInView(m: seq<char>, nc: int, nr: int, p: int, i: int)
    requires nc >= 1 && nr >= 1 && |m| == nc * nr && 0 <= p < |m| && PassagesInterior(m, nc)
    requires 0 <= i < |m| && m[i] == '#' && i % nc != nc - 1
    requires Abs(i / nc - p / nc) > 1 || Abs(i % nc - p % nc) > 1
    requires PassageNeighbours(m, nc, i) > 1
    ensures VisibleView(m, nc, nr, p)[i] == ' '
  {
  }

  /**
   * The merge of grid_updatePlayerGrid: every cell the fresh view shows
   * comes from it, every other cell from memory with its markers faded,
   * which is what the remembered grid now holds.
   */
  lemma MergeRemembers(known: seq<char>, view: seq<char>, i: int)
    requires |known| >= |view| && 0 <= i < |view|
    ensures view[i] != ' ' ==> Merge(known, view)[i] == view[i]
    ensures view[i] == ' ' ==> Merge(known, view)[i] == Faded(known, view)[i]
    ensures view[i] == ' ' ==> var c := Merge(known, view)[i]; c != '@' && !IsAlpha(c) && c != '*'
  {
  }

  /** Fading is done once: merging again with the same view changes neither result. */
  lemma FadeIdempotent(known: seq<char>, view: seq<char>)
    requires |known| >= |view|
    ensures Faded(Faded(known, view), view) == Faded(known, view)
    ensures Merge(Faded(known, view), view) == Merge(known, view)
  {
    var f := Faded(known, view);
    assert forall i :: 0 <= i < |f| ==> Faded(f, view)[i] == f[i];
    assert forall i :: 0 <= i < |view| ==> Merge(f, view)[i] == Merge(known, view)[i];
  }

  class Grid {
    const numRows: int
    const numColumns: int
    const originalGrid: string
    const masterGrid: array<char>

    predicate Valid()
    {
      numRows >= 1 && numColumns >= 1
      && |originalGrid| == numRows * numColumns && masterGrid.Length == numRows * numColumns
    }

    constructor (nr: int, nc: int, original: string, master: array<char>)
      ensures numRows == nr && numColumns == nc && originalGrid == original && masterGrid == master
    {
      numRows := nr;
      numColumns := nc;
      originalGrid := original;
      masterGrid := master;
    }

    /** grid_isVisiblePoint: the walk of the source, step by step. */
    method IsVisiblePoint(mapPointIdx: int, playerIdx: int) returns (r: bool)
      requires Valid() && mapPointIdx != masterGrid.Length && playerIdx != masterGrid.Length
      requires PassagesInterior(masterGrid[..], numColumns)
      ensures r == IsVisible(masterGrid[..], numColumns, numRows, mapPointIdx, playerIdx)
    {
      var nc := numColumns;
      var n := nc * numRows;
      ghost var m := masterGrid[..];
      if playerIdx < 0 || playerIdx > n || mapPointIdx < 0 || mapPointIdx > n {
        return false;
      }
      var mc := mapPointIdx % nc;
      var mr := mapPointIdx / nc;
      var pc := playerIdx % nc;
      var pr := playerIdx / nc;
      if masterGrid[mapPointIdx] == '#' {
        if !PassageVisible(masterGrid[..], nc, mapPointIdx, mr, pr, mc, pc) {
          return false;
        }
      }
      var startY, startX, endY, endX := mr, mc, pr, pc;
      if pr > mr {
        startY, startX, endY, endX := pr, pc, mr, mc;
      }
      var xinc: int;
      var yinc: real := 0.0;
      if startX - endX != 0 {
        var numerator := Abs(startY - endY);
        var denominator := Abs(startX - endX);
        yinc := -(numerator as real / denominator as real);
        if startX > endX {
          xinc := -1;
        } else {
          xinc := 1;
        }
      } else {
        xinc := 0;
        yinc := -1.0;
      }
      ghost var w := WalkOf(mapPointIdx, playerIdx, nc);
      WalkOfShape(mapPointIdx, playerIdx, nc, numRows);
      assert w.startX == startX && w.startY == startY && w.endX == endX && w.endY == endY;
      assert w.xinc == xinc && w.yinc == yinc;
      r := WalkIsClear(w, startX, startY, endX, endY, xinc, yinc);
    }

    /** The walk loop of grid_isVisiblePoint, from the first step to the last. */
    method WalkIsClear(ghost w: Walk, startX: int, startY: int, endX: int, endY: int, xinc: int, yinc: real)
      returns (r: bool)
      requires Valid() && WellShaped(w)
      requires 0 <= w.endY && w.startY < numRows && 0 <= w.startX < numColumns && 0 <= w.endX < numColumns
      requires startX == w.startX && startY == w.startY && endX == w.endX && endY == w.endY
      requires xinc == w.xinc && yinc == w.yinc
      ensures r == LineOfSight(masterGrid[..], numColumns, w)
    {
      var nc := numColumns;
      ghost var m := masterGrid[..];
      var currY: real := startY as real;
      var priorY: real := startY as real;
      var currX := startX + xinc;
      ghost var k := 0;
      if w.steps == 0 {
        WalkExits(w);
      }
      while currX - endX != 0 || currY - endY as real > 0.0
        invariant 0 <= k <= w.steps
        invariant currX == X(w, k + 1) && currY == Y(w, k) && priorY == Y(w, k)
        invariant k < w.steps || !LoopCond(w, k)
        invariant ClearUpTo(m, nc, w, k)
        decreases w.steps - k
      {
        YStep(w, k);
        currY := currY + yinc;
        k := k + 1;
        WalkArrives(w, k);
        var top := LandsOnBarrier(w, k, currX, currY, endX, endY);
        if top {
          BlockedStepHides(m, nc, w, k);
          return false;
        }
        var split := CrossesBarrier(w, k, currX, currY, priorY, startX, startY, endX, endY, xinc);
        if split {
          BlockedStepHides(m, nc, w, k);
          return false;
        }
        assert m == masterGrid[..] && nc == numColumns;
        assert !StepBlocks(m, nc, w, k);
        ClearExtends(m, nc, w, k);
        if currY - endY as real <= 0.0 && currX == endX {
          ClearToTheEnd(m, nc, w);
          return true;
        }
        priorY := currY;
        assert X(w, k + 1) == X(w, k) + xinc;
        currX := currX + xinc;
        if k == w.steps {
          WalkExits(w);
        }
      }
      if k < w.steps {
        WalkContinues(w, k);
      }
      ClearToTheEnd(m, nc, w);
      return true;
    }

    /** The first check of a step: the cell the walk lands on, and the one below when it falls between two. */
    method LandsOnBarrier(ghost w: Walk, ghost k: int, currX: int, currY: real, endX: int, endY: int)
      returns (blocked: bool)
      requires Valid() && WellShaped(w) && 1 <= k <= w.steps
      requires 0 <= w.endY && w.startY < numRows && 0 <= w.startX < numColumns && 0 <= w.endX < numColumns
      requires currX == X(w, k) && currY == Y(w, k) && endX == w.endX && endY == w.endY
      ensures blocked == TopBlocks(masterGrid[..], numColumns, w, k)
    {
      var nc := numColumns;
      WalkInGrid(w, nc, numRows, k);
      var topChar := masterGrid[currY.Floor * nc + currX];
      if Blocks(topChar) {
        if currY.Floor as real != currY {
          var bottomChar := masterGrid[currY.Floor * nc + currX + nc];
          if Blocks(bottomChar) {
            if !(currY - endY as real <= 0.0) || currX != endX {
              return true;
            }
          }
        } else {
          if !(currY - endY as real <= 0.0) || currX != endX {
            return true;
          }
        }
      }
      return false;
    }

    /** The second check of a step: every row it crosses, between the cells left and right of the line. */
    method CrossesBarrier(ghost w: Walk, ghost k: int, currX: int, currY: real, priorY: real,
                          startX: int, startY: int, endX: int, endY: int, xinc: int)
      returns (blocked: bool)
      requires Valid() && WellShaped(w) && 1 <= k <= w.steps
      requires 0 <= w.endY && w.startY < numRows && 0 <= w.startX < numColumns && 0 <= w.endX < numColumns
      requires currX == X(w, k) && currY == Y(w, k) && priorY == Y(w, k - 1)
      requires startX == w.startX && startY == w.startY && endX == w.endX && endY == w.endY && xinc == w.xinc
      ensures blocked == exists i :: 1 <= i <= RowDiff(w, k) && SplitBlocks(masterGrid[..], numColumns, w, k, i)
    {
      var nc := numColumns;
      ghost var m := masterGrid[..];
      WalkInGrid(w, nc, numRows, k);
      var rowDiff := priorY.Floor - currY.Floor;
      var i := 1;
      while i <= rowDiff
        invariant 1 <= i && (rowDiff >= 0 ==> i <= rowDiff + 1)
        invariant forall i' :: 1 <= i' < i ==> !SplitBlocks(m, nc, w, k, i')
      {
        var rightIndex := currY.Floor * nc + currX + nc * i;
        assert rightIndex == RightIndex(w, nc, k, i);
        var rightChar := masterGrid[rightIndex];
        if Blocks(rightChar) {
          var leftIndex := currY.Floor * nc + currX + nc * i - xinc;
          var leftChar := masterGrid[leftIndex];
          if Blocks(leftChar) {
            var reachedYDest := (currY.Floor * nc + nc * i) / nc - endY <= 0;
            var notStartChar := leftIndex != startX + startY * nc && rightIndex != startX + startY * nc;
            if (!reachedYDest || currX != endX) && notStartChar {
              assert SplitBlocks(m, nc, w, k, i);
              return true;
            }
          }
        }
        i := i + 1;
      }
      return false;
    }

    /** grid_updateMaster, with the corrected guard. */
    method UpdateMaster(idx: int, addedChar: char) returns (ok: bool)
      requires Valid()
      modifies masterGrid
      ensures (masterGrid[..], ok) == UpdateCell(old(masterGrid[..]), originalGrid, idx, addedChar)
    {
      if idx >= numColumns * numRows || idx < 0 {
        return false;
      }
      if addedChar == '!' {
        masterGrid[idx] := originalGrid[idx];
      }
      if addedChar != '*' && addedChar != '@' && addedChar != ' ' && addedChar != '.'
         && addedChar != '#' && !IsAlpha(addedChar) {
        return false;
      }
      masterGrid[idx] := addedChar;
      return true;
    }

    /** The first pass of grid_getVisible: a view of the map's shape with nothing in it. */
    method BlankView() returns (v: array<char>)
      requires Valid()
      ensures fresh(v) && v.Length == masterGrid.Length
      ensures forall j :: 0 <= j < v.Length ==> v[j] == BlankCell(numColumns, j)
    {
      v := new char[masterGrid.Length];
      var i := 0;
      while i < v.Length
        invariant 0 <= i <= v.Length
        invariant forall j :: 0 <= j < i ==> v[j] == BlankCell(numColumns, j)
      {
        if i % numColumns == numColumns - 1 {
          v[i] := '\n';
        } else {
          v[i] := ' ';
        }
        i := i + 1;
      }
    }

    /** grid_getVisible: a blank view of the map's shape, then every visible cell, then the self marker. */
    method GetVisible(playerIdx: int) returns (r: Option<string>)
      requires Valid() && playerIdx != masterGrid.Length
      requires PassagesInterior(masterGrid[..], numColumns)
      ensures r.None? <==> playerIdx < 0 || playerIdx > masterGrid.Length
      ensures r.Some? ==> (0 <= playerIdx < masterGrid.Length
        && r.value == VisibleView(masterGrid[..], numColumns, numRows, playerIdx))
    {
      var n := numColumns * numRows;
      if playerIdx < 0 || playerIdx > n {
        return None;
      }
      var visibleGrid := BlankView();
      var i := 0;
      while i < n
        invariant 0 <= i <= n
        invariant forall j :: 0 <= j < i ==> visibleGrid[j] == SeenCell(masterGrid[..], numColumns, numRows, playerIdx, j)
        invariant forall j :: i <= j < n ==> visibleGrid[j] == BlankCell(numColumns, j)
      {
        var visible := IsVisiblePoint(i, playerIdx);
        if visible {
          visibleGrid[i] := masterGrid[i];
        }
        i := i + 1;
      }
      visibleGrid[playerIdx] := '@';
      r := Some(visibleGrid[..]);
      assert forall j :: 0 <= j < n ==> r.value[j] == ViewCell(masterGrid[..], numColumns, numRows, playerIdx, j);
    }

    /**
     * grid_updatePlayerGrid: the player's fresh view with its blanks filled
     * from the remembered grid, whose markers fade in place.
     */
    method UpdatePlayerGrid(p: Player?) returns (r: Option<string>)
      requires Valid() && PassagesInterior(masterGrid[..], numColumns)
      requires p != null ==> GetLoc(p) != masterGrid.Length
      requires p != null && p.grid.Some? && 0 <= GetLoc(p) < masterGrid.Length ==> |p.grid.value| >= masterGrid.Length
      modifies if p == null then {} else {p}`grid
      ensures p == null ==> r == None
      ensures p != null && !(0 <= GetLoc(p) < masterGrid.Length) ==> r == old(p.grid) && p.grid == old(p.grid)
      ensures p != null && 0 <= GetLoc(p) < masterGrid.Length ==>
        var view := VisibleView(masterGrid[..], numColumns, numRows, GetLoc(p));
        if old(p.grid).None? then r == Some(view) && p.grid == old(p.grid)
        else r == Some(Merge(old(p.grid).value, view)) && p.grid == Some(Faded(old(p.grid).value, view))
    {
      if p == null {
        return None;
      }
      var knownGrid := GetGrid(p);
      var newGrid := GetVisible(GetLoc(p));
      if knownGrid.None? {
        return newGrid;
      }
      if newGrid.None? {
        return knownGrid;
      }
      ghost var known0 := knownGrid.value;
      ghost var view := newGrid.value;
      var mergedGrid := new char[|newGrid.value|](j requires 0 <= j < |newGrid.value| reads {} => newGrid.value[j]);
      var n := numRows * numColumns;
      var i := 0;
      while i < n
        invariant 0 <= i <= n
        invariant p.grid.Some? && |p.grid.value| == |known0|
        invariant forall j :: 0 <= j < |known0| ==>
          p.grid.value[j] == if j < i && j < |view| && view[j] == ' ' then Decay(known0[j]) else known0[j]
        invariant forall j :: 0 <= j < n ==>
          mergedGrid[j] == if j < i && view[j] == ' ' then Decay(known0[j]) else view[j]
      {
        if mergedGrid[i] == ' ' {
          var known := p.grid.value;
          if known[i] == '@' || IsAlpha(known[i]) || known[i] == '*' {
            p.grid := Some(known[i := '.']);
          }
          mergedGrid[i] := p.grid.value[i];
        }
        i := i + 1;
      }
      r := Some(mergedGrid[..]);
      assert p.grid.value == Faded(known0, view);
      assert mergedGrid[..] == Merge(known0, view);
    }

    /**
     * grid_playerToGrid: a letter of 'A' or above goes to some room spot (the
     * source draws cells at random until it finds one), and the player gets
     * the view from there and then the location.
     */
    method PlayerToGrid(p: Player?, letter: char) returns (ghost location: int)
      requires Valid() && PassagesInterior(masterGrid[..], numColumns)
      requires p != null && letter >= 'A' ==> exists i :: 0 <= i < masterGrid.Length && masterGrid[i] == '.'
      modifies masterGrid, p
      ensures !(p != null && letter >= 'A') ==> masterGrid[..] == old(masterGrid[..])
      ensures p != null && !(letter >= 'A') ==> (p.grid == old(p.grid) && p.location == old(p.location))
      ensures p != null ==> (p.address == old(p.address) && p.name == old(p.name) && p.purse == old(p.purse)
        && p.status == old(p.status))
      ensures p != null && letter >= 'A' ==> (0 <= location < masterGrid.Length && old(masterGrid[location]) == '.'
        && masterGrid[..] == UpdateCell(old(masterGrid[..]), originalGrid, location, letter).0
        && PassagesInterior(masterGrid[..], numColumns)
        && p.grid == Some(VisibleView(masterGrid[..], numColumns, numRows, location))
        && p.location == if |p.name| > 0 then location else old(p.location))
    {
      location := -1;
      if p != null && letter >= 'A' {
        var spot :| 0 <= spot < masterGrid.Length && masterGrid[spot] == '.';
        location := spot;
        var _ := UpdateMaster(spot, letter);
        assert PassagesInterior(masterGrid[..], numColumns);
        var playerGrid := GetVisible(spot);
        var _ := SetGrid(p, playerGrid);
        var _ := SetLoc(p, spot);
      }
    }
  }

  // -------------------------------------------------------------- loading

  /**
   * grid_initialize from the text of a map file: the terrain is kept as is,
   * and a number of gold piles between the two bounds, drawn as `roll`, go
   * to distinct room spots of the master grid (the source draws cells at
   * random until it finds a free room spot).
   */
  method Initialize(text: string, goldMinNumPiles: int, goldMaxNumPiles: int)
    returns (g: Grid, numPiles: int, ghost piles: set<int>)
    requires IsMapText(text)
    requires 0 <= goldMinNumPiles <= goldMaxNumPiles <= multiset(text)['.']
    ensures fresh(g) && fresh(g.masterGrid) && g.Valid()
    ensures g.numRows == LineCount(text) && g.numColumns == FirstLineLength(text) + 1 && g.originalGrid == text
    ensures goldMinNumPiles <= numPiles <= goldMaxNumPiles && |piles| == numPiles
    ensures forall i :: i in piles ==> 0 <= i < |text| && text[i] == '.' && g.masterGrid[i] == '*'
    ensures forall i :: 0 <= i < |text| && i !in piles ==> g.masterGrid[i] == text[i]
  {
    var currNR := LineCount(text);
    var currNC := FirstLineLength(text) + 1;
    var currGrid := new char[|text|](i requires 0 <= i < |text| => text[i]);
    var roll: nat :| true;
    numPiles := roll % (goldMaxNumPiles - goldMinNumPiles + 1) + goldMinNumPiles;
    piles := {};
    assert currGrid[..] == text;
    var i := 0;
    while i < numPiles
      invariant 0 <= i <= numPiles && |piles| == i
      invariant forall j :: j in piles ==> 0 <= j < |text| && text[j] == '.' && currGrid[j] == '*'
      invariant forall j :: 0 <= j < |text| && j !in piles ==> currGrid[j] == text[j]
      invariant multiset(currGrid[..])['.'] == multiset(text)['.'] - i
    {
      assert '.' in multiset(currGrid[..]);
      assert '.' in currGrid[..];
      var location :| 0 <= location < currGrid.Length && currGrid[location] == '.';
      assert location !in piles;
      ghost var before := currGrid[..];
      currGrid[location] := '*';
      assert currGrid[..] == before[location := '*'];
      piles := piles + {location};
      i := i + 1;
    }
    assert |text| == currNR * currNC && currGrid.Length == |text|;
    g := new Grid(currNR, currNC, text, currGrid);
  }

  // -------------------------------------------------------------- getters

  function GetNR(g: Grid?): int { if g == null then -1 else g.numRows }

  function GetNC(g: Grid?): int { if g == null then -1 else g.numColumns }

  function GetMasterGrid(g: Grid?): Option<seq<char>>
    reads if g == null then {} else {g.masterGrid}
  {
    if g == null then None else Some(g.masterGrid[..])
  }

  function GetOriginalGrid(g: Grid?): Option<seq<char>>
  {
    if g == null then None else Some(g.originalGrid)
  }

  /** Every getter answers with its error sentinel for a missing grid, and with the field otherwise. */
  lemma GridGettersSentinels(g: Grid?)
    ensures g == null ==> GetNR(g) == -1 && GetNC(g) == -1 && GetMasterGrid(g) == None && GetOriginalGrid(g) == None
    ensures g != null ==> (GetNR(g) == g.numRows && GetNC(g) == g.numColumns
      && GetOriginalGrid(g) == Some(g.originalGrid) && GetMasterGrid(g) == Some(g.masterGrid[..]))
  {
  }
}
