/** The drainage-classification engine of ContinentMap: a square board of
    cells, each holding a height and the flags flowsNW, flowsSE, basin,
    processing and dependency, which two alternative propagators mutate in
    place. */
module ContinentMaps {
  import opened Cells
  import opened Grid
  import opened Ascents
  import opened BuildUpSpec
  import opened BuildDownSpec

  /** The 5 x 5 preset terrain the view starts with, row by row. */
  const DEFAULT_MAP: seq<int> := [
    50, 50, 50, 50, 60,
    50, 22, 26, 70, 50,
    50, 24, 30, 30, 29,
    50, 28, 28, 29, 22,
    60, 50, 50, 50, 50
  ]

  /** The preset fills a 5 x 5 board with heights in range. */
  lemma DefaultMapShape()
    ensures |DEFAULT_MAP| == 25
    ensures forall j :: 0 <= j < |DEFAULT_MAP| ==> 0 <= DEFAULT_MAP[j] <= MAX_HEIGHT
  {
  }

  class ContinentMap {
    const boardSize: int
    const cells: array<Cell>

    ghost predicate Shaped()
    {
      0 < boardSize && cells.Length == boardSize * boardSize
    }

    ghost predicate Valid()
      reads cells
    {
      Shaped() && Wellformed(boardSize, cells[..])
    }

    /** A board of the given side holding the given heights, row by row,
        every flag false: the terrain generateTerrain would produce. */
    constructor (size: int, heights: seq<int>)
      requires 0 < size && |heights| == size * size
      requires forall j :: 0 <= j < |heights| ==> 0 <= heights[j] <= MAX_HEIGHT
      ensures Valid() && fresh(cells) && boardSize == size
      ensures forall j :: 0 <= j < cells.Length ==> cells[j] == NewCell(heights[j])
    {
      boardSize := size;
      cells := new Cell[size * size](j requires 0 <= j < size * size => NewCell(heights[j]));
    }

    /** The board as the view constructs it, from DEFAULT_MAP. */
    constructor Default()
      ensures Valid() && fresh(cells) && boardSize == 5
      ensures forall j :: 0 <= j < cells.Length ==> cells[j] == NewCell(DEFAULT_MAP[j])
    {
      boardSize := 5;
      cells := new Cell[25](j requires 0 <= j < 25 => NewCell(DEFAULT_MAP[j]));
    }

    /** The cell at (x, y), or nothing off the board. */
    function GetMap(x: int, y: int): (c: Option<Cell>)
      requires Shaped()
      reads cells
      ensures c.Some? <==> InGrid(boardSize, x, y)
      ensures c.Some? ==> 0 <= Index(boardSize, x, y) < cells.Length && c.value == cells[Index(boardSize, x, y)]
    {
      if x >= 0 && x < boardSize && y >= 0 && y < boardSize then
        IndexCoords(boardSize, x, y);
        Some(cells[x + boardSize * y])
      else
        None
    }

    /** Resets flowsNW, flowsSE, basin and processing of every cell; heights
        and dependency stay. */
    method ClearContinentalDivide()
      requires Shaped()
      modifies cells
      ensures forall j :: 0 <= j < cells.Length ==> cells[j] == Cleared(old(cells[j]))
      ensures Wellformed(boardSize, old(cells[..])) ==> Wellformed(boardSize, cells[..])
    {
      for i := 0 to boardSize * boardSize
        invariant forall j :: 0 <= j < i ==> cells[j] == Cleared(old(cells[j]))
        invariant forall j :: i <= j < cells.Length ==> cells[j] == old(cells[j])
      {
        cells[i] := cells[i].(flowsNW := false);
        cells[i] := cells[i].(flowsSE := false);
        cells[i] := cells[i].(basin := false);
        cells[i] := cells[i].(processing := false);
      }
    }

    /** The build-up pass: unless oneStep, clear the board, then flood from
        every edge cell in turn, x outer and y inner, with the flags of the
        edges it lies on. The full pass leaves BuiltUp of the board; the
        one-step pass floods only the first seed, (0, 0), into the board as
        it was. */
    method BuildUpContinentalDivide(oneStep: bool)
      requires Valid()
      modifies cells
      ensures Valid()
      ensures !oneStep ==> cells[..] == BuiltUp(old(cells[..]), boardSize)
      ensures oneStep ==> forall t :: 0 <= t < cells.Length ==>
        cells[t] == if Uphill(Heights(old(cells[..])), boardSize, 0, t) then Wet(old(cells[t]), true, boardSize == 1)
                    else old(cells[t])
    {
      if !oneStep {
        ClearContinentalDivide();
      }
      ghost var start := cells[..];
      assert forall j :: 0 <= j < |start| ==> !start[j].processing && start[j].height >= -1;
      var iterated := false;
      for x := 0 to boardSize
        invariant cells[..] == SeededUpTo(start, boardSize, x, 0) && !iterated
        invariant oneStep ==> x == 0
      {
        for y := 0 to boardSize
          invariant cells[..] == SeededUpTo(start, boardSize, x, y) && !iterated
          invariant oneStep ==> y == 0
        {
          if x == 0 || y == 0 || x == boardSize - 1 || y == boardSize - 1 {
            FloodFromEdge(x, y, start);
            if oneStep {
              iterated := true;
              break;
            }
          } else {
            SkipStep(start, boardSize, x, y);
          }
        }
        if iterated && oneStep {
          break;
        }
        ColumnStep(start, boardSize, x);
      }
      if oneStep {
        forall t | 0 <= t < cells.Length
          ensures cells[t] == if Uphill(Heights(start), boardSize, 0, t) then Wet(start[t], true, boardSize == 1) else start[t]
        {
          FirstSeedOnly(start, boardSize, t);
        }
      } else {
        SeededAll(old(cells[..]), start, boardSize);
      }
      assert Heights(cells[..]) == Heights(start);
    }

    /** The call the build-up loop makes for the edge cell (x, y): a flood
        with the flags of the edges (x, y) lies on, from previousHeight -1,
        which moves the scan from start one position on. */
    method FloodFromEdge(x: int, y: int, ghost start: seq<Cell>)
      requires Shaped() && InGrid(boardSize, x, y) && OnPerimeter(boardSize, x, y) && |start| == cells.Length
      requires forall j :: 0 <= j < |start| ==> !start[j].processing && start[j].height >= -1
      requires cells[..] == SeededUpTo(start, boardSize, x, y)
      modifies cells
      ensures cells[..] == SeededUpTo(start, boardSize, x, y + 1)
    {
      TopSeed(start, boardSize, x, y);
      BuildUpContinentalDivideRecursively(x, y, x == 0 || y == 0, x == boardSize - 1 || y == boardSize - 1, -1);
    }

    /** The depth-first flood of one seed's flags from (x, y) along
        non-decreasing heights: the board afterwards is UpWalk of the board
        before, which UpWalkFloods shows to be Flood: the cells that some
        non-decreasing path from (x, y) reaches without crossing a cell on
        the call stack gain the seed's flags, provided (x, y) itself is at
        least previousHeight and not on the stack; nothing else changes. */
    method BuildUpContinentalDivideRecursively(x: int, y: int, flowsNW: bool, flowsSE: bool, previousHeight: int)
      requires Shaped() && InGrid(boardSize, x, y)
      modifies cells
      decreases Pending(cells[..]), 0
      ensures cells[..] == UpWalk(old(cells[..]), boardSize, x, y, flowsNW, flowsSE, previousHeight)
    {
      var i := Index(boardSize, x, y);
      var currentCell := GetMap(x, y).value;
      if currentCell.height >= previousHeight && !currentCell.processing {
        currentCell := currentCell.(processing := true);
        if flowsNW {
          currentCell := currentCell.(flowsNW := true);
        }
        if flowsSE {
          currentCell := currentCell.(flowsSE := true);
        }
        cells[i] := currentCell;
        PushLowers(old(cells[..]), i, currentCell);
        ghost var s1 := cells[..];
        FloodNeighbours(x, y, flowsNW, flowsSE, currentCell.height);
        ghost var s5 := cells[..];
        cells[i] := cells[i].(processing := false);
        UpWalkEntered(boardSize, i, currentCell, old(cells[..]), s1, s5, cells[..], x, y, flowsNW, flowsSE, previousHeight);
      }
    }

    /** The four guarded recursive calls of a build-up flood from (x, y),
        left, up, down, right, each with the height h of (x, y). */
    method FloodNeighbours(x: int, y: int, flowsNW: bool, flowsSE: bool, h: int)
      requires Shaped() && InGrid(boardSize, x, y)
      modifies cells
      decreases Pending(cells[..]), 2
      ensures cells[..] == UpNeighbours(old(cells[..]), boardSize, x, y, flowsNW, flowsSE, h)
    {
      VisitNeighbour(x - 1, y, flowsNW, flowsSE, h);
      VisitNeighbour(x, y - 1, flowsNW, flowsSE, h);
      VisitNeighbour(x, y + 1, flowsNW, flowsSE, h);
      VisitNeighbour(x + 1, y, flowsNW, flowsSE, h);
    }

    /** The build-down pass: unless oneStep, clear the board; then, while
        some cell is unclassified, take the first highest one in row-major
        order; a dependent basin copies the flags of its equal-height
        neighbour, any other cell starts a recursion with previousHeight one
        above its height, after which a one-step pass stops. Every step
        keeps the invariant and every flag, and either resolves an untouched
        cell or classifies the picked cell without touching any other, so
        the pass ends; the full pass leaves every cell classified. */
    method BuildDownContinentalDivide(oneStep: bool)
      requires Valid()
      modifies cells
      ensures Valid()
      ensures forall j :: 0 <= j < cells.Length ==> cells[j].height == old(cells[j].height)
      ensures oneStep ==> Grows(old(cells[..]), cells[..])
      ensures !oneStep ==> forall j :: 0 <= j < cells.Length ==> Classified(cells[j])
      ensures !oneStep ==> forall j :: 0 <= j < cells.Length && OnPerimeter(boardSize, j % boardSize, j / boardSize) ==>
        cells[j].flowsNW || cells[j].flowsSE
    {
      if !oneStep {
        ClearContinentalDivide();
      }
      ghost var start := cells[..];
      while true
        invariant Valid() && Grows(start, cells[..])
        invariant !oneStep ==> NoEdgeBasin(boardSize, cells[..])
        decreases UntouchedSet(cells[..]), UnclassifiedSet(cells[..])
      {
        var maxUnprocessedX, maxUnprocessedY, foundMaxHeight := FindHighestUnsettled();
        if maxUnprocessedX == -1 {
          if !oneStep {
            EdgesDrain(boardSize, cells[..]);
          }
          break;
        }
        ghost var before := cells[..];
        var tempCell := GetMap(maxUnprocessedX, maxUnprocessedY).value;
        if tempCell.dependency && tempCell.basin {
          ResolveDependency(maxUnprocessedX, maxUnprocessedY);
          TieStep(before, boardSize, maxUnprocessedX, maxUnprocessedY);
          EdgeBasinsAfterTie(before, boardSize, maxUnprocessedX, maxUnprocessedY);
          continue;
        }
        var _ := BuildDownContinentalDivideRecursively(maxUnprocessedX, maxUnprocessedY, foundMaxHeight + 1);
        DownSeedStep(before, boardSize, maxUnprocessedX, maxUnprocessedY, foundMaxHeight + 1);
        EdgeBasinsAfterWalk(before, boardSize, maxUnprocessedX, maxUnprocessedY, foundMaxHeight + 1);
        if oneStep {
          break;
        }
      }
    }

    /** The scan for the next cell to resolve: the first, in row-major
        order, of the unclassified cells of greatest height, or -1 for all
        three results when no unclassified cell is higher than -1. */
    method FindHighestUnsettled() returns (maxX: int, maxY: int, foundMaxHeight: int)
      requires Shaped()
      ensures maxX == -1 <==> forall j :: 0 <= j < cells.Length && !Classified(cells[j]) ==> cells[j].height <= -1
      ensures maxX == -1 ==> maxY == -1 && foundMaxHeight == -1
      ensures maxX != -1 ==> (InGrid(boardSize, maxX, maxY) && 0 <= Index(boardSize, maxX, maxY) < cells.Length &&
        !Classified(cells[Index(boardSize, maxX, maxY)]) && cells[Index(boardSize, maxX, maxY)].height == foundMaxHeight)
      ensures forall j :: 0 <= j < cells.Length && !Classified(cells[j]) ==> cells[j].height <= foundMaxHeight
      ensures maxX != -1 ==> (forall j :: 0 <= j < Index(boardSize, maxX, maxY) && !Classified(cells[j]) ==>
        cells[j].height < foundMaxHeight)
    {
      maxX, maxY, foundMaxHeight := -1, -1, -1;
      for y := 0 to boardSize
        invariant HighestAmong(cells[..], boardSize, boardSize * y, maxX, maxY, foundMaxHeight)
      {
        for x := 0 to boardSize
          invariant HighestAmong(cells[..], boardSize, boardSize * y + x, maxX, maxY, foundMaxHeight)
        {
          var cell := GetMap(x, y).value;
          if !(cell.flowsNW || cell.flowsSE || (cell.basin && !cell.dependency)) && cell.height > foundMaxHeight {
            maxX := x;
            maxY := y;
            foundMaxHeight := cell.height;
          }
        }
        assert boardSize * y + boardSize == boardSize * (y + 1);
      }
    }

    /** The tie resolution of the dependent basin (x, y): its in-grid
        neighbours, left, up, down, right, are scanned and each one of its
        height hands it its flags, clears its dependency and makes it a
        basin exactly when it handed no flag. */
    method ResolveDependency(x: int, y: int)
      requires Shaped() && InGrid(boardSize, x, y)
      modifies cells
      ensures cells[..] == ResolveTie(old(cells[..]), boardSize, x, y)
    {
      IndexCoords(boardSize, x, y);
      var i := Index(boardSize, x, y);
      var neighs := NeighbourList(x, y);
      assert IndicesInto(cells[..], neighs) by {
        forall k | 0 <= k < |neighs| ensures 0 <= neighs[k] < cells.Length {
          assert neighs[k] in neighs;
        }
      }
      ghost var s0 := cells[..];
      for k := 0 to |neighs|
        invariant cells[..] == s0[i := ResolvedTie(s0[i], s0, neighs[..k])]
      {
        ResolvedTieStep(s0[i], s0, neighs, k);
        assert neighs[k] in neighs;
        var d := neighs[k];
        if cells[d].height == cells[i].height {
          cells[i] := CopyFlags(cells[i], cells[d]);
        }
      }
      assert neighs[..|neighs|] == neighs;
    }

    /** The list of the in-grid neighbours of (x, y) the tie resolution
        builds, left, up, down, right. */
    method NeighbourList(x: int, y: int) returns (neighs: seq<int>)
      requires Shaped() && InGrid(boardSize, x, y)
      ensures neighs == Neighbourhood(boardSize, x, y)
    {
      neighs := [];
      if x - 1 >= 0 {
        neighs := neighs + [Index(boardSize, x - 1, y)];
      }
      if y - 1 >= 0 {
        neighs := neighs + [Index(boardSize, x, y - 1)];
      }
      if y + 1 < boardSize {
        neighs := neighs + [Index(boardSize, x, y + 1)];
      }
      if x + 1 < boardSize {
        neighs := neighs + [Index(boardSize, x + 1, y)];
      }
    }

    /** One build-down recursion from (x, y), called with the height of the
        cell that visits it: a fresh sentinel off the grid; else, when the
        cell is no higher than previousHeight and not on the call stack, the
        cell is entered (marked, neighbours visited left, up, down, right,
        their results folded in, unmarked) and returned; else null. The board
        afterwards is DownWalk of the board before. */
    method BuildDownContinentalDivideRecursively(x: int, y: int, previousHeight: int) returns (r: CellRef)
      requires Shaped() && -1 <= x <= boardSize && -1 <= y <= boardSize
      modifies cells
      decreases Pending(cells[..]), 0
      ensures r == Outcome(old(cells[..]), boardSize, x, y, previousHeight)
      ensures cells[..] == DownWalk(old(cells[..]), boardSize, x, y, previousHeight)
    {
      if (x == -1 || y == -1) || (x == boardSize || y == boardSize) {
        var tempCell := NewCell(0).(height := -1);
        if x == -1 || y == -1 {
          tempCell := tempCell.(flowsNW := true);
        }
        if x == boardSize || y == boardSize {
          tempCell := tempCell.(flowsSE := true);
        }
        return Sentinel(tempCell);
      }
      var i := Index(boardSize, x, y);
      var workingCell := GetMap(x, y).value;
      if workingCell.height <= previousHeight && !workingCell.processing {
        cells[i] := cells[i].(processing := true, dependency := false);
        assert cells[..] == old(cells[..])[i := cells[i]];
        PushLowers(old(cells[..]), i, cells[i]);
        ghost var s1 := cells[..];
        var neighbors := VisitNeighbours(i, x, y, workingCell.height);
        ghost var s5 := cells[..];
        var basinCondition := FoldNeighbours(i, neighbors);
        ghost var a := (cells[..], basinCondition);
        cells[i] := cells[i].(processing := false, basin := basinCondition);
        DownWalkEntered(old(cells[..]), boardSize, x, y, previousHeight, s1, s5, neighbors, a);
        r := Ref(i);
      } else {
        r := Null;
      }
    }

    /** The visits of the neighbours left, up, down, right of (x, y) by the
        entered cell i of height h, and their results in that order. */
    method VisitNeighbours(i: int, x: int, y: int, h: int) returns (neighbors: seq<CellRef>)
      requires Shaped() && InGrid(boardSize, x, y) && 0 <= i < cells.Length
      modifies cells
      decreases Pending(cells[..]), 3
      ensures neighbors == Results(old(cells[..]), boardSize, i, x, y, h)
      ensures cells[..] == DownNeighbours(old(cells[..]), boardSize, i, x, y, h)
    {
      ghost var s1 := cells[..];
      var n1, n2, s2 := VisitTwo(i, x - 1, y, x, y - 1, h);
      ghost var s3 := cells[..];
      var n3, n4, s4 := VisitTwo(i, x, y + 1, x + 1, y, h);
      ghost var s5 := cells[..];
      neighbors := [n1, n2, n3, n4];
      NeighboursVisited(s1, s2, s3, s4, s5, boardSize, i, x, y, h, neighbors);
    }

    /** Two visits in a row by cell i of height h, of p and then q, and
        their results. */
    method VisitTwo(i: int, px: int, py: int, qx: int, qy: int, h: int) returns (rp: CellRef, rq: CellRef, ghost mid: seq<Cell>)
      requires Shaped() && 0 <= i < cells.Length
      requires -1 <= px <= boardSize && -1 <= py <= boardSize && -1 <= qx <= boardSize && -1 <= qy <= boardSize
      modifies cells
      decreases Pending(cells[..]), 2
      ensures mid == DownVisit(old(cells[..]), boardSize, i, px, py, h)
      ensures rp == VisitResult(old(cells[..]), boardSize, i, px, py, h)
      ensures rq == VisitResult(mid, boardSize, i, qx, qy, h)
      ensures cells[..] == DownVisit(mid, boardSize, i, qx, qy, h)
    {
      rp := VisitDown(i, px, py, h);
      mid := cells[..];
      rq := VisitDown(i, qx, qy, h);
    }

    /** The basin loop of an entered cell i over its neighbour results,
        each read through its reference in the current state: null and
        basin results are skipped, any other clears basinCondition and
        hands i its flags. */
    method FoldNeighbours(i: int, neighbors: seq<CellRef>) returns (basinCondition: bool)
      requires 0 <= i < cells.Length && forall k :: 0 <= k < |neighbors| ==> RefsInto(cells[..], neighbors[k])
      modifies cells
      ensures (cells[..], basinCondition) == Absorb(old(cells[..]), i, neighbors)
    {
      basinCondition := true;
      for k := 0 to |neighbors|
        invariant (cells[..], basinCondition) == Absorb(old(cells[..]), i, neighbors[..k])
      {
        var temp := neighbors[k];
        assert neighbors[..k + 1][..k] == neighbors[..k];
        if temp.Null? {
          continue;
        }
        var target := if temp.Sentinel? then temp.cell else cells[temp.index];
        if target.basin {
          continue;
        }
        basinCondition := false;
        cells[i] := cells[i].(flowsNW := cells[i].flowsNW || target.flowsNW, flowsSE := cells[i].flowsSE || target.flowsSE);
      }
      assert neighbors[..|neighbors|] == neighbors;
    }

    /** The dependency test and the recursive call of one build-down visit
        of (nx, ny) by cell i of the given height. */
    method VisitDown(i: int, nx: int, ny: int, height: int) returns (r: CellRef)
      requires Shaped() && 0 <= i < cells.Length && -1 <= nx <= boardSize && -1 <= ny <= boardSize
      modifies cells
      decreases Pending(cells[..]), 1
      ensures r == VisitResult(old(cells[..]), boardSize, i, nx, ny, height)
      ensures cells[..] == DownVisit(old(cells[..]), boardSize, i, nx, ny, height)
      ensures Pending(cells[..]) == Pending(old(cells[..]))
    {
      if nx >= 0 && nx < boardSize && ny >= 0 && ny < boardSize {
        var temp := GetMap(nx, ny).value;
        if temp.height == height && temp.processing {
          cells[i] := cells[i].(dependency := true);
        }
      }
      assert cells[..] == LevelMark(old(cells[..]), boardSize, i, nx, ny, height);
      r := BuildDownContinentalDivideRecursively(nx, ny, height);
    }

    /** The bounds check guarding each recursive call. */
    method VisitNeighbour(nx: int, ny: int, flowsNW: bool, flowsSE: bool, height: int)
      requires Shaped()
      modifies cells
      decreases Pending(cells[..]), 1
      ensures cells[..] == Visit(old(cells[..]), boardSize, nx, ny, flowsNW, flowsSE, height)
      ensures Pending(cells[..]) == Pending(old(cells[..]))
    {
      if nx >= 0 && nx < boardSize && ny >= 0 && ny < boardSize {
        BuildUpContinentalDivideRecursively(nx, ny, flowsNW, flowsSE, height);
      }
    }
  }
}
