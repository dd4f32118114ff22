/** The cells of the height-field grid and the per-cell flags that the two
    propagators of ContinentMap mutate. */
module Cells {

  /** The bound MAX_HEIGHT: every height on the board lies in [0, MAX_HEIGHT]. */
  const MAX_HEIGHT := 100

  datatype Option<T> = None | Some(value: T)

  /** One grid position: its height and the classification flags. */
  datatype Cell = Cell(height: int, flowsNW: bool, flowsSE: bool, basin: bool,
                       processing: bool, dependency: bool)

  /** A cell as `new Cell()` creates it, given its height. */
  function NewCell(height: int): (r: Cell)
    ensures r.height == height && Untouched(r) && !r.processing && !r.dependency
    ensures Classify(r) == Sink
  {
    Cell(height, false, false, false, false, false)
  }

  /** What the build-down recursion hands back to its caller: nothing, a
      freshly made out-of-grid sentinel, or a reference to a grid cell, which
      the caller reads only later, after all its recursive calls. */
  datatype CellRef = Null | Sentinel(cell: Cell) | Ref(index: int)

  /** The four-way classification painted for each cell. */
  datatype Label = Divide | DrainsNW | DrainsSE | Sink

  /** The branch order of the painter: both flags, NW only, SE only, neither. */
  function Classify(c: Cell): (l: Label)
    ensures (l == Divide || l == DrainsNW) <==> c.flowsNW
    ensures (l == Divide || l == DrainsSE) <==> c.flowsSE
  {
    if c.flowsNW && c.flowsSE then Divide
    else if c.flowsNW then DrainsNW
    else if c.flowsSE then DrainsSE
    else Sink
  }

  /** A cell with its flags reset by clearContinentalDivide. */
  function Cleared(c: Cell): (r: Cell)
    ensures r.height == c.height && r.dependency == c.dependency
    ensures Untouched(r) && !r.processing && Classify(r) == Sink
  {
    c.(flowsNW := false, flowsSE := false, basin := false, processing := false)
  }

  /** A cell reached by a build-up flood carrying the given seed flags. */
  function Wet(c: Cell, nw: bool, se: bool): (r: Cell)
    ensures r.height == c.height && r.basin == c.basin && r.processing == c.processing && r.dependency == c.dependency
    ensures (c.flowsNW || nw ==> r.flowsNW) && (c.flowsSE || se ==> r.flowsSE)
    ensures !nw && !se ==> r == c
    ensures nw && se ==> Classify(r) == Divide
  {
    c.(flowsNW := c.flowsNW || nw, flowsSE := c.flowsSE || se)
  }

  /** The condition under which the build-down loop leaves a cell alone. */
  predicate Classified(c: Cell)
  {
    c.flowsNW || c.flowsSE || (c.basin && !c.dependency)
  }

  /** A cell that no build-down pass has resolved yet. */
  predicate Untouched(c: Cell)
  {
    !c.flowsNW && !c.flowsSE && !c.basin
  }

  /** An untouched cell is one the build-down loop may still pick, and a
      cell it may still pick is painted as a sink. */
  lemma UnclassifiedIsSink(c: Cell)
    ensures Untouched(c) ==> !Classified(c)
    ensures !Classified(c) ==> Classify(c) == Sink
  {
  }

  ghost function Heights(cells: seq<Cell>): (hs: seq<int>)
    ensures |hs| == |cells|
    ensures forall j :: 0 <= j < |cells| ==> hs[j] == cells[j].height
  {
    seq(|cells|, j requires 0 <= j < |cells| => cells[j].height)
  }

  /** Which cells are on the current call stack. */
  ghost function Busy(cells: seq<Cell>): (b: seq<bool>)
    ensures |b| == |cells|
    ensures forall j :: 0 <= j < |cells| ==> b[j] == cells[j].processing
  {
    seq(|cells|, j requires 0 <= j < |cells| => cells[j].processing)
  }

  /** The cells not on the call stack. */
  ghost function Idle(cells: seq<Cell>): set<int>
  {
    set j | 0 <= j < |cells| && !cells[j].processing
  }

  /** The number of cells not on the call stack: what every recursion
      started from a cell that is not on the stack makes smaller. */
  ghost function Pending(cells: seq<Cell>): nat
  {
    |Idle(cells)|
  }

  /** Same stack, same number of pending cells. */
  lemma SameStack(a: seq<Cell>, b: seq<Cell>)
    requires |a| == |b|
    requires forall j :: 0 <= j < |a| ==> a[j].processing == b[j].processing
    ensures Pending(a) == Pending(b)
  {
    assert Idle(a) == Idle(b);
  }

  /** Putting a cell on the call stack leaves fewer pending. */
  lemma PushLowers(cells: seq<Cell>, i: int, c: Cell)
    requires 0 <= i < |cells| && !cells[i].processing && c.processing
    ensures Pending(cells[i := c]) < Pending(cells)
  {
    assert Idle(cells[i := c]) == Idle(cells) - {i};
    assert i in Idle(cells);
  }
}
