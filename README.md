# Continental divide: a verified model of ContinentMap's drainage classifier

ContinentMap holds a square board of cells. Each cell has a height and the
flags `flowsNW`, `flowsSE`, `basin`, `processing` and `dependency`. Two
alternative propagators set the flags in place, and then every cell is
painted with one of four labels:
- its water drains north-west;
- it drains south-east;
- it drains both ways, so it lies on the divide;
- it drains nowhere, so it is a sink.

This project models that engine in Dafny. The propagators are modelled as
they are written, and their results are proved against independent
descriptions:

- **Board.** Class `ContinentMaps.ContinentMap` has a `boardSize` and an
  array of `Cell` records indexed `x + boardSize * y`. `GetMap` is the
  bounds-checked lookup. `ClearContinentalDivide` is the flag reset.
- **Build-up.** `BuildUpContinentalDivideRecursively` is the depth-first
  uphill flood. It is proved to compute `UpWalk`, the recursion written as a
  function. Lemma `UpWalkIsFlood` shows that `UpWalk` is `Flood`: the flood
  wets exactly the cells that a non-decreasing four-neighbour path from the
  seed reaches without crossing a cell on the call stack.
- **Full build-up.** `BuildUpContinentalDivide` scans the edge seeds, x
  outer and y inner. Lemma `SeededAll` shows the result is `BuiltUp`: a cell
  is flagged NW (SE) exactly when some cell on the top or left (bottom or
  right) edge reaches it uphill.
- **Build-down.** `BuildDownContinentalDivideRecursively` returns
  `Null | Sentinel(cell) | Ref(index)`, and the caller reads the referenced
  cells only after all four recursive calls, as the Java code does. It is
  proved to compute `DownWalk`. `DownAccepted` states what an accepted cell
  ends up with: basin, both flags and dependency, each as an if-and-only-if.
  `DownWalkEffect` states that no height or stack mark changes, that no
  flag is cleared, and that every cell the recursion changes is left
  settled.
- **Build-down outer loop.** `BuildDownContinentalDivide` is proved to
  terminate. Each recursion turns one untouched cell into a resolved one,
  and no step unresolves a cell. Each tie step classifies its cell and
  touches no other. When the full pass ends, every cell is classified, and
  every cell on the edge of the grid drains NW or SE: no step makes an edge
  cell a basin.

The Java field `map` is named `cells` here, because `map` is a Dafny
keyword. The pure model functions live in modules `BuildUpSpec` and
`BuildDownSpec`. Module `Ascents` holds the theory of non-decreasing paths.
Modules `Grid` and `Cells` hold the coordinates and the cell record.
Module `Fixture` holds the preset 5 x 5 terrain.

The model follows the code. In five places the code does something other
than what one would read into it:

- `clearContinentalDivide` does not reset `dependency`.
- A build-down cell that finds an equal-height neighbour on the call stack
  still recurses into that neighbour. The call returns null there.
- The tie resolution copies the flags of every equal-height neighbour in
  turn, so the last one in the order left, up, down, right wins. It does
  not check whether that neighbour is classified yet.
- On the preset terrain, a full build-up gives the pit (1, 1), of height
  22, no flag at all, so it is painted as a sink (`Fixture.PresetPitIsSink`).
  All four of its neighbours are higher, and the pit is not on the edge.
- After a full build-down, `dependency` can stay true on a cell that drains
  somewhere. It is cleared only when the recursion enters a cell and by the
  tie step, and the cell's flags, not its dependency, decide whether the
  outer loop picks it again.

## Model

All source paths are under `app/src/main/java/com/google/engedu/continentaldivide/`.

| member | source | states |
|---|---|---|
| Cells.Classify | app/src/main/java/com/google/engedu/continentaldivide/ContinentMap.java:118-138 | the label shows the NW flag exactly when it is Divide or DrainsNW, and the SE flag exactly when it is Divide or DrainsSE |
| Cells.NewCell | app/src/main/java/com/google/engedu/continentaldivide/ContinentMap.java:77-86 | a new cell has the given height, is untouched, off the stack and not dependent, and is painted as a sink |
| Cells.Cleared | app/src/main/java/com/google/engedu/continentaldivide/ContinentMap.java:95-101 | a reset cell keeps its height and dependency, is untouched and off the stack, and is painted as a sink |
| Cells.Wet | app/src/main/java/com/google/engedu/continentaldivide/ContinentMap.java:175-179 | a wetted cell keeps its height, basin, stack mark and dependency, gains every seed flag it is given and loses none; with no seed flag it is unchanged, with both it is on the divide |
| Cells.UnclassifiedIsSink | app/src/main/java/com/google/engedu/continentaldivide/ContinentMap.java:203 | an untouched cell is not classified, and a cell the loop may still pick is painted as a sink |
| Grid.IndexCoords | app/src/main/java/com/google/engedu/continentaldivide/ContinentMap.java:88-90 | an in-grid coordinate has an index in [0, n*n), and the index gives the coordinate back |
| Grid.CoordsIndex | app/src/main/java/com/google/engedu/continentaldivide/ContinentMap.java:88-90 | every index i in [0, n*n) is the index of the in-grid coordinate (i % n, i / n); that no other coordinate has it follows from IndexCoords |
| Grid.NeighbourhoodMembers | app/src/main/java/com/google/engedu/continentaldivide/ContinentMap.java:180-187 | the neighbours visited, left, up, down, right, guarded by the bounds tests, are exactly the in-grid cells at Manhattan distance one |
| Grid.Neighbourhood | app/src/main/java/com/google/engedu/continentaldivide/ContinentMap.java:180-187 | at most four neighbours, each an index on the board other than the cell's own |
| ContinentMaps.ContinentMap.constructor | app/src/main/java/com/google/engedu/continentaldivide/ContinentMap.java:59-63 | a board of the given side holds the given heights, row by row, with every flag false, and satisfies the board invariant |
| ContinentMaps.ContinentMap.Default | app/src/main/java/com/google/engedu/continentaldivide/ContinentMap.java:40-63 | the view's board is 5 x 5 and holds DEFAULT_MAP with every flag false |
| ContinentMaps.DefaultMapShape | app/src/main/java/com/google/engedu/continentaldivide/ContinentMap.java:40-46 | the preset DEFAULT_MAP has 25 heights, each in [0, MAX_HEIGHT] |
| ContinentMaps.ContinentMap.GetMap | app/src/main/java/com/google/engedu/continentaldivide/ContinentMap.java:88-93 | a cell is returned exactly when 0 <= x, y < boardSize, and it is the one at index x + boardSize*y, which is in range; otherwise nothing |
| ContinentMaps.ContinentMap.ClearContinentalDivide | app/src/main/java/com/google/engedu/continentaldivide/ContinentMap.java:95-101 | every cell loses flowsNW, flowsSE, basin and processing and keeps its height and dependency; the board invariant is kept |
| ContinentMaps.ContinentMap.BuildUpContinentalDivide | app/src/main/java/com/google/engedu/continentaldivide/ContinentMap.java:148-169 | the full pass leaves BuiltUp of the board; the one-step pass floods only from (0, 0), with NW, and SE too on a one-cell board, into the uncleared board; the invariant is kept |
| ContinentMaps.ContinentMap.FloodFromEdge | app/src/main/java/com/google/engedu/continentaldivide/ContinentMap.java:155-158 | a flood from an edge cell, with the flags of its edges and previousHeight -1, moves the seed scan one position on |
| ContinentMaps.ContinentMap.BuildUpContinentalDivideRecursively | app/src/main/java/com/google/engedu/continentaldivide/ContinentMap.java:171-190 | the board afterwards is UpWalk of the board before |
| ContinentMaps.ContinentMap.FloodNeighbours | app/src/main/java/com/google/engedu/continentaldivide/ContinentMap.java:180-187 | the four guarded calls, left, up, down, right, leave UpNeighbours of the board before |
| ContinentMaps.ContinentMap.VisitNeighbour | app/src/main/java/com/google/engedu/continentaldivide/ContinentMap.java:180-187 | a guarded recursive call: an in-grid neighbour is flooded, an off-grid one is left alone, and the number of pending cells is unchanged |
| BuildUpSpec.UpWalk | app/src/main/java/com/google/engedu/continentaldivide/ContinentMap.java:171-190 | the recursion leaves every processing flag as it found it |
| BuildUpSpec.UpWalkEntered | app/src/main/java/com/google/engedu/continentaldivide/ContinentMap.java:174-189 | marking and wetting the cell, the four visits, then unmarking, is UpWalk of the board before |
| BuildUpSpec.UpEnter | app/src/main/java/com/google/engedu/continentaldivide/ContinentMap.java:174-189 | an entered cell's recursion leaves every processing flag as it found it and the number of pending cells unchanged |
| BuildUpSpec.UpNeighbours | app/src/main/java/com/google/engedu/continentaldivide/ContinentMap.java:180-187 | the four neighbour calls leave every processing flag as they found it |
| BuildUpSpec.Visit | app/src/main/java/com/google/engedu/continentaldivide/ContinentMap.java:180-187 | one guarded neighbour call leaves every processing flag as it found it |
| BuildUpSpec.UpWalkIsFlood | app/src/main/java/com/google/engedu/continentaldivide/ContinentMap.java:171-190 | a recursion from (x, y) wets exactly the cells of FloodSet with the seed flags and changes nothing else |
| BuildUpSpec.UpWalkFloods | app/src/main/java/com/google/engedu/continentaldivide/ContinentMap.java:171-190 | the recursion's effect is a flood of exactly FloodSet, by induction over the call tree |
| BuildUpSpec.EnteredSet | app/src/main/java/com/google/engedu/continentaldivide/ContinentMap.java:180-187 | the cells the four nested floods wet are exactly the FloodSet of the entered cell without the cell itself |
| BuildUpSpec.UpClosure | app/src/main/java/com/google/engedu/continentaldivide/ContinentMap.java:180-187 | the set an entered flood wets is closed under uphill steps to cells not on the stack |
| BuildUpSpec.FloodSetShape | app/src/main/java/com/google/engedu/continentaldivide/ContinentMap.java:174-187 | the start is wetted iff its height >= previousHeight and it is not on the stack; otherwise nothing is; every wetted cell lies on a non-decreasing path from the start (soundness), and the set is closed under uphill steps (completeness) |
| BuildUpSpec.FloodWets | app/src/main/java/com/google/engedu/continentaldivide/ContinentMap.java:175-179 | a flood only ORs the seed flags into the cells it wets, and keeps every height and processing flag |
| BuildUpSpec.FloodRefused | app/src/main/java/com/google/engedu/continentaldivide/ContinentMap.java:174 | a call refused at its first cell changes nothing |
| BuildUpSpec.TopSeed | app/src/main/java/com/google/engedu/continentaldivide/ContinentMap.java:157-158 | the flood of an edge seed, on a board with nothing on the stack, adds exactly that seed's uphill reach to the scan |
| BuildUpSpec.SeedStep | app/src/main/java/com/google/engedu/continentaldivide/ContinentMap.java:155-158 | a flood over exactly the seed's uphill reach moves the scan from (x, y) to (x, y+1) |
| BuildUpSpec.SkipStep | app/src/main/java/com/google/engedu/continentaldivide/ContinentMap.java:153-155 | a position that is not on the edge seeds nothing |
| BuildUpSpec.ColumnStep | app/src/main/java/com/google/engedu/continentaldivide/ContinentMap.java:152-153 | the end of one column of the scan is the start of the next |
| BuildUpSpec.SeededNone | app/src/main/java/com/google/engedu/continentaldivide/ContinentMap.java:151-153 | before the first seed the board is as the scan found it |
| BuildUpSpec.SeededAll | app/src/main/java/com/google/engedu/continentaldivide/ContinentMap.java:148-167 | the scan over every edge seed of a cleared board is BuiltUp: NW exactly where a top or left cell reaches uphill, SE exactly where a bottom or right one does |
| BuildUpSpec.FirstSeedOnly | app/src/main/java/com/google/engedu/continentaldivide/ContinentMap.java:159-166 | in one-step mode only the seed (0, 0) floods: cells it reaches uphill gain NW, and SE only when the board is one cell; the rest are unchanged |
| BuildUpSpec.EdgesCovered | app/src/main/java/com/google/engedu/continentaldivide/ContinentMap.java:155-158 | after a full build-up every top or left cell drains NW, every bottom or right cell drains SE, and the corners (n-1, 0) and (0, n-1) are on the divide |
| ContinentMaps.ContinentMap.BuildDownContinentalDivide | app/src/main/java/com/google/engedu/continentaldivide/ContinentMap.java:192-255 | the pass terminates and keeps the invariant and every height; the one-step pass clears no flag; after the full pass every cell has flowsNW, flowsSE, or basin without dependency, and every cell on the edge of the grid has flowsNW or flowsSE |
| ContinentMaps.ContinentMap.FindHighestUnsettled | app/src/main/java/com/google/engedu/continentaldivide/ContinentMap.java:198-210 | no cell is found iff no unclassified cell is higher than -1, and then all three results are -1; otherwise the cell found is unclassified, has the greatest height among the unclassified cells and is the first such cell in y-outer, x-inner order |
| ContinentMaps.ContinentMap.ResolveDependency | app/src/main/java/com/google/engedu/continentaldivide/ContinentMap.java:216-244 | the board afterwards is ResolveTie of the board before |
| ContinentMaps.ContinentMap.NeighbourList | app/src/main/java/com/google/engedu/continentaldivide/ContinentMap.java:216-232 | the list built is the in-grid neighbourhood, left, up, down, right |
| ContinentMaps.ContinentMap.BuildDownContinentalDivideRecursively | app/src/main/java/com/google/engedu/continentaldivide/ContinentMap.java:257-324 | the result is Outcome of the board before, and the board afterwards is DownWalk of it |
| ContinentMaps.ContinentMap.VisitNeighbours | app/src/main/java/com/google/engedu/continentaldivide/ContinentMap.java:275-306 | the four visits produce DownNeighbours and return Results, in the order left, up, down, right |
| ContinentMaps.ContinentMap.VisitTwo | app/src/main/java/com/google/engedu/continentaldivide/ContinentMap.java:275-290 | two visits in a row, and their results, are DownVisit and VisitResult applied one after the other |
| ContinentMaps.ContinentMap.VisitDown | app/src/main/java/com/google/engedu/continentaldivide/ContinentMap.java:275-281 | the dependency test and the recursive call are DownVisit and VisitResult, and the number of pending cells is unchanged |
| ContinentMaps.ContinentMap.FoldNeighbours | app/src/main/java/com/google/engedu/continentaldivide/ContinentMap.java:307-317 | the board and basinCondition afterwards are Absorb of the board and the results |
| BuildDownSpec.Outcome | app/src/main/java/com/google/engedu/continentaldivide/ContinentMap.java:257-268 | a sentinel exactly off the grid, with height -1, NW iff x or y is -1, SE iff x or y is boardSize, and no basin; in the grid, null exactly when the cell is higher than previousHeight or on the stack, and otherwise a reference to it |
| BuildDownSpec.SentinelCell | app/src/main/java/com/google/engedu/continentaldivide/ContinentMap.java:258-265 | the sentinel is lower than every cell, never a basin, off the stack and not dependent, and drains NW or SE wherever it stands off the grid |
| BuildDownSpec.OffGrid | app/src/main/java/com/google/engedu/continentaldivide/ContinentMap.java:258 | within one step of the grid, a position is off the grid exactly when it is not in the grid |
| BuildDownSpec.LevelMark | app/src/main/java/com/google/engedu/continentaldivide/ContinentMap.java:276-279 | the dependency test keeps every height and stack mark |
| BuildDownSpec.VisitResult | app/src/main/java/com/google/engedu/continentaldivide/ContinentMap.java:281 | a neighbour call's result refers, if anywhere, into the board |
| BuildDownSpec.Absorb | app/src/main/java/com/google/engedu/continentaldivide/ContinentMap.java:307-317 | the basin loop changes no cell but i, and only i's two drainage flags |
| BuildDownSpec.AbsorbClosed | app/src/main/java/com/google/engedu/continentaldivide/ContinentMap.java:307-317 | basinCondition holds iff every result is null or a basin; i gains NW (SE) iff some result that is neither has it |
| BuildDownSpec.DownWalk | app/src/main/java/com/google/engedu/continentaldivide/ContinentMap.java:257-324 | the recursion changes no height and leaves every processing flag as it found it |
| BuildDownSpec.DownWalkEntered | app/src/main/java/com/google/engedu/continentaldivide/ContinentMap.java:268-321 | marking the cell, the four visits, the basin loop and unmarking, state by state, are DownWalk |
| BuildDownSpec.DownEnter | app/src/main/java/com/google/engedu/continentaldivide/ContinentMap.java:268-321 | an entered cell's recursion changes no height and leaves every processing flag as it found it |
| BuildDownSpec.DownNeighbours | app/src/main/java/com/google/engedu/continentaldivide/ContinentMap.java:275-306 | the four visits change no height and leave every processing flag as they found it |
| BuildDownSpec.Results | app/src/main/java/com/google/engedu/continentaldivide/ContinentMap.java:271-306 | there are four neighbour results, each referring, if anywhere, into the board |
| BuildDownSpec.DownVisit | app/src/main/java/com/google/engedu/continentaldivide/ContinentMap.java:275-282 | one visit changes no height and leaves every processing flag as it found it |
| BuildDownSpec.NeighboursVisited | app/src/main/java/com/google/engedu/continentaldivide/ContinentMap.java:275-306 | four visits in a row are DownNeighbours, and their results are Results |
| BuildDownSpec.DownWalkEffect | app/src/main/java/com/google/engedu/continentaldivide/ContinentMap.java:257-324 | no height or stack mark changes and no flag is cleared; every changed cell was off the stack and is left settled: a non-basin drains somewhere, an edge cell is no basin, and a dependent cell has a neighbour of its height; the entered cell is settled |
| BuildDownSpec.DownEnterEffect | app/src/main/java/com/google/engedu/continentaldivide/ContinentMap.java:268-321 | an entered recursion has that effect and leaves its cell settled |
| BuildDownSpec.EnteredSettled | app/src/main/java/com/google/engedu/continentaldivide/ContinentMap.java:307-321 | from what the visits and the basin loop did, the cell stored with basinCondition is settled and no other cell breaks the effect |
| BuildDownSpec.DownNeighboursEffect | app/src/main/java/com/google/engedu/continentaldivide/ContinentMap.java:275-306 | during the four visits the entered cell only gains dependency iff a neighbour of its height is on the stack; the results are the ones the calls would return on entry; each cell they refer to is another cell, left settled |
| BuildDownSpec.FourVisits | app/src/main/java/com/google/engedu/continentaldivide/ContinentMap.java:275-306 | the same for any four visits in a row |
| BuildDownSpec.TwoVisits | app/src/main/java/com/google/engedu/continentaldivide/ContinentMap.java:275-290 | the same for two visits in a row |
| BuildDownSpec.DownVisitEffect | app/src/main/java/com/google/engedu/continentaldivide/ContinentMap.java:275-281 | one visit: the dependency test marks the visitor iff the in-grid neighbour has its height and is on the stack; the call returns what it would on entry and leaves the cell it entered settled |
| BuildDownSpec.LevelWitness | app/src/main/java/com/google/engedu/continentaldivide/ContinentMap.java:276-279 | a dependency mark names an in-grid neighbour of the cell's own height |
| BuildDownSpec.LevelStable | app/src/main/java/com/google/engedu/continentaldivide/ContinentMap.java:258-268 | the dependency test and a call's result depend only on heights and stack marks |
| BuildDownSpec.DownAccepted | app/src/main/java/com/google/engedu/continentaldivide/ContinentMap.java:268-321 | an accepted cell keeps its height and leaves the stack; it is a basin iff every neighbour result is null or a basin in the final state; it has NW (SE) iff it had it or a non-basin result has it; it is dependent iff a neighbour of its height was on the stack on entry |
| BuildDownSpec.LastLevel | app/src/main/java/com/google/engedu/continentaldivide/ContinentMap.java:233-243 | the last neighbour in the list with the cell's height, or none exactly when no neighbour has it |
| BuildDownSpec.CopyFlags | app/src/main/java/com/google/engedu/continentaldivide/ContinentMap.java:234-241 | a cell that takes over a neighbour's flags keeps its height and stack mark, loses its dependency, is painted as that neighbour is, and is classified and no longer untouched |
| BuildDownSpec.ResolvedTie | app/src/main/java/com/google/engedu/continentaldivide/ContinentMap.java:233-243 | the tie resolution of one cell keeps its height and stack mark |
| BuildDownSpec.TieTakesLast | app/src/main/java/com/google/engedu/continentaldivide/ContinentMap.java:233-243 | with no neighbour of equal height the cell is unchanged; otherwise it has taken over the flags of the last equal-height neighbour in the list, as CopyFlags states |
| BuildDownSpec.ResolveTie | app/src/main/java/com/google/engedu/continentaldivide/ContinentMap.java:216-243 | the tie step changes only the picked cell, and keeps its height and stack mark |
| BuildDownSpec.ResolvedTieStep | app/src/main/java/com/google/engedu/continentaldivide/ContinentMap.java:233-243 | one more neighbour of equal height overwrites the flags copied so far; another leaves them |
| BuildDownSpec.TieSettles | app/src/main/java/com/google/engedu/continentaldivide/ContinentMap.java:234-241 | a dependent basin with an equal-height neighbour ends classified and no longer untouched, with height and stack mark kept |
| BuildDownSpec.DownSeedStep | app/src/main/java/com/google/engedu/continentaldivide/ContinentMap.java:246 | a recursion from an untouched cell of height <= previousHeight keeps the invariant and every height and flag, and leaves strictly fewer untouched cells |
| BuildDownSpec.TieStep | app/src/main/java/com/google/engedu/continentaldivide/ContinentMap.java:215-245 | a tie step on a dependent unclassified basin keeps the invariant and every height and flag; the untouched cells are the same and strictly fewer are unclassified |
| BuildDownSpec.Replace | app/src/main/java/com/google/engedu/continentaldivide/ContinentMap.java:234-242 | replacing one cell by one of the same height that clears no flag changes the untouched and unclassified sets at that cell only |
| BuildDownSpec.EdgeBasinsAfterWalk | app/src/main/java/com/google/engedu/continentaldivide/ContinentMap.java:307-320 | a recursion makes no edge cell a basin: the sentinel beside an edge cell always drains |
| BuildDownSpec.EdgeBasinsAfterTie | app/src/main/java/com/google/engedu/continentaldivide/ContinentMap.java:215-243 | a tie step makes no edge cell a basin, since it changes only a basin, which lies off the edge |
| BuildDownSpec.EdgesDrain | app/src/main/java/com/google/engedu/continentaldivide/ContinentMap.java:196-252 | once every cell is classified and no edge cell is a basin, every edge cell drains NW or SE |
| Fixture.PitNeighbours | app/src/main/java/com/google/engedu/continentaldivide/ContinentMap.java:180-187 | every cell beside (1, 1) on the 5 x 5 board is one of the indices 1, 5, 7 and 11 |
| Fixture.PresetHeights | app/src/main/java/com/google/engedu/continentaldivide/ContinentMap.java:40-46 | the preset gives (1, 1) height 22 and its neighbours heights 50, 50, 26 and 24 |
| Fixture.PitWalls | app/src/main/java/com/google/engedu/continentaldivide/ContinentMap.java:40-46 | every neighbour of (1, 1) in the preset is higher than its 22 |
| Fixture.NoAscentIntoPit | app/src/main/java/com/google/engedu/continentaldivide/ContinentMap.java:40-46 | no non-decreasing path from another cell of the preset ends at (1, 1) |
| Fixture.PresetPitIsSink | app/src/main/java/com/google/engedu/continentaldivide/ContinentMap.java:148-169 | a full build-up of the preset leaves (1, 1) with no flag, painted as a sink |

## Left out

- The Android view is not modelled: `onMeasure`, `invalidate`, the constructor's `super(context)` and `new Paint()`, `Log` calls and the `rotated` flag. These are UI and I/O.
- The painting in `onDraw` is not modelled: HSV colour arithmetic on floats, canvas rotation and `drawRect`. Only the four-way branch order is kept, as `Classify`. The `basin = false` that the painter stores is not modelled.
- `generateTerrain` is not modelled. It uses `Random` and `Math.pow`. The constructor takes the heights as a parameter instead.
- The constructor's `Math.sqrt` is not modelled: it computes `boardSize` from the 25 preset heights, and `Default` fixes the side at 5 instead. `Collections.max`/`min` are not modelled; they feed only the colour scale of the painter.
- Unused state is left out: `previousCell`, `dependencyX`/`DependencyY` and the counter `ctr`.
- The recursion depth is not bounded, so a stack overflow on a large plateau is not modelled.
- `GetMap` returns `None` where the Java returns `null`. Every caller in the core uses it only on in-grid coordinates.
- `VisitNeighbour` tests the full bounds `0 <= nx, ny < boardSize`, where the Java tests only the side that could leave the grid. Both tests agree because the caller is in the grid.
- The recursions are factored into helper methods, with the same statements in the same order: `FloodNeighbours` and `VisitNeighbour` for build-up, and `VisitNeighbours`, `VisitTwo`, `VisitDown` and `FoldNeighbours` for build-down.
- The neighbour results are `CellRef` values. A result in the grid is its index, read in the current board state, where the Java holds the object.
- The basin loop sets both flags with one record update per result, where the Java makes two conditional assignments. The effect is the same.
- `ResolveDependency` keeps its list of neighbours as indices, not objects.
- BuildDownContinentalDivide: in one-step mode the contract states only that heights are kept and no flag is cleared, not which cell the single recursion resolved. Before that recursion the loop may make any number of tie steps, so the final state has no closed form short of replaying the loop. Each iteration's choice of cell is stated by `FindHighestUnsettled`, and what the recursion does to an untouched seed by `DownSeedStep`.
- The Java outer build-down loop is an unconditional `while (true)`. The model adds a termination measure, the number of untouched cells and then the number of unclassified cells, and proves it decreases.
