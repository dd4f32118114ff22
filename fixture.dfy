/** The 5 x 5 preset terrain as a fixture: what a full build-up makes of
    the pit at (1, 1). */
module Fixture {
  import opened Cells
  import opened Grid
  import opened Ascents
  import opened BuildUpSpec
  import opened ContinentMaps

  /** The cells of the preset board, every flag false. */
  ghost function PresetCells(): (r: seq<Cell>)
    ensures |r| == 25
  {
    seq(25, j requires 0 <= j < 25 => NewCell(DEFAULT_MAP[j]))
  }

  /** The cells beside the pit (1, 1): above, left, right and below it. */
  lemma PitNeighbours(c: int)
    requires Adjacent(5, c, Index(5, 1, 1))
    ensures c == 1 || c == 5 || c == 7 || c == 11
  {
    CoordsIndex(5, c);
    var cx, cy := c % 5, c / 5;
    NeighbourhoodCases(5, cx, cy, Index(5, 1, 1));
  }

  /** The heights around the pit. */
  lemma PresetHeights()
    ensures Heights(PresetCells())[6] == 22
    ensures Heights(PresetCells())[1] == 50 && Heights(PresetCells())[5] == 50
    ensures Heights(PresetCells())[7] == 26 && Heights(PresetCells())[11] == 24
  {
    assert DEFAULT_MAP[6] == 22;
    assert DEFAULT_MAP[1] == 50;
    assert DEFAULT_MAP[5] == 50;
    assert DEFAULT_MAP[7] == 26;
    assert DEFAULT_MAP[11] == 24;
  }

  /** The four neighbours of the pit (1, 1), which has height 22, are all
      higher. */
  lemma PitWalls(c: int)
    requires Adjacent(5, c, Index(5, 1, 1))
    ensures 0 <= c < 25 && Heights(PresetCells())[c] > Heights(PresetCells())[Index(5, 1, 1)]
  {
    PitNeighbours(c);
    PresetHeights();
  }

  /** No non-decreasing path from another cell ends in the pit. */
  lemma {:induction false} NoAscentIntoPit(s: int)
    requires s != Index(5, 1, 1)
    ensures !Uphill(Heights(PresetCells()), 5, s, Index(5, 1, 1))
  {
    var hs := Heights(PresetCells());
    var pit := Index(5, 1, 1);
    forall p | IsAscent(hs, NoneBusy(25), 5, p) && p[0] == s
      ensures p[|p| - 1] != pit
    {
      if |p| > 1 && p[|p| - 1] == pit {
        var c := p[|p| - 2];
        assert Adjacent(5, c, p[|p| - 1]) && hs[c] <= hs[p[|p| - 1]];
        PitWalls(c);
      }
    }
  }

  /** A full build-up of the preset reaches the pit (1, 1) from no edge
      seed: it drains neither way and is painted as a sink. */
  lemma PresetPitIsSink()
    ensures Classify(BuiltUp(PresetCells(), 5)[Index(5, 1, 1)]) == Sink
  {
    var hs := Heights(PresetCells());
    forall sx, sy, nwSide: bool | InGrid(5, sx, sy) && OnEdge(5, sx, sy, nwSide)
      ensures !Uphill(hs, 5, Index(5, sx, sy), Index(5, 1, 1))
    {
      IndexCoords(5, sx, sy);
      NoAscentIntoPit(Index(5, sx, sy));
    }
    assert !ReachesEdge(hs, 5, Index(5, 1, 1), true);
    assert !ReachesEdge(hs, 5, Index(5, 1, 1), false);
  }
}
