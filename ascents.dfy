/** Non-decreasing four-neighbour paths over a height field: what a
    build-up flood from one seed can reach. `busy` marks the cells on the
    call stack when the flood starts; a flood never enters them. */
module Ascents {
  import opened Grid

  /** p walks from neighbour to neighbour, never downhill, through in-grid
      cells that are not busy. */
  ghost predicate IsAscent(hs: seq<int>, busy: seq<bool>, n: int, p: seq<int>)
  {
    |p| >= 1 && |busy| == |hs| &&
    (forall k :: 0 <= k < |p| ==> 0 <= p[k] < |hs| && !busy[p[k]]) &&
    (forall k :: 0 <= k < |p| - 1 ==> Adjacent(n, p[k], p[k + 1]) && hs[p[k]] <= hs[p[k + 1]])
  }

  /** Some ascent leads from s to t. */
  ghost predicate Reachable(hs: seq<int>, busy: seq<bool>, n: int, s: int, t: int)
  {
    exists p :: IsAscent(hs, busy, n, p) && p[0] == s && p[|p| - 1] == t
  }

  /** E is closed under one uphill step to a cell that is not busy. */
  ghost predicate Closed(hs: seq<int>, busy: seq<bool>, n: int, E: set<int>)
  {
    |busy| == |hs| &&
    forall c, d :: c in E && Adjacent(n, c, d) && 0 <= c < |hs| && 0 <= d < |hs| && hs[c] <= hs[d] ==>
      d in E || busy[d]
  }

  /** A cell that is not busy reaches itself. */
  lemma ReachSelf(hs: seq<int>, busy: seq<bool>, n: int, s: int)
    requires |busy| == |hs| && 0 <= s < |hs| && !busy[s]
    ensures Reachable(hs, busy, n, s, s)
  {
    assert IsAscent(hs, busy, n, [s]);
  }

  /** The end of an ascent is in range and not busy. */
  lemma ReachableEnd(hs: seq<int>, busy: seq<bool>, n: int, s: int, t: int)
    requires Reachable(hs, busy, n, s, t)
    ensures 0 <= s < |hs| && 0 <= t < |hs| && |busy| == |hs| && !busy[s] && !busy[t]
  {
    var p :| IsAscent(hs, busy, n, p) && p[0] == s && p[|p| - 1] == t;
    assert p[|p| - 1] == t;
  }

  /** One uphill step from a cell s that is not busy, followed by an ascent
      that avoided s as well, is an ascent from s. This is how a nested
      flood's reach, computed while s is on the stack, becomes the reach of
      the flood that entered s. */
  lemma ReachExtend(hs: seq<int>, busy: seq<bool>, n: int, s: int, nb: int, t: int)
    requires |busy| == |hs| && 0 <= s < |hs| && !busy[s]
    requires Adjacent(n, s, nb) && 0 <= nb < |hs| && hs[s] <= hs[nb]
    requires Reachable(hs, busy[s := true], n, nb, t)
    ensures Reachable(hs, busy, n, s, t)
  {
    var p :| IsAscent(hs, busy[s := true], n, p) && p[0] == nb && p[|p| - 1] == t;
    var q := [s] + p;
    forall k | 0 <= k < |q| ensures 0 <= q[k] < |hs| && !busy[q[k]] {
      if k > 0 {
        assert q[k] == p[k - 1];
      }
    }
    forall k | 0 <= k < |q| - 1 ensures Adjacent(n, q[k], q[k + 1]) && hs[q[k]] <= hs[q[k + 1]] {
      if k > 0 {
        assert q[k] == p[k - 1] && q[k + 1] == p[k];
      }
    }
    assert IsAscent(hs, busy, n, q);
  }

  /** An ascent extended by one more uphill step to a free cell. */
  lemma ReachAppend(hs: seq<int>, busy: seq<bool>, n: int, s: int, t: int, d: int)
    requires Reachable(hs, busy, n, s, t)
    requires Adjacent(n, t, d) && 0 <= d < |hs| && 0 <= t < |hs| && hs[t] <= hs[d] && !busy[d]
    ensures Reachable(hs, busy, n, s, d)
  {
    var p :| IsAscent(hs, busy, n, p) && p[0] == s && p[|p| - 1] == t;
    var q := p + [d];
    forall k | 0 <= k < |q| ensures 0 <= q[k] < |hs| && !busy[q[k]] {
      if k < |p| {
        assert q[k] == p[k];
      }
    }
    forall k | 0 <= k < |q| - 1 ensures Adjacent(n, q[k], q[k + 1]) && hs[q[k]] <= hs[q[k + 1]] {
      assert q[k] == p[k];
      if k + 1 < |p| {
        assert q[k + 1] == p[k + 1];
      }
    }
    assert IsAscent(hs, busy, n, q);
  }

  /** Every cell along an ascent that starts in a closed set stays in it. */
  lemma {:induction false} ClosedAlong(hs: seq<int>, busy: seq<bool>, n: int, E: set<int>, p: seq<int>, k: int)
    requires Closed(hs, busy, n, E) && IsAscent(hs, busy, n, p) && p[0] in E
    requires 0 <= k < |p|
    ensures p[k] in E
    decreases k
  {
    if k > 0 {
      ClosedAlong(hs, busy, n, E, p, k - 1);
      assert Adjacent(n, p[k - 1], p[k]) && hs[p[k - 1]] <= hs[p[k]];
    }
  }

  /** A closed set that holds s holds everything s reaches. */
  lemma ClosedContainsReach(hs: seq<int>, busy: seq<bool>, n: int, E: set<int>, s: int, t: int)
    requires Closed(hs, busy, n, E) && s in E && Reachable(hs, busy, n, s, t)
    ensures t in E
  {
    var p :| IsAscent(hs, busy, n, p) && p[0] == s && p[|p| - 1] == t;
    ClosedAlong(hs, busy, n, E, p, |p| - 1);
  }
}
