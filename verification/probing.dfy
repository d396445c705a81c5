/**
 * The clockwise probing that both walkers do: the view they consult, the
 * "first probe that qualifies" scan that specifies their `while (true)` probe
 * loops, and what `locateLeftWall` and `findNextMove` compute with it.
 */
module Probing {
  import opened Wrappers
  import opened Compass
  import opened Exits

  /**
   * The walker's only sensor for one call of `move`: `v[d]` says whether the
   * walker may move in direction `d` from where it stands (`View.mayMove`).
   */
  type View = v: seq<bool> | |v| == 4 witness [false, false, false, false]

  /** Whether the walker may move in direction `d` (`mayMove`). */
  predicate MayMove(v: View, d: Dir)
  {
    v[d]
  }

  /**
   * The number of probes a clockwise scan from `start` makes before it meets
   * a direction `d` with `ok[d]`, having already passed `i` probes; 4 when no
   * direction qualifies.
   */
  function FirstIndex(ok: seq<bool>, start: Dir, i: nat): (k: nat)
    requires |ok| == 4 && i <= 4
    ensures i <= k <= 4
    ensures k < 4 ==> ok[Probe(start, k)]
    ensures forall j :: i <= j < k ==> !ok[Probe(start, j)]
    decreases 4 - i
  {
    if i == 4 then 4
    else if ok[Probe(start, i)] then i
    else FirstIndex(ok, start, i + 1)
  }

  /** A full scan finds nothing exactly when no direction qualifies. */
  lemma FirstIndexNoneIff(ok: seq<bool>, start: Dir)
    requires |ok| == 4
    ensures FirstIndex(ok, start, 0) == 4 <==> forall d: Dir :: !ok[d]
  {
    if FirstIndex(ok, start, 0) == 4 {
      forall d: Dir
        ensures !ok[d]
      {
        var i := ProbeIndex(start, d);
        assert !ok[Probe(start, i)];
      }
    }
  }

  /** The directions in which a wall blocks the walker. */
  function Blocked(v: View): seq<bool>
  {
    [!v[0], !v[1], !v[2], !v[3]]
  }

  /** The directions that are open and whose exit `m` does not record as used yet. */
  function Usable(v: View, m: Mask): seq<bool>
  {
    [v[0] && !ExitUsed(m, 0), v[1] && !ExitUsed(m, 1), v[2] && !ExitUsed(m, 2), v[3] && !ExitUsed(m, 3)]
  }

  /**
   * The facing `locateLeftWall` turns to: scanning clockwise from the left of
   * `facing`, the first blocked direction is put on the walker's left; `None`
   * when no direction is blocked.
   */
  function WallFacing(v: View, facing: Dir): Option<Dir>
  {
    var start := LeftOf(facing);
    var k := FirstIndex(Blocked(v), start, 0);
    if k < 4 then Some(RightOf(Probe(start, k))) else None
  }

  /**
   * A wall is located exactly when some direction is blocked, and then the
   * new facing has that wall on its left.
   */
  lemma WallFacingSpec(v: View, facing: Dir)
    ensures WallFacing(v, facing).Some? <==> exists d: Dir :: !MayMove(v, d)
    ensures WallFacing(v, facing).Some? ==> !MayMove(v, LeftOf(WallFacing(v, facing).value))
  {
    var start := LeftOf(facing);
    assert forall d: Dir :: Blocked(v)[d] == !MayMove(v, d);
    FirstIndexNoneIff(Blocked(v), start);
    var k := FirstIndex(Blocked(v), start, 0);
    if k < 4 {
      LeftRightInverse(Probe(start, k));
    }
  }

  /**
   * One probe of `locateLeftWall`: a wall at probe `i` stops the scan
   * there; otherwise it goes on to probe `i + 1`.
   */
  lemma WallAdvance(v: View, start: Dir, i: nat)
    requires i < 4
    ensures !MayMove(v, Probe(start, i)) ==> FirstIndex(Blocked(v), start, i) == i
    ensures MayMove(v, Probe(start, i)) ==> FirstIndex(Blocked(v), start, i) == FirstIndex(Blocked(v), start, i + 1)
  {
  }

  /** How many probes `findNextMove` makes from `start` before it meets an open, unused exit (4 if there is none). */
  function ScanIndex(v: View, m: Mask, start: Dir): nat
  {
    FirstIndex(Usable(v, m), start, 0)
  }

  /**
   * The direction `findNextMove` returns when its scan starts at `start`: the
   * first open, unused exit clockwise from there, or -1 when there is none.
   */
  function NextMove(v: View, m: Mask, start: Dir): int
  {
    var k := ScanIndex(v, m, start);
    if k < 4 then Probe(start, k) else -1
  }

  /**
   * Whether one of the first `k` probes from `start` met an exit that is open
   * but already used; `findNextMove` clears `isFollowingLeft` when it does.
   */
  predicate SkipsUsed(v: View, m: Mask, start: Dir, k: nat)
  {
    k > 0 &&
    (SkipsUsed(v, m, start, k - 1) || (MayMove(v, Probe(start, k - 1)) && ExitUsed(m, Probe(start, k - 1))))
  }

  /**
   * One probe of the scan: an open, unused exit at probe `i` stops it there;
   * otherwise it goes on to probe `i + 1`, having skipped a used exit if
   * this one is open and used.
   */
  lemma ScanAdvance(v: View, m: Mask, start: Dir, i: nat)
    requires i < 4
    ensures MayMove(v, Probe(start, i)) && !ExitUsed(m, Probe(start, i)) ==> FirstIndex(Usable(v, m), start, i) == i
    ensures !(MayMove(v, Probe(start, i)) && !ExitUsed(m, Probe(start, i))) ==>
      FirstIndex(Usable(v, m), start, i) == FirstIndex(Usable(v, m), start, i + 1)
    ensures SkipsUsed(v, m, start, i + 1) <==>
      SkipsUsed(v, m, start, i) || (MayMove(v, Probe(start, i)) && ExitUsed(m, Probe(start, i)))
  {
  }

  /** `SkipsUsed` holds exactly when some probe before the `k`-th is open and used. */
  lemma {:induction false} SkipsUsedIff(v: View, m: Mask, start: Dir, k: nat)
    ensures SkipsUsed(v, m, start, k) <==>
      exists j :: 0 <= j < k && MayMove(v, Probe(start, j)) && ExitUsed(m, Probe(start, j))
  {
    if k > 0 {
      SkipsUsedIff(v, m, start, k - 1);
      if SkipsUsed(v, m, start, k - 1) {
        var j :| 0 <= j < k - 1 && MayMove(v, Probe(start, j)) && ExitUsed(m, Probe(start, j));
        assert 0 <= j < k;
      }
      if j :| 0 <= j < k && MayMove(v, Probe(start, j)) && ExitUsed(m, Probe(start, j)) {
        if j < k - 1 {
          assert 0 <= j < k - 1 && MayMove(v, Probe(start, j)) && ExitUsed(m, Probe(start, j));
        }
      }
    }
  }

  /**
   * `findNextMove` gives up (-1) exactly when every direction is blocked or
   * already used; otherwise it returns an open exit not used before.
   */
  lemma NextMoveSpec(v: View, m: Mask, start: Dir)
    ensures NextMove(v, m, start) == -1 <==> forall d: Dir :: !MayMove(v, d) || ExitUsed(m, d)
    ensures NextMove(v, m, start) != -1 ==>
      0 <= NextMove(v, m, start) < 4 && MayMove(v, NextMove(v, m, start)) && !ExitUsed(m, NextMove(v, m, start))
  {
    assert forall d: Dir :: Usable(v, m)[d] == (MayMove(v, d) && !ExitUsed(m, d));
    FirstIndexNoneIff(Usable(v, m), start);
  }

  /** When the scan fails, it has passed over a used exit exactly when some open exit exists. */
  lemma StuckSkipsUsedIff(v: View, m: Mask, start: Dir)
    requires ScanIndex(v, m, start) == 4
    ensures SkipsUsed(v, m, start, 4) <==> exists d: Dir :: MayMove(v, d)
  {
    FirstIndexNoneIff(Usable(v, m), start);
    SkipsUsedIff(v, m, start, 4);
    if d: Dir :| MayMove(v, d) {
      var j := ProbeIndex(start, d);
      assert MayMove(v, Probe(start, j)) && ExitUsed(m, Probe(start, j));
    }
  }
}
