/**
 * `LeftWalker`: follow the nearest left wall, remembering per square which
 * exits were already taken, and give up when every open exit of a square has
 * been used.
 */
module LeftWalking {
  import opened Wrappers
  import opened Compass
  import opened Exits
  import opened Probing

  /** Everything a `LeftWalker` remembers between two calls of `move`. */
  datatype LeftState = LeftState(
    visited: map<Coord, Mask>,  // visitedSquareLookup
    followingLeft: bool,        // isFollowingLeft
    facing: Dir,                // facingDirection
    pos: Coord)                 // (posX, posY)

  /** A new walker: no square visited, at the origin, facing NORTH, not following a wall. */
  const Initial := LeftState(map[], false, North, Origin)

  /**
   * One call of `move`: the new state and the direction returned (`None` for
   * the `null` of a stuck walker).
   *
   * When the walker is not following a wall and none can be located, it
   * returns NORTH and changes nothing. Otherwise it faces so that the located
   * wall (if it had to locate one) is on its left, scans clockwise from its
   * left for an open exit not used before, marks that exit in the current
   * square's entry and steps through it; following the wall stops if the scan
   * passed over an open exit that was already used.
   */
  function Step(s: LeftState, v: View): (LeftState, Option<Dir>)
  {
    if !s.followingLeft && WallFacing(v, s.facing).None? then
      (s, Some(North))
    else
      var facing := if s.followingLeft then s.facing else WallFacing(v, s.facing).value;
      var start := LeftOf(facing);
      var m := MaskAt(s.visited, s.pos);
      var k := ScanIndex(v, m, start);
      var following := !SkipsUsed(v, m, start, k);
      if k == 4 then
        (s.(followingLeft := following, facing := facing), None)
      else
        var d := Probe(start, k);
        (LeftState(s.visited[s.pos := SetUsed(m, d)], following, d, Moved(s.pos, d)), Some(d))
  }

  /** The state after the calls of `move` that see the views `vs`, one call per view. */
  function Run(s: LeftState, vs: seq<View>): LeftState
    decreases |vs|
  {
    if vs == [] then s else Run(Step(s, vs[0]).0, vs[1..])
  }

  /**
   * Quirk of `move`: with no wall to follow and open space on every side, the
   * walker answers NORTH but records nothing: its position, exit memory,
   * facing and mode all stay as they were.
   */
  lemma NoWallStepsNorth(s: LeftState, v: View)
    requires !s.followingLeft
    requires forall d: Dir :: MayMove(v, d)
    ensures Step(s, v) == (s, Some(North))
  {
    WallFacingSpec(v, s.facing);
  }

  /**
   * Conversely, NORTH-without-moving happens only then: whenever the walker
   * follows a wall or some side is blocked, a returned direction is stepped
   * through.
   */
  lemma StepMovesUnlessNoWall(s: LeftState, v: View)
    requires s.followingLeft || exists d: Dir :: !MayMove(v, d)
    ensures Step(s, v).1.Some? ==> Step(s, v).0.pos == Moved(s.pos, Step(s, v).1.value)
  {
    WallFacingSpec(v, s.facing);
  }

  /**
   * `move` reports being stuck exactly when it has a wall to follow and every
   * direction is blocked or already used from the current square; then
   * position and exit memory are unchanged.
   */
  lemma StuckIff(s: LeftState, v: View)
    ensures Step(s, v).1.None? <==>
      (s.followingLeft || exists d: Dir :: !MayMove(v, d)) &&
      forall d: Dir :: !MayMove(v, d) || ExitUsed(MaskAt(s.visited, s.pos), d)
    ensures Step(s, v).1.None? ==> Step(s, v).0.pos == s.pos && Step(s, v).0.visited == s.visited
  {
    WallFacingSpec(v, s.facing);
    var facing := if s.followingLeft then s.facing else if WallFacing(v, s.facing).Some? then WallFacing(v, s.facing).value else s.facing;
    NextMoveSpec(v, MaskAt(s.visited, s.pos), LeftOf(facing));
  }

  /**
   * A successful step through `d` moves exactly one unit in `d`, chooses an
   * open exit not used before from this square, sets the bit of `d` in the
   * current square's entry (creating it if absent), faces `d`, and leaves
   * every other entry of the exit memory untouched.
   */
  lemma MoveMarksOnlyCurrentSquare(s: LeftState, v: View, d: Dir)
    requires Step(s, v).1 == Some(d)
    requires s.followingLeft || exists e: Dir :: !MayMove(v, e)
    ensures MayMove(v, d) && !ExitUsed(MaskAt(s.visited, s.pos), d)
    ensures Step(s, v).0.pos == Moved(s.pos, d) && Step(s, v).0.facing == d
    ensures s.pos in Step(s, v).0.visited && ExitUsed(Step(s, v).0.visited[s.pos], d)
    ensures Step(s, v).0.visited == s.visited[s.pos := SetUsed(MaskAt(s.visited, s.pos), d)]
    ensures forall c :: c != s.pos ==> (c in s.visited <==> c in Step(s, v).0.visited)
    ensures forall c :: c != s.pos && c in s.visited ==> Step(s, v).0.visited[c] == s.visited[c]
  {
    WallFacingSpec(v, s.facing);
    var facing := if s.followingLeft then s.facing else WallFacing(v, s.facing).value;
    NextMoveSpec(v, MaskAt(s.visited, s.pos), LeftOf(facing));
  }

  /**
   * The scan only ever clears `isFollowingLeft`: after a step the walker
   * follows a wall only if it did before or had to locate one, and it stops
   * following when the scan passed over an open exit that was already used.
   */
  lemma FollowingOnlyCleared(s: LeftState, v: View)
    requires s.followingLeft
    ensures Step(s, v).0.followingLeft <==>
      !SkipsUsed(v, MaskAt(s.visited, s.pos), LeftOf(s.facing), ScanIndex(v, MaskAt(s.visited, s.pos), LeftOf(s.facing)))
  {
  }

  /** One call of `move` never forgets a square or clears an exit bit. */
  lemma StepGrows(s: LeftState, v: View)
    ensures Grows(s.visited, Step(s, v).0.visited)
  {
    GrowsTransitive(s.visited, s.visited, s.visited);
    if Step(s, v).1.Some? && Step(s, v).0 != s {
      var facing := if s.followingLeft then s.facing else WallFacing(v, s.facing).value;
      MarkGrows(s.visited, s.pos, NextMove(v, MaskAt(s.visited, s.pos), LeftOf(facing)));
    }
  }

  /** Over any number of calls the exit memory only grows: squares are never forgotten and bits never cleared. */
  lemma {:induction false} RunGrows(s: LeftState, vs: seq<View>)
    ensures Grows(s.visited, Run(s, vs).visited)
    decreases |vs|
  {
    if vs == [] {
      GrowsTransitive(s.visited, s.visited, s.visited);
    } else {
      var s1 := Step(s, vs[0]).0;
      StepGrows(s, vs[0]);
      RunGrows(s1, vs[1..]);
      GrowsTransitive(s.visited, s1.visited, Run(s1, vs[1..]).visited);
    }
  }

  /** The walker itself, with the fields the source updates in place. */
  class LeftWalker {
    var visited: map<Coord, Mask>
    var followingLeft: bool
    var facing: Dir
    var posX: int
    var posY: int

    /** The walker's memory as a value. */
    function State(): LeftState
      reads this
    {
      LeftState(visited, followingLeft, facing, Coord(posX, posY))
    }

    constructor ()
      ensures State() == Initial
    {
      visited := map[];
      followingLeft := false;
      facing := North;
      posX, posY := 0, 0;
    }

    /**
     * One navigation step: the returned direction and the new state are
     * those of `Step`.
     */
    method Move(v: View) returns (r: Option<Dir>)
      modifies this
      ensures (State(), r) == Step(old(State()), v)
    {
      if !followingLeft {
        var found := LocateLeftWall(v);
        if found {
          followingLeft := true;
        } else {
          return Some(North);
        }
      }
      var coord := Coord(posX, posY);
      var mask := MaskAt(visited, coord);
      var next := FindNextMove(v, mask);
      if next < 0 {
        return None;
      }
      mask := SetUsed(mask, next);
      visited := visited[coord := mask];
      UpdatePos(next);
      r := Some(next);
    }

    /**
     * Turns clockwise, probing from the walker's left, until a wall is on its
     * left: returns whether one was found; `facing` then has it on its left,
     * and is unchanged otherwise.
     */
    method LocateLeftWall(v: View) returns (found: bool)
      modifies this`facing
      ensures found == WallFacing(v, old(facing)).Some?
      ensures facing == if found then WallFacing(v, old(facing)).value else old(facing)
    {
      ghost var blocked := Blocked(v);
      var initial := LeftOf(facing);
      var probing := initial;
      ghost var i := 0;
      while true
        invariant 0 <= i < 4 && probing == Probe(initial, i)
        invariant facing == old(facing)
        invariant FirstIndex(blocked, initial, i) == FirstIndex(blocked, initial, 0)
        decreases 4 - i
      {
        WallAdvance(v, initial, i);
        if !MayMove(v, probing) {
          assert FirstIndex(blocked, initial, i) == i;
          facing := RightOf(probing);
          return true;
        }
        ProbeStep(initial, i);
        probing := RightOf(probing);
        i := i + 1;
        if probing == initial {
          assert i == 4 && FirstIndex(blocked, initial, i) == 4;
          return false;
        }
      }
    }

    /**
     * Scans clockwise from the walker's left for an open exit that `mask`
     * does not record as used, turns to face it and returns it, or returns -1
     * when there is none; passing over an open, used exit clears
     * `followingLeft`.
     */
    method FindNextMove(v: View, mask: Mask) returns (next: int)
      modifies this`facing, this`followingLeft
      ensures next == NextMove(v, mask, LeftOf(old(facing)))
      ensures facing == if next >= 0 then next else old(facing)
      ensures followingLeft ==
        (old(followingLeft) && !SkipsUsed(v, mask, LeftOf(old(facing)), ScanIndex(v, mask, LeftOf(old(facing)))))
    {
      ghost var usable := Usable(v, mask);
      var initial := LeftOf(facing);
      var probing := initial;
      ghost var i := 0;
      while true
        invariant 0 <= i < 4 && probing == Probe(initial, i)
        invariant facing == old(facing)
        invariant FirstIndex(usable, initial, i) == FirstIndex(usable, initial, 0)
        invariant followingLeft == (old(followingLeft) && !SkipsUsed(v, mask, initial, i))
        decreases 4 - i
      {
        ScanAdvance(v, mask, initial, i);
        if MayMove(v, probing) {
          if ExitUsed(mask, probing) {
            followingLeft := false;
          } else {
            facing := probing;
            return probing;
          }
        }
        ProbeStep(initial, i);
        probing := RightOf(probing);
        i := i + 1;
        if probing == initial {
          return -1;
        }
      }
    }

    /** Moves the dead-reckoned position one unit in `direction`. */
    method UpdatePos(direction: Dir)
      modifies this`posX, this`posY
      ensures Coord(posX, posY) == Moved(old(Coord(posX, posY)), direction)
    {
      match direction
      case 0 => posY := posY + 1;
      case 1 => posX := posX + 1;
      case 2 => posY := posY - 1;
      case 3 => posX := posX - 1;
    }
  }
}
