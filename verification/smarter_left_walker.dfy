/**
 * `SmarterLeftWalker`: the left-wall follower extended with a history stack
 * of the moves taken, so that when no unused exit is left it retraces its
 * last move instead of giving up: a depth-first search with an explicit
 * stack, whose move order is biased by the left-hand rule.
 */
module SmarterLeftWalking {
  import opened Wrappers
  import opened Compass
  import opened Exits
  import opened Probing

  /** One entry of the history stack: the direction taken and the facing the walker had before taking it. */
  datatype Snapshot = Snapshot(takenDirection: Dir, facingDirection: Dir)

  /** Everything a `SmarterLeftWalker` remembers between two calls of `move`. */
  datatype SmartState = SmartState(
    lookup: map<Coord, Mask>,  // visitedSquareLookup, each SquareInfo given by its exitInfo
    history: seq<Snapshot>,    // visitedSquareHistory, top of the stack last
    followingLeft: bool,       // isFollowingLeft
    facing: Dir,               // facingDirection
    pos: Coord)                // (posX, posY)

  /** A new walker: nothing visited, empty history, at the origin, facing NORTH, not following a wall. */
  const Initial := SmartState(map[], [], false, North, Origin)

  /** The top of the history stack (`peek`). */
  function Top(h: seq<Snapshot>): Snapshot
    requires |h| > 0
  {
    h[|h| - 1]
  }

  /** The history stack without its top (what `pop` leaves). */
  function Pop(h: seq<Snapshot>): seq<Snapshot>
    requires |h| > 0
  {
    h[..|h| - 1]
  }

  /**
   * The current square's exit mask once `move` has looked it up (0 on a
   * first visit) and, if the walker arrived by a recorded move, marked the
   * edge it arrived by as used.
   */
  function ArrivalMask(s: SmartState): Mask
  {
    var m := MaskAt(s.lookup, s.pos);
    if |s.history| > 0 then SetUsed(m, OppositeOf(Top(s.history).takenDirection)) else m
  }

  /** The mode and facing after `move` has tried to locate a wall (only when not already following one). */
  function Orient(s: SmartState, v: View): (bool, Dir)
  {
    if s.followingLeft then (true, s.facing)
    else match WallFacing(v, s.facing)
      case Some(f) => (true, f)
      case None => (false, s.facing)
  }

  /** Where `findNextMove` starts probing: left of the facing when following a wall, straight ahead otherwise. */
  function ScanStart(following: bool, facing: Dir): Dir
  {
    if following then LeftOf(facing) else facing
  }

  /** The state once `move` has entered the current square: its entry exists and has the arrival edge marked. */
  function Arrived(s: SmartState): SmartState
  {
    s.(lookup := s.lookup[s.pos := ArrivalMask(s)])
  }

  /**
   * The state after `locateLeftWall` (when no wall was followed) and
   * `findNextMove`, with the direction the scan found (-1 for none): the
   * scan, over the current square's mask, starts left of the facing when a
   * wall is followed and straight ahead otherwise, and following stops when
   * it passed over an open, used exit.
   */
  function Scanned(a: SmartState, v: View): (SmartState, int)
  {
    var (following, facing) := Orient(a, v);
    var m := MaskAt(a.lookup, a.pos);
    var start := ScanStart(following, facing);
    var k := ScanIndex(v, m, start);
    (a.(followingLeft := following && !SkipsUsed(v, m, start, k), facing := facing), NextMove(v, m, start))
  }

  /**
   * The rest of `move` once the scan chose `next`: a found exit is marked,
   * pushed with the facing before the move, faced and taken; otherwise the
   * last move is popped and retraced, restoring the facing saved with it;
   * with an empty history nothing changes and `None` is returned.
   */
  function Departed(b: SmartState, next: int): (SmartState, Option<Dir>)
    requires -1 <= next < 4
  {
    if next >= 0 then
      (b.(lookup := b.lookup[b.pos := SetUsed(MaskAt(b.lookup, b.pos), next)],
          history := b.history + [Snapshot(next, b.facing)],
          facing := next,
          pos := Moved(b.pos, next)),
       Some(next))
    else if |b.history| > 0 then
      var top := Top(b.history);
      var back := OppositeOf(top.takenDirection);
      (b.(history := Pop(b.history), facing := top.facingDirection, pos := Moved(b.pos, back)), Some(back))
    else
      (b, None)
  }

  /**
   * One call of `move`: the new state and the direction returned (`None` for
   * the `null` of a walker with nowhere to go and nothing to retrace).
   */
  function Step(s: SmartState, v: View): (SmartState, Option<Dir>)
  {
    var (b, next) := Scanned(Arrived(s), v);
    Departed(b, next)
  }

  /**
   * Entering the square changes only its entry, so the scan that follows
   * sees the arrival mask, and the mode and facing as they were: it keeps
   * the exit memory, history and position of the arrived state.
   */
  lemma ArrivedKeeps(s: SmartState, v: View)
    ensures MaskAt(Arrived(s).lookup, Arrived(s).pos) == ArrivalMask(s)
    ensures Orient(Arrived(s), v) == Orient(s, v)
    ensures Arrived(s).history == s.history && Arrived(s).pos == s.pos
    ensures
      var (b, next) := Scanned(Arrived(s), v);
      b.lookup == s.lookup[s.pos := ArrivalMask(s)] && b.history == s.history && b.pos == s.pos &&
      b.facing == Orient(s, v).1 &&
      next == NextMove(v, ArrivalMask(s), ScanStart(Orient(s, v).0, Orient(s, v).1))
  {
  }

  /** The state after the calls of `move` that see the views `vs`, one call per view. */
  function Run(s: SmartState, vs: seq<View>): SmartState
    decreases |vs|
  {
    if vs == [] then s else Run(Step(s, vs[0]).0, vs[1..])
  }

  /** The square reached from the origin by taking, in order, the moves recorded in `h`. */
  function Walk(h: seq<Snapshot>): Coord
  {
    if h == [] then Origin else Moved(Walk(Pop(h)), Top(h).takenDirection)
  }

  /** The stack invariant: the walker stands where the moves on its history stack lead from the origin. */
  ghost predicate OnTrack(s: SmartState)
  {
    s.pos == Walk(s.history)
  }

  /** A new walker is on track. */
  lemma InitialOnTrack()
    ensures OnTrack(Initial)
  {
  }

  /**
   * `move` finds an unused exit exactly when one is open and not marked once
   * the arrival edge is marked; the scan starts left of the facing when a
   * wall is followed and straight ahead otherwise, and returns the first
   * such exit clockwise from there.
   */
  lemma ScanSpec(s: SmartState, v: View)
    ensures ScanIndex(v, ArrivalMask(s), ScanStart(Orient(s, v).0, Orient(s, v).1)) < 4 <==>
      exists d: Dir :: MayMove(v, d) && !ExitUsed(ArrivalMask(s), d)
  {
    NextMoveSpec(v, ArrivalMask(s), ScanStart(Orient(s, v).0, Orient(s, v).1));
  }

  /**
   * A forward move through `d`: `d` is an open exit not used before (and not
   * the edge the walker arrived by), its bit is set in the current square's
   * entry, the snapshot of `d` and the facing before the move is pushed (the
   * stack grows by exactly one), the walker faces `d` and steps through it.
   */
  lemma ForwardStep(s: SmartState, v: View)
    requires exists d: Dir :: MayMove(v, d) && !ExitUsed(ArrivalMask(s), d)
    ensures Step(s, v).1.Some?
    ensures
      var (s', r) := Step(s, v);
      var d := r.value;
      MayMove(v, d) && !ExitUsed(ArrivalMask(s), d) &&
      (|s.history| > 0 ==> d != OppositeOf(Top(s.history).takenDirection)) &&
      s'.lookup == s.lookup[s.pos := SetUsed(ArrivalMask(s), d)] &&
      s'.history == s.history + [Snapshot(d, Orient(s, v).1)] &&
      |s'.history| == |s.history| + 1 &&
      s'.facing == d && s'.pos == Moved(s.pos, d)
  {
    ScanSpec(s, v);
    ArrivedKeeps(s, v);
    var m := ArrivalMask(s);
    var start := ScanStart(Orient(s, v).0, Orient(s, v).1);
    NextMoveSpec(v, m, start);
    var (b, next) := Scanned(Arrived(s), v);
    assert 0 <= next < 4;
    assert Step(s, v) == Departed(b, next);
    if |s.history| > 0 {
      var e := OppositeOf(Top(s.history).takenDirection);
      assert ExitUsed(m, e);
    }
  }

  /**
   * A backtrack: when no open exit is unused and the history is not empty,
   * `move` pops the top snapshot, restores the facing saved in it, and
   * retraces the popped move in the opposite direction.
   */
  lemma BacktrackStep(s: SmartState, v: View)
    requires |s.history| > 0
    requires forall d: Dir :: !MayMove(v, d) || ExitUsed(ArrivalMask(s), d)
    ensures
      var (s', r) := Step(s, v);
      var top := Top(s.history);
      r == Some(OppositeOf(top.takenDirection)) &&
      s'.history == Pop(s.history) &&
      s'.facing == top.facingDirection &&
      s'.pos == Moved(s.pos, OppositeOf(top.takenDirection))
  {
    ArrivedKeeps(s, v);
    NextMoveSpec(v, ArrivalMask(s), ScanStart(Orient(s, v).0, Orient(s, v).1));
  }

  /**
   * `move` reports being stuck (`null`) exactly when the history is empty
   * and every direction is blocked or already used from the current square;
   * then the walker stays where it is and its history stays empty.
   */
  lemma StuckIff(s: SmartState, v: View)
    ensures Step(s, v).1.None? <==>
      |s.history| == 0 && forall d: Dir :: !MayMove(v, d) || ExitUsed(MaskAt(s.lookup, s.pos), d)
    ensures Step(s, v).1.None? ==> Step(s, v).0.pos == s.pos && Step(s, v).0.history == []
  {
    ArrivedKeeps(s, v);
    NextMoveSpec(v, ArrivalMask(s), ScanStart(Orient(s, v).0, Orient(s, v).1));
  }

  /**
   * The exit memory of one call: the current square gets an entry, which
   * keeps its bits and, after a recorded arrival, has the arrival edge
   * marked; every other entry is untouched.
   */
  lemma StepMarksCurrentSquare(s: SmartState, v: View)
    ensures
      var s' := Step(s, v).0;
      s'.lookup.Keys == s.lookup.Keys + {s.pos} &&
      (forall c :: c in s.lookup && c != s.pos ==> s'.lookup[c] == s.lookup[c]) &&
      (|s.history| > 0 ==> ExitUsed(s'.lookup[s.pos], OppositeOf(Top(s.history).takenDirection)))
  {
    StepLookup(s, v);
    if |s.history| > 0 {
      assert ExitUsed(ArrivalMask(s), OppositeOf(Top(s.history).takenDirection));
    }
  }

  /**
   * The current square's mask at the end of one call: its arrival mask,
   * with the chosen exit marked when the scan found one; it keeps every
   * bit of the arrival mask.
   */
  function LeavingMask(s: SmartState, v: View): (r: Mask)
    ensures forall e: Dir :: ExitUsed(ArrivalMask(s), e) ==> ExitUsed(r, e)
  {
    var next := NextMove(v, ArrivalMask(s), ScanStart(Orient(s, v).0, Orient(s, v).1));
    if next >= 0 then SetUsed(ArrivalMask(s), next) else ArrivalMask(s)
  }

  /** The exit memory after one call: only the current square's entry is replaced, by its leaving mask. */
  lemma StepLookup(s: SmartState, v: View)
    ensures Step(s, v).0.lookup == s.lookup[s.pos := LeavingMask(s, v)]
  {
    ArrivedKeeps(s, v);
  }

  /** One call of `move` never removes a square's entry or clears a bit. */
  lemma StepGrows(s: SmartState, v: View)
    ensures Grows(s.lookup, Step(s, v).0.lookup)
  {
    var a := Arrived(s);
    assert Grows(s.lookup, a.lookup) by {
      if |s.history| > 0 {
        MarkGrows(s.lookup, s.pos, OppositeOf(Top(s.history).takenDirection));
      } else {
        GrowsTransitive(s.lookup, s.lookup, s.lookup);
        if s.pos in s.lookup {
          assert a.lookup == s.lookup;
        }
      }
    }
    var (b, next) := Scanned(a, v);
    assert b.lookup == a.lookup && b.pos == s.pos;
    if next >= 0 {
      MarkGrows(b.lookup, b.pos, next);
      GrowsTransitive(s.lookup, a.lookup, Step(s, v).0.lookup);
    } else {
      assert Step(s, v).0.lookup == a.lookup;
    }
  }

  /** Each call of `move` keeps the walker on track: pushing records the step it takes, popping undoes the step it retraces. */
  lemma StepOnTrack(s: SmartState, v: View)
    requires OnTrack(s)
    ensures OnTrack(Step(s, v).0)
  {
    var s' := Step(s, v).0;
    if |s'.history| > |s.history| {
      assert Pop(s'.history) == s.history;
    } else if |s'.history| < |s.history| {
      var top := Top(s.history);
      MovedOpposite(Walk(Pop(s.history)), top.takenDirection);
    }
  }

  /**
   * A backtrack brings the walker back to the square it occupied just
   * before the move it retraces was pushed: stepping again in the popped
   * direction leads to where the backtrack started.
   */
  lemma BacktrackReturns(s: SmartState, v: View)
    requires OnTrack(s)
    requires |s.history| > 0 && |Step(s, v).0.history| < |s.history|
    ensures Step(s, v).0.pos == Walk(Pop(s.history))
    ensures Moved(Step(s, v).0.pos, Top(s.history).takenDirection) == s.pos
  {
    StepOnTrack(s, v);
    ForwardOrBack(s, v);
  }

  /** Each call pushes one snapshot, pops one, or (only when stuck) leaves the stack alone. */
  lemma ForwardOrBack(s: SmartState, v: View)
    ensures
      var (s', r) := Step(s, v);
      (r.Some? && |s'.history| == |s.history| + 1 && Pop(s'.history) == s.history) ||
      (r.Some? && |s.history| > 0 && s'.history == Pop(s.history)) ||
      (r.None? && s'.history == s.history)
  {
    var s' := Step(s, v).0;
    if |s'.history| > |s.history| {
      assert Pop(s'.history) == s.history;
    }
  }

  /**
   * A forward move immediately followed by a backtrack returns the walker to
   * where it started, with the history it had, through the opposite
   * direction of the move.
   */
  lemma ForwardThenBacktrack(s: SmartState, v1: View, v2: View)
    requires exists d: Dir :: MayMove(v1, d) && !ExitUsed(ArrivalMask(s), d)
    requires |Step(Step(s, v1).0, v2).0.history| <= |s.history|
    ensures Step(s, v1).1.Some?
    ensures Step(Step(s, v1).0, v2).0.pos == s.pos
    ensures Step(Step(s, v1).0, v2).0.history == s.history
    ensures Step(Step(s, v1).0, v2).1 == Some(OppositeOf(Step(s, v1).1.value))
  {
    ForwardStep(s, v1);
    var (s1, r1) := Step(s, v1);
    var d := r1.value;
    assert Top(s1.history).takenDirection == d;
    assert Pop(s1.history) == s.history;
    ArrivedKeeps(s1, v2);
    var (b, next) := Scanned(Arrived(s1), v2);
    assert Step(s1, v2) == Departed(b, next);
    var (s2, r2) := Step(s1, v2);
    assert next < 0;
    assert r2 == Some(OppositeOf(d));
    assert s2.pos == Moved(s1.pos, OppositeOf(d));
    MovedOpposite(s.pos, d);
  }

  /**
   * Over any number of calls the walker stays on track and its exit memory
   * only grows.
   */
  lemma {:induction false} RunInvariant(s: SmartState, vs: seq<View>)
    requires OnTrack(s)
    ensures OnTrack(Run(s, vs))
    ensures Grows(s.lookup, Run(s, vs).lookup)
    decreases |vs|
  {
    if vs == [] {
      GrowsTransitive(s.lookup, s.lookup, s.lookup);
    } else {
      var s1 := Step(s, vs[0]).0;
      StepOnTrack(s, vs[0]);
      StepGrows(s, vs[0]);
      RunInvariant(s1, vs[1..]);
      GrowsTransitive(s.lookup, s1.lookup, Run(s1, vs[1..]).lookup);
    }
  }

  /** What `visitedSquareLookup` maps a square to: a mutable record of the exits used from it. */
  class SquareInfo {
    var exitInfo: Mask

    constructor (exitInfo: Mask)
      ensures this.exitInfo == exitInfo
    {
      this.exitInfo := exitInfo;
    }

    /** Marks `usedDirection` as used in this square's record. */
    method UpdateExitInfo(usedDirection: Dir)
      modifies this
      ensures exitInfo == SetUsed(old(exitInfo), usedDirection)
    {
      exitInfo := SetUsed(exitInfo, usedDirection);
    }
  }

  /** The walker itself, with the fields the source updates in place. */
  class SmarterLeftWalker {
    var lookup: map<Coord, SquareInfo>
    var history: seq<Snapshot>
    var followingLeft: bool
    var facing: Dir
    var posX: int
    var posY: int

    /** The exit mask of every visited square, as the records in `lookup` hold it. */
    ghost var masks: map<Coord, Mask>
    /** The records in `lookup`. */
    ghost var Repr: set<SquareInfo>

    /** Distinct squares have distinct records, so updating one square's record leaves the others alone. */
    ghost predicate Distinct()
      reads this`lookup
    {
      forall c, c' :: c in lookup && c' in lookup && c != c' ==> lookup[c] != lookup[c']
    }

    /** `masks` is what the records in `lookup` hold. */
    ghost predicate Synced()
      reads this`lookup, this`masks, this`Repr, Repr
    {
      lookup.Keys == masks.Keys &&
      forall c :: c in lookup ==> lookup[c] in Repr && lookup[c].exitInfo == masks[c]
    }

    /** The records are distinct, `masks` holds their contents, and the walker is on track. */
    ghost predicate Valid()
      reads this, Repr
    {
      Distinct() && Synced() && OnTrack(State())
    }

    /** The walker's memory as a value. */
    ghost function State(): SmartState
      reads this
    {
      SmartState(masks, history, followingLeft, facing, Coord(posX, posY))
    }

    constructor ()
      ensures Valid() && State() == Initial
    {
      lookup := map[];
      masks := map[];
      Repr := {};
      history := [];
      followingLeft := false;
      facing := North;
      posX, posY := 0, 0;
    }

    /**
     * One navigation step: the returned direction and the new state are
     * those of `Step`, and the walker stays valid.
     */
    method Move(v: View) returns (r: Option<Dir>)
      requires Valid()
      modifies this, Repr
      ensures Valid()
      ensures (State(), r) == Step(old(State()), v)
    {
      ghost var s := State();
      var coord := Coord(posX, posY);
      var info := Arrive(coord);
      var next := Scan(v, info.exitInfo);
      r := Depart(info, coord, next);
      StepOnTrack(s, v);
    }

    /**
     * Looks up the record of the current square `coord`, creating it with no
     * exit used on a first visit, and marks the edge the walker arrived by.
     */
    method Arrive(coord: Coord) returns (info: SquareInfo)
      requires Distinct() && Synced() && coord == Coord(posX, posY)
      modifies this`lookup, this`masks, this`Repr, Repr
      ensures Distinct() && Synced()
      ensures State() == Arrived(old(State()))
      ensures coord in lookup && lookup[coord] == info
      ensures info in old(Repr) || fresh(info)
    {
      ghost var s := State();
      info := Enter(coord);
      if |history| > 0 {
        var previous := history[|history| - 1];
        Mark(info, coord, OppositeOf(previous.takenDirection));
      }
      assert masks == s.lookup[coord := ArrivalMask(s)];
    }

    /** The record of `coord`, created with no exit used when the square has none yet. */
    method Enter(coord: Coord) returns (info: SquareInfo)
      requires Distinct() && Synced()
      modifies this`lookup, this`masks, this`Repr
      ensures Distinct() && Synced()
      ensures masks == old(masks)[coord := MaskAt(old(masks), coord)]
      ensures coord in lookup && lookup[coord] == info
      ensures info in old(Repr) || fresh(info)
    {
      if coord in lookup {
        info := lookup[coord];
      } else {
        info := new SquareInfo(0);
        lookup := lookup[coord := info];
        masks := masks[coord := 0];
        Repr := Repr + {info};
      }
    }

    /**
     * The middle of `move`: locates a wall to follow when none is followed,
     * then scans the current square's exits, with mask `mask`, for the next
     * move.
     */
    method Scan(v: View, mask: Mask) returns (next: int)
      requires mask == MaskAt(masks, Coord(posX, posY))
      modifies this`followingLeft, this`facing
      ensures (State(), next) == Scanned(old(State()), v)
    {
      ghost var s := State();
      if !followingLeft {
        var found := LocateLeftWall(v);
        if found {
          followingLeft := true;
        }
      }
      assert (followingLeft, facing) == Orient(s, v);
      next := FindNextMove(v, mask);
    }

    /**
     * The end of `move` once the scan chose `chosen`: takes a found exit
     * (marking it and pushing a snapshot), otherwise retraces the last move,
     * and returns the direction moved in, or `None`.
     */
    method Depart(info: SquareInfo, coord: Coord, chosen: int) returns (r: Option<Dir>)
      requires Distinct() && Synced() && coord == Coord(posX, posY)
      requires coord in lookup && lookup[coord] == info
      requires -1 <= chosen < 4
      modifies this, info
      ensures Distinct() && Synced()
      ensures (State(), r) == Departed(old(State()), chosen)
    {
      var next := chosen;
      if next >= 0 {
        Mark(info, coord, next);
        history := history + [Snapshot(next, facing)];
        facing := next;
      } else if |history| > 0 {
        var snapshot := history[|history| - 1];
        history := history[..|history| - 1];
        facing := snapshot.facingDirection;
        next := OppositeOf(snapshot.takenDirection);
      }
      if next >= 0 {
        UpdatePos(next);
        r := Some(next);
      } else {
        r := None;
      }
    }

    /** Marks the exit `d` as used in the record of `coord`, which no other square shares. */
    method Mark(info: SquareInfo, coord: Coord, d: Dir)
      requires Distinct() && Synced()
      requires coord in lookup && lookup[coord] == info
      modifies info, this`masks
      ensures Distinct() && Synced()
      ensures masks == old(masks)[coord := SetUsed(old(masks)[coord], d)]
    {
      info.UpdateExitInfo(d);
      masks := masks[coord := info.exitInfo];
    }

    /**
     * Turns clockwise, probing from the walker's left, until a wall is on its
     * left: returns whether one was found; `facing` then has it on its left,
     * and is unchanged otherwise.
     */
    method LocateLeftWall(v: View) returns (found: bool)
      modifies this`facing
      ensures found == WallFacing(v, old(facing)).Some?
      ensures facing == if found then WallFacing(v, old(facing)).value else old(facing)
    {
      ghost var blocked := Blocked(v);
      var initial := LeftOf(facing);
      var probing := initial;
      ghost var i := 0;
      while true
        invariant 0 <= i < 4 && probing == Probe(initial, i)
        invariant facing == old(facing)
        invariant FirstIndex(blocked, initial, i) == FirstIndex(blocked, initial, 0)
        decreases 4 - i
      {
        WallAdvance(v, initial, i);
        if !MayMove(v, probing) {
          assert FirstIndex(blocked, initial, i) == i;
          facing := RightOf(probing);
          return true;
        }
        ProbeStep(initial, i);
        probing := RightOf(probing);
        i := i + 1;
        if probing == initial {
          assert i == 4 && FirstIndex(blocked, initial, i) == 4;
          return false;
        }
      }
    }

    /**
     * Scans clockwise, from the walker's left when it follows a wall and
     * from straight ahead otherwise, for an open exit that `mask` does not
     * record as used, and returns it, or -1 when there is none; passing over
     * an open, used exit clears `followingLeft`. The facing is not changed.
     */
    method FindNextMove(v: View, mask: Mask) returns (next: int)
      modifies this`followingLeft
      ensures next == NextMove(v, mask, ScanStart(old(followingLeft), facing))
      ensures followingLeft ==
        (old(followingLeft) &&
         !SkipsUsed(v, mask, ScanStart(old(followingLeft), facing), ScanIndex(v, mask, ScanStart(old(followingLeft), facing))))
    {
      var initial := if followingLeft then LeftOf(facing) else facing;
      next := ProbeFrom(v, mask, initial);
    }

    /**
     * The probing loop of `findNextMove` once its first direction `initial`
     * is chosen: returns the first open exit clockwise from `initial` that
     * `mask` does not record as used, or -1; passing over an open, used exit
     * clears `followingLeft`.
     */
    method ProbeFrom(v: View, mask: Mask, initial: Dir) returns (next: int)
      modifies this`followingLeft
      ensures next == NextMove(v, mask, initial)
      ensures followingLeft == (old(followingLeft) && !SkipsUsed(v, mask, initial, ScanIndex(v, mask, initial)))
    {
      ghost var usable := Usable(v, mask);
      var probing := initial;
      ghost var i := 0;
      while true
        invariant 0 <= i < 4 && probing == Probe(initial, i)
        invariant FirstIndex(usable, initial, i) == FirstIndex(usable, initial, 0)
        invariant followingLeft == (old(followingLeft) && !SkipsUsed(v, mask, initial, i))
        decreases 4 - i
      {
        ScanAdvance(v, mask, initial, i);
        if MayMove(v, probing) {
          if ExitUsed(mask, probing) {
            followingLeft := false;
          } else {
            return probing;
          }
        }
        ProbeStep(initial, i);
        probing := RightOf(probing);
        i := i + 1;
        if probing == initial {
          return -1;
        }
      }
    }

    /** Moves the dead-reckoned position one unit in `direction`. */
    method UpdatePos(direction: Dir)
      modifies this`posX, this`posY
      ensures Coord(posX, posY) == Moved(old(Coord(posX, posY)), direction)
    {
      match direction
      case 0 => posY := posY + 1;
      case 1 => posX := posX + 1;
      case 2 => posY := posY - 1;
      case 3 => posX := posX - 1;
    }
  }
}
