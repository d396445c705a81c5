# Left-wall maze walkers, modelled in Dafny

This project models the two wall-following walkers of the maze solver:
`LeftWalker` and `SmarterLeftWalker`. On each call of `move` a walker picks
one compass move. It sees only a four-way "may I move in direction d?"
sensor (the `View`) and its own memory:

- a facing direction, coded 0..3 for NORTH, EAST, SOUTH, WEST;
- an "is following the left wall" mode bit;
- a dead-reckoned position `(posX, posY)`;
- a per-square bit mask of the exits already taken from that square.

`SmarterLeftWalker` also keeps a stack of snapshots. Each holds the direction
taken and the facing before it. When every exit is used, the walker pops the
stack and retraces its last step, which makes the walk a depth-first search.

Layout:

- `wrappers.dfy` has `Option`.
- `compass.dfy` has direction arithmetic, the clockwise probe sequence,
  coordinates, `updatePos` as `Moved`, and `directionFromToCoord`.
- `exits.dfy` has the exit masks (`exitDirectionUsed`,
  `setUsedExitDirection`) and the "memory only grows" relation.
- `probing.dfy` has the view, and the first-qualifying-probe scan that
  specifies the `locateLeftWall` and `findNextMove` loops.
- `left_walker.dfy` has a pure `Step` function for one call of `move`,
  lemmas about it, and the class `LeftWalker`. The class has the source's
  fields and methods, each proved equal to the function that specifies it:
  `Move` to `Step`, `LocateLeftWall` to `WallFacing`, `FindNextMove` to
  `NextMove`, `UpdatePos` to `Moved`.
- `smarter_left_walker.dfy` has the same pair for `SmarterLeftWalker`:
  - `Step` is built from three phases: arriving, scanning, departing.
  - The classes are `SquareInfo` and `SmarterLeftWalker`. The walker's map
    holds mutable `SquareInfo` records, kept distinct per square.
  - Its invariant is that the position is where the stacked moves lead from
    the origin.

Directions are integer codes, and the view is a `seq<bool>` indexed by them.
The `Direction` enum and `intToDirectionMapping` become the codes themselves.

## Model

| member | source | states |
|---|---|---|
| Compass.TurnValues | src/main/java/main/SmarterLeftWalker.java:261-271 | `leftOf`, `rightOf` and `oppositeOf` stay in 0..3. Left of NORTH is WEST, right of WEST is NORTH; otherwise they step by one, and the opposite by two |
| Compass.LeftRightInverse | src/main/java/main/LeftWalker.java:208-214 | `rightOf(leftOf(d)) == d` and `leftOf(rightOf(d)) == d` |
| Compass.RightOfFourTimes | src/main/java/main/LeftWalker.java:122-138 | four clockwise turns return to the start and fewer do not, so a probe loop stops after at most four probes |
| Compass.OppositeInvolution | src/main/java/main/SmarterLeftWalker.java:269-271 | `oppositeOf` is two right turns, is its own inverse, and never returns its argument |
| Compass.ProbeValue | src/main/java/main/LeftWalker.java:119-137 | the `i`-th direction a probe loop tests (i ≤ 4) is `i` quarter turns clockwise from its initial direction |
| Compass.ProbeStep | src/main/java/main/LeftWalker.java:132-137 | `rightOf` of probe `i` is probe `i+1`, and the loop comes back to its initial direction exactly at the fourth turn |
| Compass.ProbeIndex | src/main/java/main/LeftWalker.java:150-177 | every direction is one of the first four probes |
| Compass.MovedIsAdjacent | src/main/java/main/LeftWalker.java:181-196 | `updatePos` moves to a neighbouring square, one unit in one coordinate |
| Compass.MovedOpposite | src/main/java/main/SmarterLeftWalker.java:233-247 | `updatePos(oppositeOf(d))` undoes `updatePos(d)` |
| Compass.DirectionFromTo | src/main/java/main/SmarterLeftWalker.java:273-291 | `directionFromToCoord` returns -1 exactly when neither coordinate difference is ±1, and a direction code otherwise |
| Compass.DirectionFromToInvertsMoved | src/main/java/main/SmarterLeftWalker.java:273-291 | `directionFromToCoord(p, q)` is `d` when `q` is `p` moved by `d`, and -1 when `p == q` |
| Compass.MovedInvertsDirectionFromTo | src/main/java/main/SmarterLeftWalker.java:273-291 | between neighbouring squares, moving by the direction found leads from `from` to `to` |
| Exits.SetUsed | src/main/java/main/LeftWalker.java:216-224 | after `setUsedExitDirection(m, d)`, the exit `d` is used, no bit of `m` is cleared, and every other direction's bit is unchanged |
| Exits.EmptyMaskUnused | src/main/java/main/SmarterLeftWalker.java:109-112 | the mask 0 given to a new square records no used exit |
| Exits.SetUsedIdempotent | src/main/java/main/LeftWalker.java:221-224 | marking an exit that is already used changes nothing, and marking twice is marking once |
| Exits.MarkGrows | src/main/java/main/LeftWalker.java:101-103 | storing the marked mask for a square keeps every square and every bit set before |
| Probing.FirstIndex | src/main/java/main/LeftWalker.java:122-138 | the number of probes before the first qualifying direction: that probe qualifies and all earlier ones do not; 4 when none does |
| Probing.FirstIndexNoneIff | src/main/java/main/LeftWalker.java:122-138 | a full clockwise scan finds nothing exactly when no direction qualifies |
| Probing.WallFacingSpec | src/main/java/main/LeftWalker.java:117-139 | a wall is located exactly when some direction is blocked, and then the direction left of the new facing is blocked |
| Probing.ScanAdvance | src/main/java/main/LeftWalker.java:153-177 | one loop iteration: an open, unused probe ends the scan there; otherwise the scan goes on, and an open, used probe counts as skipped |
| Probing.SkipsUsedIff | src/main/java/main/LeftWalker.java:159-163 | the scan has skipped a used exit exactly when some earlier probe was open and already used |
| Probing.NextMoveSpec | src/main/java/main/LeftWalker.java:148-179 | `findNextMove` returns -1 exactly when every direction is blocked or used; otherwise it returns an open, unused direction |
| Probing.StuckSkipsUsedIff | src/main/java/main/LeftWalker.java:153-177 | when the scan fails, it has passed over a used exit exactly when some direction is open |
| LeftWalking.NoWallStepsNorth | src/main/java/main/LeftWalker.java:81-88 | with no wall followed and none to locate, `move` returns NORTH and changes no field at all |
| LeftWalking.StepMovesUnlessNoWall | src/main/java/main/LeftWalker.java:91-108 | whenever a wall is followed or one is blocked, a returned direction is stepped through |
| LeftWalking.StuckIff | src/main/java/main/LeftWalker.java:95-99 | `move` returns null exactly when it has a wall and every direction is blocked or used here; then position and memory are unchanged |
| LeftWalking.MoveMarksOnlyCurrentSquare | src/main/java/main/LeftWalker.java:91-108 | a move through `d`: `d` was open and unused, its bit is set in this square's entry and no other entry changes, the walker faces `d` and moves one unit in `d` |
| LeftWalking.FollowingOnlyCleared | src/main/java/main/LeftWalker.java:159-163 | while following a wall, a call keeps following exactly when the scan skipped no open, used exit |
| LeftWalking.StepGrows | src/main/java/main/LeftWalker.java:94-103 | one call never forgets a square or clears a bit |
| LeftWalking.RunGrows | src/main/java/main/LeftWalker.java:79-110 | over any sequence of calls the exit memory only grows |
| LeftWalking.LeftWalker.constructor | src/main/java/main/LeftWalker.java:67-77 | a new walker has visited nothing, is at the origin facing NORTH, and follows no wall |
| LeftWalking.LeftWalker.Move | src/main/java/main/LeftWalker.java:79-110 | `move` returns the direction, and leaves the fields, that `Step` gives |
| LeftWalking.LeftWalker.LocateLeftWall | src/main/java/main/LeftWalker.java:117-139 | returns whether a wall was located; the facing becomes the one with it on the left, or stays unchanged |
| LeftWalking.LeftWalker.FindNextMove | src/main/java/main/LeftWalker.java:148-179 | returns the first open, unused direction clockwise from the left (or -1), faces it, and clears the mode bit exactly when a used exit was skipped |
| LeftWalking.LeftWalker.UpdatePos | src/main/java/main/LeftWalker.java:181-196 | moves the position one unit: 0→y+1, 1→x+1, 2→y-1, 3→x-1 |
| SmarterLeftWalking.ArrivedKeeps | src/main/java/main/SmarterLeftWalker.java:103-129 | entering the square changes only its own entry, so the scan sees the arrival mask and the mode and facing as they were |
| SmarterLeftWalking.InitialOnTrack | src/main/java/main/SmarterLeftWalker.java:90-100 | a new walker stands where its empty history leads |
| SmarterLeftWalking.ScanSpec | src/main/java/main/SmarterLeftWalker.java:202-231 | the scan finds an exit exactly when one is open and not marked, after the arrival edge is marked |
| SmarterLeftWalking.ForwardStep | src/main/java/main/SmarterLeftWalker.java:131-140 | a forward move through `d` is as follows. `d` is open, unused and not the arrival edge. Bit `d` is set in this square's mask. `(d, facing before)` is pushed, so the stack grows by one. The walker faces `d` and steps through it |
| SmarterLeftWalking.BacktrackStep | src/main/java/main/SmarterLeftWalker.java:141-148 | with no unused exit and a non-empty stack, `move` pops the top, restores its facing and steps in the opposite of its direction |
| SmarterLeftWalking.StuckIff | src/main/java/main/SmarterLeftWalker.java:150-158 | `move` returns null exactly when the history is empty and every direction is blocked or used; then the position stays put |
| SmarterLeftWalking.StepMarksCurrentSquare | src/main/java/main/SmarterLeftWalker.java:104-119 | the current square gets an entry, which has the arrival edge marked; no other entry changes |
| SmarterLeftWalking.LeavingMask | src/main/java/main/SmarterLeftWalker.java:104-134 | the current square's mask when the walker leaves keeps every bit of its arrival mask |
| SmarterLeftWalking.StepLookup | src/main/java/main/SmarterLeftWalker.java:104-134 | one call replaces only the current square's entry in the exit memory, by its leaving mask |
| SmarterLeftWalking.StepGrows | src/main/java/main/SmarterLeftWalker.java:104-134 | one call never removes an entry or clears a bit |
| SmarterLeftWalking.StepOnTrack | src/main/java/main/SmarterLeftWalker.java:131-153 | every call keeps the position equal to where the stacked moves lead from the origin |
| SmarterLeftWalking.BacktrackReturns | src/main/java/main/SmarterLeftWalker.java:141-153 | a backtrack returns the walker to the square it occupied before the matching push |
| SmarterLeftWalking.ForwardOrBack | src/main/java/main/SmarterLeftWalker.java:129-158 | each call pushes exactly one snapshot, pops exactly one, or returns null with the stack unchanged |
| SmarterLeftWalking.ForwardThenBacktrack | src/main/java/main/SmarterLeftWalker.java:131-153 | a forward move followed by a backtrack retraces it: same square, same history, opposite direction |
| SmarterLeftWalking.RunInvariant | src/main/java/main/SmarterLeftWalker.java:102-159 | over any sequence of calls the walker stays on track and its exit memory only grows |
| SmarterLeftWalking.SquareInfo.constructor | src/main/java/main/SmarterLeftWalker.java:55-57 | a record holds the mask it was created with |
| SmarterLeftWalking.SquareInfo.UpdateExitInfo | src/main/java/main/SmarterLeftWalker.java:59-61 | `updateExitInfo` sets the bit of the used direction in place |
| SmarterLeftWalking.SmarterLeftWalker.constructor | src/main/java/main/SmarterLeftWalker.java:90-100 | a new walker has no records, an empty history, is at the origin facing NORTH, and follows no wall |
| SmarterLeftWalking.SmarterLeftWalker.Move | src/main/java/main/SmarterLeftWalker.java:103-159 | `move` returns the direction, and leaves the fields, that `Step` gives, keeping the records distinct and the walker on track |
| SmarterLeftWalking.SmarterLeftWalker.Arrive | src/main/java/main/SmarterLeftWalker.java:104-119 | looks up or creates the square's record and marks the arrival edge; nothing else changes |
| SmarterLeftWalking.SmarterLeftWalker.Enter | src/main/java/main/SmarterLeftWalker.java:104-114 | the square's record, created with mask 0 when it is absent; other records are untouched |
| SmarterLeftWalking.SmarterLeftWalker.Mark | src/main/java/main/SmarterLeftWalker.java:116-119 | updating one square's record leaves every other square's mask unchanged |
| SmarterLeftWalking.SmarterLeftWalker.Scan | src/main/java/main/SmarterLeftWalker.java:121-129 | locates a wall when none is followed, then scans for the next move |
| SmarterLeftWalking.SmarterLeftWalker.Depart | src/main/java/main/SmarterLeftWalker.java:131-158 | the forward, backtrack and stuck branches of `move`, as `Departed` gives them |
| SmarterLeftWalking.SmarterLeftWalker.LocateLeftWall | src/main/java/main/SmarterLeftWalker.java:168-189 | returns whether a wall was located; the facing becomes the one with it on the left, or stays unchanged |
| SmarterLeftWalking.SmarterLeftWalker.FindNextMove | src/main/java/main/SmarterLeftWalker.java:202-231 | scans from the left of the facing when following a wall, and straight ahead otherwise. Returns the first open, unused direction or -1, never changes the facing, and clears the mode bit exactly when a used exit was skipped |
| SmarterLeftWalking.SmarterLeftWalker.ProbeFrom | src/main/java/main/SmarterLeftWalker.java:205-230 | the probing loop of `findNextMove` from a given first direction: returns the first open, unused direction clockwise from it (or -1), and clears the mode bit exactly when a used exit was skipped |
| SmarterLeftWalking.SmarterLeftWalker.UpdatePos | src/main/java/main/SmarterLeftWalker.java:233-247 | moves the position one unit in the given direction |

## Left out

- Main, KeyWalker, StepWalker and RandomWalker are not part of this model.
  - They cover command-line and file I/O, the GUI, keyboard events and `Math.random`.
- The `maze` package (`Board`, `View`, `Walker`, `Direction`) is not part of this model.
  - The view is a parameter: four booleans per call, indexed by direction code.
  - `getDirection` and `intToDirectionMapping` become the codes 0..3.
- The end-to-end maze runs in the tests are left out. They depend on the board parser and the GUI.
- `System.out.println("Cannot find next move")` is left out.
- Java `int` overflow of `posX`/`posY` is not modelled. Positions are unbounded integers.
- Exit masks are 4-bit values rather than 32-bit `int`s. The source only ever sets bits 0..3 of a mask that starts at 0, so nothing is lost.
- `Coord.equals`/`hashCode` are left out. Keys are a value type in a Dafny `map`.
- A `HashMap`'s hashing and iteration order are left out.
- `SmarterLeftWalker` records sit in a `map` of objects. Their masks are also tracked in a ghost map, which the class invariant keeps in step with the records. The `Stack` is modelled as a sequence.
