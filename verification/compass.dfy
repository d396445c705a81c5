/**
 * Direction arithmetic shared by both walkers. Directions are the integer
 * codes 0..3 for NORTH, EAST, SOUTH, WEST (the order of
 * `intToDirectionMapping`), so that turning is arithmetic modulo 4.
 */
module Compass {

  /** A compass direction code: 0 = NORTH, 1 = EAST, 2 = SOUTH, 3 = WEST. */
  type Dir = d: int | 0 <= d < 4

  const North: Dir := 0
  const East: Dir := 1
  const South: Dir := 2
  const West: Dir := 3

  /** A quarter turn counter-clockwise. */
  function LeftOf(d: Dir): Dir
  {
    (d + 3) % 4
  }

  /** A quarter turn clockwise. */
  function RightOf(d: Dir): Dir
  {
    (d + 1) % 4
  }

  /** A half turn. */
  function OppositeOf(d: Dir): Dir
  {
    (d + 2) % 4
  }

  /** Each turn, with its wrap-around between WEST and NORTH written out. */
  lemma TurnValues(d: Dir)
    ensures LeftOf(d) == if d == North then West else d - 1
    ensures RightOf(d) == if d == West then North else d + 1
    ensures OppositeOf(d) == if d < South then d + 2 else d - 2
  {
  }

  /** Turning left and then right (or right and then left) faces the same way again. */
  lemma LeftRightInverse(d: Dir)
    ensures RightOf(LeftOf(d)) == d
    ensures LeftOf(RightOf(d)) == d
  {
  }

  /** Four clockwise quarter turns are the identity, and fewer are not. */
  lemma RightOfFourTimes(d: Dir)
    ensures RightOf(RightOf(RightOf(RightOf(d)))) == d
    ensures RightOf(d) != d && RightOf(RightOf(d)) != d && RightOf(RightOf(RightOf(d))) != d
  {
  }

  /** The half turn is two quarter turns, and undoes itself. */
  lemma OppositeInvolution(d: Dir)
    ensures OppositeOf(d) == RightOf(RightOf(d))
    ensures OppositeOf(OppositeOf(d)) == d
    ensures OppositeOf(d) != d
  {
  }

  /**
   * The direction a probing loop tests on its `i`-th probe when it starts at
   * `start` and turns clockwise after each probe.
   */
  function Probe(start: Dir, i: nat): Dir
  {
    if i == 0 then start else RightOf(Probe(start, i - 1))
  }

  /** Among the first four probes, the `i`-th is `i` quarter turns clockwise from the start. */
  lemma {:induction false} ProbeValue(start: Dir, i: nat)
    requires i <= 4
    ensures Probe(start, i) == if start + i < 4 then start + i else start + i - 4
  {
    if i > 0 {
      ProbeValue(start, i - 1);
      TurnValues(Probe(start, i - 1));
    }
  }

  /** One more clockwise turn is the next probe; the fourth turn comes back to the start, and no earlier turn does. */
  lemma ProbeStep(start: Dir, i: nat)
    requires i < 4
    ensures RightOf(Probe(start, i)) == Probe(start, i + 1)
    ensures Probe(start, i + 1) == start <==> i + 1 == 4
  {
    ProbeValue(start, i + 1);
  }

  /** The first four probes visit every direction: `d` is probed at step `ProbeIndex(start, d)`. */
  function ProbeIndex(start: Dir, d: Dir): (i: nat)
    ensures i < 4 && Probe(start, i) == d
  {
    var i := if start <= d then d - start else d - start + 4;
    ProbeValue(start, i);
    i
  }

  /** A square of the walker's dead-reckoned grid. */
  datatype Coord = Coord(x: int, y: int)

  const Origin := Coord(0, 0)

  /** The square one step away in direction `d` (the effect of `updatePos`). */
  function Moved(c: Coord, d: Dir): Coord
  {
    match d
    case 0 => c.(y := c.y + 1)
    case 1 => c.(x := c.x + 1)
    case 2 => c.(y := c.y - 1)
    case 3 => c.(x := c.x - 1)
  }

  function Abs(n: int): nat
  {
    if n < 0 then -n else n
  }

  /** Whether `a` and `b` are neighbouring squares: they differ by one in exactly one coordinate. */
  predicate Adjacent(a: Coord, b: Coord)
  {
    Abs(b.x - a.x) + Abs(b.y - a.y) == 1
  }

  /** A step always lands on a neighbouring square. */
  lemma MovedIsAdjacent(c: Coord, d: Dir)
    ensures Adjacent(c, Moved(c, d))
  {
  }

  /** Stepping back in the opposite direction returns to the square one came from. */
  lemma MovedOpposite(c: Coord, d: Dir)
    ensures Moved(Moved(c, d), OppositeOf(d)) == c
  {
  }

  /**
   * The direction that leads from `from` to `to`, judged by the first of
   * `dx == 1`, `dx == -1`, `dy == 1`, `dy == -1` that holds, and -1 when none
   * does.
   */
  function DirectionFromTo(from: Coord, to: Coord): (r: int)
    ensures -1 <= r < 4
    ensures r == -1 <==> (to.x - from.x != 1 && to.x - from.x != -1 && to.y - from.y != 1 && to.y - from.y != -1)
  {
    var dx := to.x - from.x;
    var dy := to.y - from.y;
    if dx == 1 then 1
    else if dx == -1 then 3
    else if dy == 1 then 0
    else if dy == -1 then 2
    else -1
  }

  /** `DirectionFromTo` recovers the direction of a single step, and finds none between a square and itself. */
  lemma DirectionFromToInvertsMoved(c: Coord, d: Dir)
    ensures DirectionFromTo(c, Moved(c, d)) == d
    ensures DirectionFromTo(c, c) == -1
  {
  }

  /** Conversely, between neighbouring squares the direction found leads from one to the other. */
  lemma MovedInvertsDirectionFromTo(from: Coord, to: Coord)
    requires Adjacent(from, to)
    ensures 0 <= DirectionFromTo(from, to) < 4
    ensures Moved(from, DirectionFromTo(from, to)) == to
  {
  }
}
