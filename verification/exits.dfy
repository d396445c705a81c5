/**
 * Per-square exit memory: a Java `int` used as a bit set over directions,
 * bit `d` meaning "this square has already been left in direction `d`".
 */
module Exits {
  import opened Compass

  /**
   * A square's record of used exits. The source stores it in a Java `int`,
   * but it starts at 0 and only ever has bits 0..3 set, so four bits hold it.
   */
  type Mask = bv4

  /** The mask with only the bit of direction `d` set (`1 << direction`). */
  function Bit(d: Dir): Mask
  {
    (1 as Mask) << d
  }

  /** Whether the exit in direction `d` has been used (`exitDirectionUsed`). */
  predicate ExitUsed(m: Mask, d: Dir)
  {
    (m & Bit(d)) != 0
  }

  /**
   * Marks the exit in direction `d` as used (`setUsedExitDirection`): the bit
   * of `d` is set, no bit is cleared, and every other bit, in particular the
   * record of every other direction, is as it was.
   */
  function SetUsed(m: Mask, d: Dir): (r: Mask)
    ensures ExitUsed(r, d)
    ensures (r & m) == m
    ensures (r & !Bit(d)) == (m & !Bit(d))
    ensures forall e: Dir :: e != d ==> (ExitUsed(r, e) <==> ExitUsed(m, e))
  {
    m | Bit(d)
  }

  /** The empty mask, given to a square on its first visit, records no exit. */
  lemma EmptyMaskUnused(d: Dir)
    ensures !ExitUsed(0, d)
  {
  }

  /** Marking an exit that is already marked changes nothing, and marking twice is marking once. */
  lemma SetUsedIdempotent(m: Mask, d: Dir)
    ensures ExitUsed(m, d) ==> SetUsed(m, d) == m
    ensures SetUsed(SetUsed(m, d), d) == SetUsed(m, d)
  {
  }

  /** The mask of `c` in `lookup`, or 0 when `c` has no entry yet (`getOrDefault(coord, 0)`). */
  function MaskAt(lookup: map<Coord, Mask>, c: Coord): Mask
  {
    if c in lookup then lookup[c] else 0
  }

  /**
   * `after` extends the exit memory `before`: every square known before is
   * still known, and every bit set before is still set.
   */
  ghost predicate Grows(before: map<Coord, Mask>, after: map<Coord, Mask>)
  {
    forall c :: c in before ==> c in after && (before[c] & after[c]) == before[c]
  }

  /** Growth of the exit memory is reflexive and transitive, so it holds along any run. */
  lemma GrowsTransitive(a: map<Coord, Mask>, b: map<Coord, Mask>, c: map<Coord, Mask>)
    ensures Grows(a, a)
    ensures Grows(a, b) && Grows(b, c) ==> Grows(a, c)
  {
    if Grows(a, b) && Grows(b, c) {
      forall k | k in a
        ensures k in c && (a[k] & c[k]) == a[k]
      {
        assert (a[k] & b[k]) == a[k];
        assert (b[k] & c[k]) == b[k];
        assert (a[k] & c[k]) == ((a[k] & b[k]) & c[k]) == (a[k] & (b[k] & c[k]));
      }
    }
  }

  /** Setting a bit in one square's entry (creating it if needed) grows the memory and keeps every bit of `d` that was set. */
  lemma MarkGrows(lookup: map<Coord, Mask>, c: Coord, d: Dir)
    ensures Grows(lookup, lookup[c := SetUsed(MaskAt(lookup, c), d)])
    ensures forall e: Dir :: ExitUsed(MaskAt(lookup, c), e) ==> ExitUsed(SetUsed(MaskAt(lookup, c), d), e)
  {
  }
}
