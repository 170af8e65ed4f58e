/**
 Local clocks: a zone is a base offset and a list of transitions, each of which changes the
 offset from one instant on. All times count microseconds. A wall time is read the way
 `zoneinfo` reads it with `fold=0`: a repeated wall time means its first pass, and a skipped one
 uses the offset from before the gap.
 */
module Zones {

  datatype Transition = Transition(at: int, offset: int)
  datatype Zone = Zone(base: int, transitions: seq<Transition>)

  function Max(a: int, b: int): int { if a < b then b else a }
  function Min(a: int, b: int): int { if a < b then a else b }

  /** The offset in force after the first k transitions. */
  function Offset(z: Zone, k: nat): int
    requires k <= |z.transitions|
  {
    if k == 0 then z.base else z.transitions[k - 1].offset
  }

  /** The wall time at which the k-th offset takes over when wall times are read with fold 0. */
  function WallStart(z: Zone, k: nat): int
    requires 1 <= k <= |z.transitions|
  {
    z.transitions[k - 1].at + Max(Offset(z, k - 1), Offset(z, k))
  }

  /** Transitions are in order, and the clock change of each is over before the next begins. */
  predicate WellSeparated(z: Zone)
  {
    forall k :: 1 <= k < |z.transitions| ==>
      && z.transitions[k - 1].at < z.transitions[k].at
      && WallStart(z, k) <= z.transitions[k].at + Min(Offset(z, k), Offset(z, k + 1))
  }

  /** How many transitions, among the first k, have happened by a UTC instant. */
  function Segment(z: Zone, utc: int, k: nat): (i: nat)
    requires k <= |z.transitions|
    ensures i <= k && (i > 0 ==> z.transitions[i - 1].at <= utc)
  {
    if k == 0 || z.transitions[k - 1].at <= utc then k else Segment(z, utc, k - 1)
  }

  function Current(z: Zone, utc: int): nat
  {
    Segment(z, utc, |z.transitions|)
  }

  function LocalOf(z: Zone, utc: int): int
  {
    utc + Offset(z, Current(z, utc))
  }

  function WallSegment(z: Zone, wall: int, k: nat): (i: nat)
    requires k <= |z.transitions|
    ensures i <= k && (i > 0 ==> WallStart(z, i) <= wall)
    ensures i < k ==> wall < WallStart(z, i + 1)
  {
    if k == 0 || WallStart(z, k) <= wall then k else WallSegment(z, wall, k - 1)
  }

  /** `datetime(..., tzinfo=zone).astimezone(utc)`. */
  function UtcOf(z: Zone, wall: int): int
  {
    wall - Offset(z, WallSegment(z, wall, |z.transitions|))
  }

  /** The instant lies in the second pass of a repeated stretch of wall time (`fold == 1`). */
  predicate SecondPass(z: Zone, utc: int)
  {
    Current(z, utc) > 0 && LocalOf(z, utc) < WallStart(z, Current(z, utc))
  }

  lemma {:induction false} WallStartsSorted(z: Zone, j: nat, k: nat)
    requires WellSeparated(z) && 1 <= j <= k <= |z.transitions|
    ensures WallStart(z, j) <= WallStart(z, k)
    ensures j < k ==> WallStart(z, j) <= z.transitions[k - 1].at + Min(Offset(z, k - 1), Offset(z, k))
    decreases k
  {
    if j < k {
      WallStartsSorted(z, j, k - 1);
    }
  }

  /**
   Reading a later wall time gives a later instant, except that a wall time which still falls
   inside the repeated stretch whose second pass is under way reads as its first pass, and so
   lies in the past.
   */
  lemma LaterWallIsLaterIff(z: Zone, utc: int, wall: int)
    requires WellSeparated(z) && wall > LocalOf(z, utc)
    ensures UtcOf(z, wall) > utc <==> !(Current(z, utc) > 0 && wall < WallStart(z, Current(z, utc)))
  {
    hide WellSeparated;
    var i, k := Current(z, utc), WallSegment(z, wall, |z.transitions|);
    if k > i {
      TransitionsAhead(z, utc, k);
      if i > 0 {
        WallStartsSorted(z, i, k);
      }
    } else if k < i {
      WallStartsSorted(z, k + 1, i);
    }
  }

  /** In a second pass, a wall time still ahead in the repeated stretch reads as its first pass: with the offset from before the change. */
  lemma RepeatReadsFirstPass(z: Zone, utc: int, wall: int)
    requires WellSeparated(z) && Current(z, utc) > 0 && LocalOf(z, utc) < wall < WallStart(z, Current(z, utc))
    ensures UtcOf(z, wall) == wall - Offset(z, Current(z, utc) - 1)
  {
    hide WellSeparated;
    var i, k := Current(z, utc), WallSegment(z, wall, |z.transitions|);
    if k >= i {
      WallStartsSorted(z, i, k);
      assert false;
    } else if k < i - 1 {
      WallStartsSorted(z, k + 1, i);
      assert false;
    }
  }

  lemma TransitionsAhead(z: Zone, utc: int, k: nat)
    requires WellSeparated(z) && Current(z, utc) < k <= |z.transitions|
    ensures utc < z.transitions[k - 1].at
  {
    SegmentStops(z, utc, |z.transitions|, k);
  }

  lemma {:induction false} SegmentStops(z: Zone, utc: int, n: nat, k: nat)
    requires n <= |z.transitions| && Segment(z, utc, n) < k <= n
    ensures utc < z.transitions[k - 1].at
  {
    if k < n {
      SegmentStops(z, utc, n - 1, k);
    }
  }

  /** Going to the local clock and back is exact except in a second pass. */
  lemma LocalRoundTripIff(z: Zone, utc: int)
    requires WellSeparated(z)
    ensures UtcOf(z, LocalOf(z, utc)) == utc <==> !SecondPass(z, utc)
  {
    hide WellSeparated;
    var wall := LocalOf(z, utc);
    var i, k := Current(z, utc), WallSegment(z, wall, |z.transitions|);
    if k > i {
      TransitionsAhead(z, utc, i + 1);
      WallStartsSorted(z, i + 1, k);
      assert false;
    } else if k < i {
      WallStartsSorted(z, k + 1, i);
      assert k + 1 == i && SecondPass(z, utc);
    }
  }

  // ---- clock changes of bounded length ----

  /** No clock change skips more wall time than this. */
  predicate SkipsAtMost(z: Zone, limit: int)
  {
    forall k :: 1 <= k <= |z.transitions| ==> Offset(z, k) - Offset(z, k - 1) <= limit
  }

  /** Clock changes are at least this far apart. */
  predicate ChangesApart(z: Zone, distance: int)
  {
    forall k :: 1 <= k < |z.transitions| ==> z.transitions[k - 1].at + distance <= z.transitions[k].at
  }

  /** One change and the next: in order, and the first is over before the second begins. */
  lemma SeparatedAt(z: Zone, k: nat)
    requires WellSeparated(z) && 1 <= k < |z.transitions|
    ensures z.transitions[k - 1].at < z.transitions[k].at
    ensures WallStart(z, k) <= z.transitions[k].at + Min(Offset(z, k), Offset(z, k + 1))
  {
  }

  lemma {:induction false} ChangesSorted(z: Zone, j: nat, k: nat)
    requires WellSeparated(z) && 1 <= j <= k <= |z.transitions|
    ensures z.transitions[j - 1].at <= z.transitions[k - 1].at
    decreases k
  {
    hide WellSeparated;
    if j < k {
      SeparatedAt(z, k - 1);
      ChangesSorted(z, j, k - 1);
    }
  }

  lemma {:induction false} SegmentIs(z: Zone, utc: int, k: nat, n: nat)
    requires WellSeparated(z) && k <= n <= |z.transitions|
    requires k > 0 ==> z.transitions[k - 1].at <= utc
    requires k < |z.transitions| ==> utc < z.transitions[k].at
    ensures Segment(z, utc, n) == k
    decreases n
  {
    hide WellSeparated;
    if k < n {
      ChangesSorted(z, k + 1, n);
      SegmentIs(z, utc, k, n - 1);
    }
  }

  lemma {:induction false} WallSegmentIs(z: Zone, wall: int, k: nat, n: nat)
    requires WellSeparated(z) && k <= n <= |z.transitions|
    requires k > 0 ==> WallStart(z, k) <= wall
    requires k < |z.transitions| ==> wall < WallStart(z, k + 1)
    ensures WallSegment(z, wall, n) == k
    decreases n
  {
    hide WellSeparated;
    if k < n {
      WallStartsSorted(z, k + 1, n);
      WallSegmentIs(z, wall, k, n - 1);
    }
  }

  /** What the local clock shows just before a change. */
  lemma JustBeforeChange(z: Zone, k: nat)
    requires WellSeparated(z) && 1 <= k <= |z.transitions|
    ensures LocalOf(z, z.transitions[k - 1].at - 1) == z.transitions[k - 1].at - 1 + Offset(z, k - 1)
  {
    hide WellSeparated;
    if k > 1 {
      SeparatedAt(z, k - 1);
    }
    SegmentIs(z, z.transitions[k - 1].at - 1, k - 1, |z.transitions|);
  }

  /** A wall time is read as an instant at which the offset used is in force, or the change to come skips that wall time. */
  lemma ReadInOrSkipped(z: Zone, wall: int)
    ensures var k := WallSegment(z, wall, |z.transitions|);
      && (k > 0 ==> z.transitions[k - 1].at <= UtcOf(z, wall))
      && (k < |z.transitions| && z.transitions[k].at <= UtcOf(z, wall) ==>
          z.transitions[k].at + Offset(z, k) <= wall < z.transitions[k].at + Offset(z, k + 1))
  {
  }

  /** When the skipped stretch before the k-th offset has positive length, its first wall time is read as the moment of the change. */
  lemma SkipStartIsChange(z: Zone, k: nat)
    requires WellSeparated(z) && 1 <= k <= |z.transitions| && Offset(z, k) > Offset(z, k - 1)
    ensures UtcOf(z, z.transitions[k - 1].at + Offset(z, k - 1)) == z.transitions[k - 1].at
  {
    hide WellSeparated;
    if k > 1 {
      SeparatedAt(z, k - 1);
    }
    WallSegmentIs(z, z.transitions[k - 1].at + Offset(z, k - 1), k - 1, |z.transitions|);
  }

  /**
   The local clock shows some time within `limit` before any given wall time; or the last thing it
   shows is one short of that, and the wall times at both ends of the skipped stretch are read as the
   same instant.
   */
  lemma ShownBefore(z: Zone, wall: int, limit: int) returns (utc: int)
    requires WellSeparated(z) && SkipsAtMost(z, limit) && limit > 0
    ensures LocalOf(z, utc) < wall
    ensures wall - limit <= LocalOf(z, utc) || (LocalOf(z, utc) == wall - limit - 1 && UtcOf(z, wall - limit) == UtcOf(z, wall))
  {
    hide WellSeparated, LocalOf, WallSegment;
    var k, next := WallSegment(z, wall, |z.transitions|), UtcOf(z, wall);
    ReadInOrSkipped(z, wall);
    if k < |z.transitions| && z.transitions[k].at <= next {
      JustBeforeChange(z, k + 1);
      utc := z.transitions[k].at - 1;
      assert Offset(z, k + 1) - Offset(z, k) <= limit;
    } else if k > 0 && next == z.transitions[k - 1].at {
      JustBeforeChange(z, k);
      utc := next - 1;
      assert Offset(z, k) - Offset(z, k - 1) <= limit;
      hide SkipsAtMost;
      if Offset(z, k) - Offset(z, k - 1) == limit {
        SkipStartIsChange(z, k);
      }
    } else {
      utc := next - 1;
      ShownAt(z, utc, k);
    }
  }

  lemma ShownAt(z: Zone, utc: int, k: nat)
    requires WellSeparated(z) && k <= |z.transitions|
    requires (k > 0 ==> z.transitions[k - 1].at <= utc) && (k < |z.transitions| ==> utc < z.transitions[k].at)
    ensures LocalOf(z, utc) == utc + Offset(z, k)
  {
    hide WellSeparated;
    SegmentIs(z, utc, k, |z.transitions|);
  }

  /** Where no change skips more than `limit` and changes are that far apart, a wall time later by that much is no earlier an instant. */
  lemma FarWallIsNoEarlier(z: Zone, wall: int, later: int, limit: int)
    requires WellSeparated(z) && SkipsAtMost(z, limit) && ChangesApart(z, limit) && limit >= 0
    requires later == wall || later >= wall + limit
    ensures UtcOf(z, wall) <= UtcOf(z, later)
  {
    hide WellSeparated, WallSegment;
    var j, k := WallSegment(z, wall, |z.transitions|), WallSegment(z, later, |z.transitions|);
    ReadInOrSkipped(z, wall);
    ReadInOrSkipped(z, later);
    if k < j {
      WallStartsSorted(z, k + 1, j);
      assert false;
    } else if j < k {
      assert Offset(z, j + 1) - Offset(z, j) <= limit;
      assert j + 1 < k ==> z.transitions[j].at + limit <= z.transitions[j + 1].at;
      hide SkipsAtMost, ChangesApart;
      ChangesSorted(z, j + 1, k);
      if j + 1 < k {
        ChangesSorted(z, j + 2, k);
      }
    }
  }
}
