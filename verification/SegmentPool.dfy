/** Segments as heap objects and the free list they are recycled through. */
module SegmentPool {
  import opened SegmentList

  const ZERO_SEG := Seg(0, 0, 0, 0, 0, 0, 0, 0, 0)

  /** A segment: its data and its two links. */
  class Segment {
    var data: Seg
    var next: Segment?
    var prev: Segment?

    constructor ()
      ensures data == ZERO_SEG && next == null && prev == null
    {
      data, next, prev := ZERO_SEG, null, null;
    }
  }

  /** The stack of released segments. live are the segments handed out and not yet released. */
  class Pool {
    var flist: Segment?
    ghost var free: seq<Segment>
    ghost var freeSet: set<Segment>
    ghost var live: set<Segment>

    /** The free list is linked, holds exactly the segments of freeSet, and all of them are zero. */
    ghost predicate Valid()
      reads this, freeSet
    {
      && freeSet !! live
      && (forall i {:trigger free[i]} :: 0 <= i < |free| ==> free[i] in freeSet)
      && (forall x {:trigger x in free} :: x in freeSet ==> x in free)
      && (forall x {:trigger x.data} :: x in freeSet ==> x.data == ZERO_SEG)
      && (forall x {:trigger x.prev} :: x in freeSet ==> x.prev == null)
      && flist == (if free == [] then null else free[0])
      && (free != [] ==> free[|free| - 1].next == null)
      && (forall i {:trigger free[i].next} :: 0 <= i < |free| - 1 ==> free[i].next == free[i + 1])
      && (forall i, j :: 0 <= i < j < |free| ==> free[i] != free[j])
    }

    constructor ()
      ensures Valid() && free == [] && live == {}
    {
      flist := null;
      free, freeSet, live := [], {}, {};
    }

    /** All segments ever allocated. */
    ghost function All(): set<Segment>
      reads this
    {
      live + freeSet
    }

    /** The segment that will be handed out next, if there is one. */
    ghost function Top(): set<Segment>
      reads this
    {
      if free == [] then {} else {free[0]}
    }

    /** The free list without it. */
    ghost function Rest(): seq<Segment>
      reads this
    {
      if free == [] then [] else free[1..]
    }

    /** segment_alloc: the segment released last, or a new one if there is none. It is all zero either way. */
    method Alloc() returns (s: Segment)
      requires Valid()
      modifies this, Top()
      ensures Valid()
      ensures free == old(Rest()) && freeSet == old(freeSet) - {s}
      ensures if old(free) == [] then fresh(s) else s == old(free)[0] && s in old(freeSet)
      ensures s !in old(live) && live == old(live) + {s}
      ensures s.data == ZERO_SEG && s.next == null && s.prev == null
    {
      if flist == null {
        s := new Segment();
      } else {
        s := flist;
        flist := flist.next;
        free := free[1..];
        assert forall x :: x in old(free) <==> x == s || x in free;
      }
      freeSet, live := freeSet - {s}, live + {s};
      s.next := null;
    }

    /** segment_release: the segment is cleared and becomes the next one to be handed out. */
    method Release(s: Segment)
      requires Valid() && s in live
      modifies this, s
      ensures Valid()
      ensures free == [s] + old(free) && freeSet == old(freeSet) + {s} && live == old(live) - {s}
    {
      s.data, s.prev := ZERO_SEG, null;
      s.next := flist;
      flist := s;
      free := [s] + free;
      freeSet, live := freeSet + {s}, live - {s};
    }
  }
}
