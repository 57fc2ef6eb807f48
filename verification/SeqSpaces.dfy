/** The sequence space of a flow direction as a heap object, and the methods of rexmit.c that slide and fill its window. */
module SeqSpaces {
  import opened Common
  import opened SequenceNumbers
  import opened SegmentList
  import opened SegmentPool
  import opened SequenceSpace
  import opened Quadrants

  /** A slot as a value. */
  ghost function Slot(q: Quadrant?): Option<Quad>
    reads if q == null then {} else {q}
  {
    if q == null then None else Some(Quad(q.vals, q.full))
  }

  ghost function OwnOf(q: Quadrant?): set<Segment>
    reads if q == null then {} else {q}
  {
    if q == null then {} else q.own
  }

  ghost function Present(q: Quadrant?): set<Quadrant> {
    if q == null then {} else {q}
  }

  ghost function Union(o: seq<set<Segment>>): set<Segment>
    requires |o| == 4
  {
    o[0] + o[1] + o[2] + o[3]
  }

  lemma UnionWithout(o: seq<set<Segment>>, i: Index)
    requires |o| == 4 && forall j | 0 <= j < 4 && j != i :: o[j] !! o[i]
    ensures Union(o[i := {}]) == Union(o) - o[i] && o[i] <= Union(o)
  {
  }

  /** One list changes; what the pool has handed out elsewhere does not. */
  lemma UnionReplace(o: seq<set<Segment>>, i: Index, x: set<Segment>, live: set<Segment>, live': set<Segment>)
    requires |o| == 4 && live' - x == live - o[i]
    ensures live' - Union(o[i := x]) == live - Union(o)
  {
    forall y ensures y in live' - Union(o[i := x]) <==> y in live - Union(o) {
      assert y in live' - x <==> y in live - o[i];
      if i == 0 {} else if i == 1 {} else if i == 2 {} else {}
    }
  }

  lemma NeighboursDistinct(c: Index)
    ensures c != Next(c) && Next(c) != Prev(c) && Prev(c) != c
    ensures c != Opposite(c) && Next(c) != Opposite(c) && Prev(c) != Opposite(c)
  {
  }

  /** Slots that are kept or created around c and dropped opposite to it are those of the window moved to c. */
  lemma RecentreBySlots(sp: Space, slots: seq<Option<Quad>>, c: Index)
    requires Window(sp) && |slots| == 4
    requires slots[c] == Kept(sp.slots[c]) && slots[Next(c)] == Kept(sp.slots[Next(c)])
    requires slots[Prev(c)] == Kept(sp.slots[Prev(c)]) && slots[Opposite(c)] == None
    ensures Space(slots, c) == Recentre(sp, c)
  {
    NeighboursDistinct(c);
    forall i | 0 <= i < 4 ensures slots[i] == Recentre(sp, c).slots[i] {
      assert i == c || i == Next(c) || i == Prev(c) || i == Opposite(c);
    }
  }

  lemma RecentreSame(sp: Space)
    requires Window(sp) && sp.centre >= 0
    ensures Recentre(sp, sp.centre) == sp
  {
  }

  /** What a space and the free list have together grows by what one of its lists and the free list gain. */
  lemma SetsGrow(segs: set<Segment>, own: set<Segment>, free: set<Segment>,
                 segs0: set<Segment>, own0: set<Segment>, free0: set<Segment>, grown: set<Segment>)
    requires own0 <= segs0 && segs <= segs0 + own && own + free <= own0 + free0 + grown
    ensures segs + free <= segs0 + free0 + grown
  {
  }

  twostate lemma BothFresh(new some: set<Segment>, new more: set<Segment>)
    requires fresh(some) && fresh(more)
    ensures fresh(some + more)
  {
  }

  /** Recording a piece changes one slot. */
  lemma AddPieceForm(r: Recorded, slots: seq<Option<Quad>>, i: Index, piece: (SeqNum, SeqNum), now: int, ip: int)
    requires Window(r.space) && r.space.slots[i].Some? && |slots| == 4
    requires forall j :: 0 <= j < 4 && j != i ==> slots[j] == r.space.slots[j]
    requires var quad := r.space.slots[i].value;
             slots[i] == Some(Quad(SegmentList.AddSeg(quad.segs, piece.0, piece.1, now, ip).list, quad.full))
    ensures var a, t := SegmentList.AddSeg(r.space.slots[i].value.segs, piece.0, piece.1, now, ip), AddPiece(r, i, piece, now, ip);
            t.space == Space(slots, r.space.centre) && t.bytes == r.bytes + a.bytes && t.outOfOrder == (r.outOfOrder || a.outOfOrder)
  {
    assert AddPiece(r, i, piece, now, ip).space.slots == slots;
  }

  /** The recording of a packet in one piece, and in two. */
  lemma RecordOne(sp: Space, s: SeqNum, len: nat, now: int, ip: int, r: Recorded, t: Recorded)
    requires Window(sp) && sp.centre >= 0 && !Boundary(s, LastByte(s, len)) && r == Recorded(sp, 0, false)
    requires t == AddPiece(r, sp.centre, (s, LastByte(s, len)), now, ip)
    ensures SequenceSpace.Record(sp, Cut(s, len), now, ip) == t
  {
  }

  lemma RecordTwo(sp: Space, s: SeqNum, len: nat, len1: nat, s2: SeqNum, now: int, ip: int, r: Recorded, t: Recorded)
    requires Window(sp) && sp.centre >= 0 && Boundary(s, LastByte(s, len)) && r == Recorded(sp, 0, false)
    requires len1 == Wrap(LastSeq(QuadNumOf(s)) - s + 1) && s2 == FirstSeq(QuadNumOf(LastByte(s, len)))
    requires t == AddPiece(AddPiece(r, sp.centre, (s, LastByte(s, len1)), now, ip),
                           Next(sp.centre), (s2, LastByte(s2, len - len1)), now, ip)
    ensures SequenceSpace.Record(sp, Cut(s, len), now, ip) == t
  {
  }

  /** Acking changes the slot of the centre and the one before it. */
  lemma AcknowledgeForm(sp: Space, t: Space, ack: SeqNum, dataLen: nat, now: int)
    requires Window(sp) && sp.centre >= 0 && |t.slots| == 4 && t.centre == sp.centre
    requires forall j :: 0 <= j < 4 && j != sp.centre && j != Prev(sp.centre) ==> t.slots[j] == sp.slots[j]
    requires t.slots[Prev(sp.centre)] == Some(AfterWalk(sp.slots[Prev(sp.centre)].value, FirstWalk(sp)))
    requires t.slots[sp.centre] == Some(AfterWalk(sp.slots[sp.centre].value, SecondWalk(sp, ack, dataLen, now)))
    ensures SequenceSpace.Acknowledge(sp, ack, dataLen, now) == t
  {
    assert SequenceSpace.Acknowledge(sp, ack, dataLen, now).slots == t.slots;
  }

  /** Of the quadrants of a window that moves to c, those that are still handed out are in one of the three slots around c. */
  lemma StillThree(o: seq<Quadrant?>, t: seq<Quadrant?>, quads: set<Quadrant>, live: set<Quadrant>, c: Index)
    requires |o| == 4 && |t| == 4 && forall x :: x in quads ==> x == o[0] || x == o[1] || x == o[2] || x == o[3]
    requires (o[c] != null ==> t[c] == o[c]) && (o[Next(c)] != null ==> t[Next(c)] == o[Next(c)])
    requires (o[Prev(c)] != null ==> t[Prev(c)] == o[Prev(c)]) && (o[Opposite(c)] != null ==> o[Opposite(c)] !in live)
    ensures var three := Present(t[c]) + Present(t[Next(c)]) + Present(t[Prev(c)]);
            (quads + three) * live <= three
  {
    NeighboursDistinct(c);
  }

  /** Quadrants that go from the space to the free list. */
  lemma HandedBack(quads: set<Quadrant>, free: set<Quadrant>, live: set<Quadrant>, gone: set<Quadrant>)
    requires gone <= quads
    ensures quads + (free + gone) == quads + free && (live - gone) - quads == live - quads
  {
  }

  lemma Trimmed(quads: set<Quadrant>, three: set<Quadrant>, free: set<Quadrant>, live: set<Quadrant>)
    requires three <= quads && quads * live <= three
    ensures three + free <= quads + free && live - three == live - quads
  {
    forall x | x in live - three ensures x !in quads {
      assert x in quads ==> x in quads * live;
    }
  }

  method LinkThree(q: Quadrant, n: Quadrant, p: Quadrant)
    requires q != n && q != p && n != p
    modifies q`prev, q`next, n`prev, n`next, p`prev, p`next
    ensures q.next == n && q.prev == p && n.prev == q && p.next == q && n.next == null && p.prev == null
  {
    q.prev, q.next := p, n;
    n.prev, p.next := q, q;
    n.next, p.prev := null, null;
  }

  /** One direction of a flow: the four slots of its sequence space and its RTT counters. */
  class Tcb {
    const pquad: array<Quadrant?>
    var rtt: RttCounters
    ghost var centre: int
    ghost var quads: set<Quadrant>

    constructor (ghost pool: Pool, ghost qpool: QuadPool)
      requires pool.Valid() && qpool.Valid()
      ensures Valid(pool, qpool) && fresh(pquad)
      ensures Direction(Abs(), rtt, []) == NEW_DIRECTION && Segments() == {} && quads == {}
    {
      pquad := new Quadrant?[4](_ => null);
      rtt, centre, quads := NO_RTT, -1, {};
    }

    /** The four slots as values. */
    ghost function Slots(): (slots: seq<Option<Quad>>)
      requires pquad.Length == 4
      reads pquad, pquad[..]
      ensures |slots| == 4 && forall i :: 0 <= i < 4 ==> slots[i] == Slot(pquad[i])
    {
      seq(4, i requires 0 <= i < 4 reads pquad, pquad[..] => Slot(pquad[i]))
    }

    /** The segments of the four lists. */
    ghost function Lists(): (lists: seq<set<Segment>>)
      requires pquad.Length == 4
      reads pquad, pquad[..]
      ensures |lists| == 4 && forall i :: 0 <= i < 4 ==> lists[i] == OwnOf(pquad[i])
    {
      seq(4, i requires 0 <= i < 4 reads pquad, pquad[..] => OwnOf(pquad[i]))
    }

    ghost function Segments(): set<Segment>
      requires pquad.Length == 4
      reads pquad, pquad[..]
    {
      Union(Lists())
    }

    /** The segments of this space and those free to be used. */
    ghost function Everything(pool: Pool): set<Segment>
      requires pquad.Length == 4
      reads pquad, pquad[..], pool
    {
      Segments() + pool.freeSet
    }

    /** The segments handed out to other spaces. */
    ghost function Others(pool: Pool): set<Segment>
      requires pquad.Length == 4
      reads pquad, pquad[..], pool
    {
      pool.live - Segments()
    }

    /** The quadrants handed out to other spaces. */
    ghost function OtherQuads(qpool: QuadPool): set<Quadrant>
      reads this`quads, qpool
    {
      qpool.live - quads
    }

    /** The quadrants of this space and those free to be used. */
    ghost function Reach(qpool: QuadPool): set<Quadrant>
      reads this`quads, qpool
    {
      quads + qpool.freeSet
    }

    /** The quadrants of three slots. */
    ghost function Three(a: Index, b: Index, c: Index): set<Quadrant>
      requires pquad.Length == 4
      reads pquad
    {
      Present(pquad[a]) + Present(pquad[b]) + Present(pquad[c])
    }

    /** Every existing quadrant but that of slot gap owns its list, and no quadrant or segment is in two places. */
    ghost predicate BaseBut(pool: Pool, qpool: QuadPool, gap: int)
      requires pquad.Length == 4
      reads this`quads, pquad, quads, pool, pool.live, pool.freeSet, qpool, qpool.freeSet
    {
      && pool.Valid() && qpool.Valid()
      && (forall i {:trigger pquad[i]} :: 0 <= i < 4 && i != gap && pquad[i] != null ==>
           pquad[i] in qpool.live && pquad[i] in quads && pquad[i].own <= pool.live && pquad[i].ListOk())
      && (forall i {:trigger pquad[i]} :: 0 <= i < 4 && pquad[i] != null ==> pquad[i] in quads)
      && (forall i, j {:trigger pquad[i], pquad[j]} ::
           0 <= i < 4 && 0 <= j < 4 && i != j && pquad[i] != null && pquad[j] != null ==>
           pquad[i] != pquad[j] && pquad[i].own !! pquad[j].own)
    }

    ghost predicate Base(pool: Pool, qpool: QuadPool)
      requires pquad.Length == 4
      reads this`quads, pquad, quads, pool, pool.live, pool.freeSet, qpool, qpool.freeSet
    {
      BaseBut(pool, qpool, -1)
    }

    /** create_quadrant: an empty quadrant. The window does not notice. */
    method CreateQuadrant(pool: Pool, qpool: QuadPool) returns (q: Quadrant)
      requires pquad.Length == 4 && Base(pool, qpool)
      modifies qpool, qpool.Top()
      ensures Base(pool, qpool)
      ensures forall j :: 0 <= j < 4 && pquad[j] != null ==> pquad[j] != q
      ensures q in qpool.live && q.Zeroed() && q.Owns(pool)
      ensures (q in old(qpool.freeSet) || fresh(q)) && qpool.freeSet == old(qpool.freeSet) - {q}
      ensures q !in old(qpool.live) && qpool.live == old(qpool.live) + {q}
      ensures Slots() == old(Slots()) && Lists() == old(Lists())
    {
      q := qpool.Alloc();
    }

    /** The new quadrant takes its slot. */
    method Put(pool: Pool, qpool: QuadPool, i: Index, q: Quadrant)
      requires pquad.Length == 4 && Base(pool, qpool) && pquad[i] == null
      requires forall j :: 0 <= j < 4 && pquad[j] != null ==> pquad[j] != q
      requires q in qpool.live && q.Zeroed() && q.Owns(pool)
      modifies pquad, this`quads
      ensures Base(pool, qpool) && pquad[i] == q && quads == old(quads) + {q}
      ensures forall j :: 0 <= j < 4 && j != i ==> pquad[j] == old(pquad[j])
      ensures Slots()[i] == Some(EMPTY_QUAD) && Lists() == old(Lists())
      ensures forall j :: 0 <= j < 4 && j != i ==> Slots()[j] == old(Slots())[j]
    {
      pquad[i] := q;
      quads := quads + {q};
    }

    /** whichquad makes sure that quadrant i exists. */
    method Ensure(pool: Pool, qpool: QuadPool, i: Index)
      requires pquad.Length == 4 && Base(pool, qpool)
      modifies pquad, qpool, Reach(qpool), this`quads
      ensures Base(pool, qpool) && pquad[i] != null
      ensures forall j :: 0 <= j < 4 && j != i ==> pquad[j] == old(pquad[j]) && Slots()[j] == old(Slots())[j]
      ensures Slots()[i] == Kept(old(Slots())[i]) && Lists() == old(Lists())
      ensures fresh(Reach(qpool) - old(Reach(qpool))) && OtherQuads(qpool) == old(OtherQuads(qpool))
      ensures (old(pquad[i]) != null ==> pquad[i] == old(pquad[i])) && quads == old(quads) + Present(pquad[i])
    {
      if pquad[i] == null {
        var q := CreateQuadrant(pool, qpool);
        Put(pool, qpool, i, q);
      }
    }

    /** freequad, first half: the segments of quadrant i go back to the pool. */
    method FreeSlot(pool: Pool, qpool: QuadPool, i: Index)
      requires pquad.Length == 4 && Base(pool, qpool) && pquad[i] != null
      modifies pool, pquad[i].own
      ensures BaseBut(pool, qpool, i) && pquad[i] in qpool.live
      ensures Slots() == old(Slots()) && Lists() == old(Lists())
      ensures pool.live == old(pool.live) - pquad[i].own && pool.freeSet == old(pool.freeSet) + pquad[i].own
    {
      pquad[i].FreeSegs(pool);
    }

    /** freequad, second half: the quadrant itself goes back. */
    method ReleaseSlot(pool: Pool, qpool: QuadPool, i: Index)
      requires pquad.Length == 4 && BaseBut(pool, qpool, i) && pquad[i] != null && pquad[i] in qpool.live
      modifies pquad, qpool, pquad[i]
      ensures Base(pool, qpool) && pquad[i] == null
      ensures forall j :: 0 <= j < 4 && j != i ==> pquad[j] == old(pquad[j]) && Slots()[j] == old(Slots())[j]
      ensures Lists() == old(Lists())[i := {}]
      ensures qpool.freeSet == old(qpool.freeSet) + {old(pquad[i])} && qpool.live == old(qpool.live) - {old(pquad[i])}
    {
      var q := pquad[i];
      pquad[i] := null;
      qpool.Release(q);
    }

    /** whichquad: quadrant i is dropped; its segments and the quadrant itself go back to their pools. */
    method Drop(pool: Pool, qpool: QuadPool, i: Index)
      requires pquad.Length == 4 && Base(pool, qpool)
      modifies pquad, pool, qpool, Present(pquad[i]), OwnOf(pquad[i])
      ensures Base(pool, qpool) && pquad[i] == null
      ensures forall j :: 0 <= j < 4 && j != i ==> pquad[j] == old(pquad[j]) && Slots()[j] == old(Slots())[j]
      ensures pool.live == old(pool.live) - old(Lists())[i] && pool.freeSet == old(pool.freeSet) + old(Lists())[i]
      ensures Lists() == old(Lists())[i := {}]
      ensures qpool.freeSet == old(qpool.freeSet) + old(Present(pquad[i])) && qpool.live == old(qpool.live) - old(Present(pquad[i]))
    {
      if pquad[i] != null {
        FreeSlot(pool, qpool, i);
        ReleaseSlot(pool, qpool, i);
      }
    }

    /** The same, in terms of what other spaces own. */
    method DropFrom(pool: Pool, qpool: QuadPool, i: Index)
      requires pquad.Length == 4 && Base(pool, qpool)
      modifies pquad, pool, qpool, Reach(qpool), Segments()
      ensures Base(pool, qpool) && pquad[i] == null
      ensures forall j :: 0 <= j < 4 && j != i ==> pquad[j] == old(pquad[j])
      ensures Slots() == old(Slots())[i := None]
      ensures Others(pool) == old(Others(pool)) && Everything(pool) == old(Everything(pool))
      ensures Reach(qpool) == old(Reach(qpool)) && OtherQuads(qpool) == old(OtherQuads(qpool))
      ensures old(pquad[i]) != null ==> old(pquad[i]) !in qpool.live
      ensures Segments() <= old(Segments()) && qpool.live <= old(qpool.live)
    {
      DisjointLists(pool, qpool, i);
      UnionWithout(Lists(), i);
      HandedBack(quads, qpool.freeSet, qpool.live, Present(pquad[i]));
      Drop(pool, qpool, i);
    }

    lemma DisjointLists(pool: Pool, qpool: QuadPool, i: Index)
      requires pquad.Length == 4 && Base(pool, qpool)
      ensures forall j | 0 <= j < 4 && j != i :: Lists()[j] !! Lists()[i]
      ensures pquad[i] != null ==> pquad[i].own <= Segments()
    {
    }

    /** The links of a window centred on c: the centre sees both neighbours, they see only the centre. */
    ghost predicate LinksOk(c: Index, n: Index, p: Index, o: Index)
      requires pquad.Length == 4
      reads pquad, pquad[..]`prev, pquad[..]`next
    {
      && pquad[c] != null && pquad[n] != null && pquad[p] != null && pquad[o] == null
      && pquad[c].next == pquad[n] && pquad[c].prev == pquad[p]
      && pquad[n].prev == pquad[c] && pquad[p].next == pquad[c]
      && pquad[n].next == null && pquad[p].prev == null
    }

    /** The last part of whichquad sets all the pointers. */
    method SetLinks(pool: Pool, qpool: QuadPool, c: Index, n: Index, p: Index, ghost o: Index)
      requires pquad.Length == 4 && Base(pool, qpool)
      requires pquad[c] != null && pquad[n] != null && pquad[p] != null && pquad[o] == null
      requires c != n && n != p && p != c
      modifies pquad[..]`prev, pquad[..]`next
      ensures Base(pool, qpool) && LinksOk(c, n, p, o)
      ensures Slots() == old(Slots()) && Lists() == old(Lists())
      ensures Others(pool) == old(Others(pool)) && Everything(pool) == old(Everything(pool))
      ensures Reach(qpool) == old(Reach(qpool)) && OtherQuads(qpool) == old(OtherQuads(qpool)) && qpool.live == old(qpool.live)
    {
      LinkThree(pquad[c], pquad[n], pquad[p]);
    }

    /** The state of the window, as a value. */
    ghost function Abs(): Space
      requires pquad.Length == 4
      reads this`centre, pquad, pquad[..]
    {
      Space(Slots(), centre)
    }

    /** Either nothing exists yet, or the three quadrants around the centre do and are linked. */
    ghost predicate Valid(pool: Pool, qpool: QuadPool)
      reads this`quads, this`centre, pquad, quads, pool, pool.live, pool.freeSet, qpool, qpool.freeSet
    {
      && pquad.Length == 4 && Base(pool, qpool) && -1 <= centre < 4
      && (if centre == -1 then quads == {} && forall i :: 0 <= i < 4 ==> pquad[i] == null
          else quads == Three(centre, Next(centre), Prev(centre)) && LinksOk(centre, Next(centre), Prev(centre), Opposite(centre)))
    }

    /** whichquad: two quadrants exist afterwards, the others are not touched. */
    method EnsureTwo(pool: Pool, qpool: QuadPool, a: Index, b: Index)
      requires pquad.Length == 4 && Base(pool, qpool) && a != b
      modifies pquad, qpool, Reach(qpool), this`quads
      ensures Base(pool, qpool) && pquad[a] != null && pquad[b] != null
      ensures forall j :: 0 <= j < 4 && j != a && j != b ==> pquad[j] == old(pquad[j]) && Slots()[j] == old(Slots())[j]
      ensures Slots()[a] == Kept(old(Slots())[a]) && Slots()[b] == Kept(old(Slots())[b]) && Lists() == old(Lists())
      ensures fresh(Reach(qpool) - old(Reach(qpool))) && OtherQuads(qpool) == old(OtherQuads(qpool))
      ensures (old(pquad[a]) != null ==> pquad[a] == old(pquad[a])) && (old(pquad[b]) != null ==> pquad[b] == old(pquad[b]))
      ensures quads == old(quads) + Present(pquad[a]) + Present(pquad[b])
    {
      Ensure(pool, qpool, a);
      Ensure(pool, qpool, b);
    }

    /** whichquad: three quadrants exist afterwards, the fourth is not touched. */
    method EnsureThree(pool: Pool, qpool: QuadPool, a: Index, b: Index, c: Index, ghost d: Index)
      requires pquad.Length == 4 && Base(pool, qpool)
      requires a != b && b != c && a != c && a != d && b != d && c != d
      modifies pquad, qpool, Reach(qpool), this`quads
      ensures Base(pool, qpool)
      ensures pquad[a] != null && pquad[b] != null && pquad[c] != null && pquad[d] == old(pquad[d])
      ensures Slots()[d] == old(Slots())[d]
      ensures Slots()[a] == Kept(old(Slots())[a])
      ensures Slots()[b] == Kept(old(Slots())[b])
      ensures Slots()[c] == Kept(old(Slots())[c])
      ensures Lists() == old(Lists())
      ensures fresh(Reach(qpool) - old(Reach(qpool))) && OtherQuads(qpool) == old(OtherQuads(qpool))
      ensures (old(pquad[a]) != null ==> pquad[a] == old(pquad[a])) && (old(pquad[b]) != null ==> pquad[b] == old(pquad[b]))
      ensures (old(pquad[c]) != null ==> pquad[c] == old(pquad[c])) && quads == old(quads) + Three(a, b, c)
    {
      EnsureTwo(pool, qpool, a, b);
      Ensure(pool, qpool, c);
    }

    /** What is dropped at d leaves room for the links around c. */
    method DropAndLink(pool: Pool, qpool: QuadPool, c: Index, n: Index, p: Index, d: Index)
      requires pquad.Length == 4 && Base(pool, qpool)
      requires pquad[c] != null && pquad[n] != null && pquad[p] != null
      requires c != n && n != p && p != c && c != d && n != d && p != d
      modifies pquad, pool, qpool, Reach(qpool), Segments()
      ensures Base(pool, qpool) && LinksOk(c, n, p, d)
      ensures Slots() == old(Slots())[d := None]
      ensures Others(pool) == old(Others(pool)) && Everything(pool) == old(Everything(pool))
      ensures Reach(qpool) == old(Reach(qpool)) && OtherQuads(qpool) == old(OtherQuads(qpool))
      ensures pquad[c] == old(pquad[c]) && pquad[n] == old(pquad[n]) && pquad[p] == old(pquad[p])
      ensures old(pquad[d]) != null ==> old(pquad[d]) !in qpool.live
    {
      DropFrom(pool, qpool, d);
      SetLinks(pool, qpool, c, n, p, d);
    }

    /** The slow path of whichquad. */
    method Slide(pool: Pool, qpool: QuadPool, c: Index, n: Index, p: Index, d: Index)
      requires pquad.Length == 4 && Base(pool, qpool)
      requires c != n && n != p && p != c && c != d && n != d && p != d
      modifies pquad, pool, qpool, Reach(qpool), Segments(), this`quads
      ensures Base(pool, qpool) && LinksOk(c, n, p, d)
      ensures Slots()[c] == Kept(old(Slots())[c]) && Slots()[n] == Kept(old(Slots())[n])
      ensures Slots()[p] == Kept(old(Slots())[p]) && Slots()[d] == None
      ensures Others(pool) == old(Others(pool)) && Everything(pool) == old(Everything(pool))
      ensures fresh(Reach(qpool) - old(Reach(qpool))) && OtherQuads(qpool) == old(OtherQuads(qpool))
      ensures (old(pquad[c]) != null ==> pquad[c] == old(pquad[c])) && (old(pquad[n]) != null ==> pquad[n] == old(pquad[n]))
      ensures (old(pquad[p]) != null ==> pquad[p] == old(pquad[p])) && (old(pquad[d]) != null ==> old(pquad[d]) !in qpool.live)
      ensures quads == old(quads) + Three(c, n, p)
    {
      EnsureThree(pool, qpool, c, n, p, d);
      DropAndLink(pool, qpool, c, n, p, d);
    }

    lemma ValidIsWindow(pool: Pool, qpool: QuadPool)
      requires Valid(pool, qpool)
      ensures Window(Abs())
    {
      if centre == -1 {
        assert Slots() == EMPTY_SPACE.slots;
      }
    }

    ghost method SetQuads(pool: Pool, qpool: QuadPool, three: set<Quadrant>)
      requires pquad.Length == 4 && Base(pool, qpool) && forall i {:trigger pquad[i]} :: 0 <= i < 4 && pquad[i] != null ==> pquad[i] in three
      modifies this`quads
      ensures Base(pool, qpool) && quads == three && Slots() == old(Slots()) && Segments() == old(Segments())
    {
      quads := three;
    }

    /** The space consists of the quadrants of its slots, from now on. */
    ghost method TrimQuads(pool: Pool, qpool: QuadPool, c: Index, n: Index, p: Index, o: Index)
      requires pquad.Length == 4 && Base(pool, qpool) && LinksOk(c, n, p, o)
      requires forall i {:trigger pquad[i]} :: 0 <= i < 4 ==> i == c || i == n || i == p || i == o
      requires Three(c, n, p) <= quads && quads * qpool.live <= Three(c, n, p)
      modifies this`quads
      ensures Base(pool, qpool) && LinksOk(c, n, p, o) && quads == Three(c, n, p)
      ensures Slots() == old(Slots()) && Others(pool) == old(Others(pool)) && Everything(pool) == old(Everything(pool))
      ensures Reach(qpool) <= old(Reach(qpool)) && OtherQuads(qpool) == old(OtherQuads(qpool))
    {
      Trimmed(quads, Three(c, n, p), qpool.freeSet, qpool.live);
      SetQuads(pool, qpool, Three(c, n, p));
    }

    /** The window is centred on c from now on. */
    ghost method SetCentre(pool: Pool, qpool: QuadPool, c: Index)
      requires pquad.Length == 4 && Base(pool, qpool) && LinksOk(c, Next(c), Prev(c), Opposite(c))
      requires quads == Three(c, Next(c), Prev(c))
      modifies this`centre
      ensures Valid(pool, qpool) && centre == c && Slots() == old(Slots())
      ensures Others(pool) == old(Others(pool)) && Everything(pool) == old(Everything(pool))
      ensures Reach(qpool) == old(Reach(qpool)) && OtherQuads(qpool) == old(OtherQuads(qpool))
    {
      centre := c;
    }

    lemma AllInSlots(pool: Pool, qpool: QuadPool)
      requires Valid(pool, qpool)
      ensures forall x :: x in quads ==> x == pquad[0] || x == pquad[1] || x == pquad[2] || x == pquad[3]
    {
    }

    /** The slow path of whichquad, with the window as a value. */
    method MoveTo(pool: Pool, qpool: QuadPool, c: Index)
      requires Valid(pool, qpool) && Window(Abs())
      modifies this`centre, this`quads, pquad, pool, qpool, Reach(qpool), Segments()
      ensures Valid(pool, qpool) && centre == c
      ensures Abs() == Recentre(old(Abs()), c)
      ensures Others(pool) == old(Others(pool)) && Everything(pool) == old(Everything(pool))
      ensures fresh(Reach(qpool) - old(Reach(qpool))) && OtherQuads(qpool) == old(OtherQuads(qpool))
    {
      NeighboursDistinct(c);
      AllInSlots(pool, qpool);
      ghost var o := pquad[..];
      Slide(pool, qpool, c, Next(c), Prev(c), Opposite(c));
      StillThree(o, pquad[..], old(quads), qpool.live, c);
      TrimQuads(pool, qpool, c, Next(c), Prev(c), Opposite(c));
      RecentreBySlots(old(Abs()), Slots(), c);
      SetCentre(pool, qpool, c);
    }

    /** Only the centre of a window sees both neighbours, so the fast path of whichquad never stops at the wrong quadrant. */
    lemma OnlyCentreLinked(pool: Pool, qpool: QuadPool, i: Index)
      requires Valid(pool, qpool)
      ensures pquad[i] != null && pquad[i].next != null && pquad[i].prev != null <==> i == centre
    {
      if centre >= 0 {
        assert i == centre || i == Next(centre) || i == Prev(centre) || i == Opposite(centre);
      }
    }

    /** Whatever was ever allocated is free, in this space or in another one. */
    lemma AllShared(pool: Pool, qpool: QuadPool)
      requires Valid(pool, qpool)
      ensures Segments() <= pool.live && quads <= qpool.live
      ensures pool.All() == Others(pool) + Everything(pool) && qpool.All() == OtherQuads(qpool) + Reach(qpool)
    {
    }

    /** whichquad: slide the window so that it is centred on the quadrant of s, unless it already is. */
    method WhichQuad(pool: Pool, qpool: QuadPool, s: SeqNum) returns (q: Quadrant, ghost made: set<Quadrant>)
      requires Valid(pool, qpool)
      modifies this`centre, this`quads, pquad, pool, qpool, Reach(qpool), Segments()
      ensures Valid(pool, qpool) && centre == QuadNumOf(s) - 1 && q == pquad[centre]
      ensures Window(old(Abs())) && Abs() == Recentre(old(Abs()), QuadNumOf(s) - 1)
      ensures pool.All() == old(pool.All()) && qpool.All() <= old(qpool.All()) + made && fresh(made)
      ensures Others(pool) == old(Others(pool)) && Everything(pool) == old(Everything(pool))
      ensures fresh(Reach(qpool) - old(Reach(qpool))) && OtherQuads(qpool) == old(OtherQuads(qpool))
    {
      var qix: Index := QuadNumOf(s) - 1;
      ValidIsWindow(pool, qpool);
      AllShared(pool, qpool);
      OnlyCentreLinked(pool, qpool, qix);
      var candidate := pquad[qix];
      if candidate != null && candidate.next != null && candidate.prev != null {
        RecentreSame(Abs());
        q, made := candidate, {};
      } else {
        MoveTo(pool, qpool, qix);
        AllShared(pool, qpool);
        q, made := pquad[qix], qpool.All() - old(qpool.All());
      }
    }

    /** rexmit hands a piece of the packet to quadrant i. */
    method AddTo(pool: Pool, qpool: QuadPool, q: Quadrant, ghost i: Index, first: SeqNum, len: int, now: int, ip: int)
      returns (bytes: int, outOfOrder: bool, ghost grown: set<Segment>)
      requires pquad.Length == 4 && Base(pool, qpool) && pquad[i] == q
      modifies q`head, q`tail, q`count, q`nodes, q`vals, q`own, pool, q.Footprint(pool)
      ensures Base(pool, qpool)
      ensures var a := SegmentList.AddSeg(old(q.vals), first, LastByte(first, len), now, ip);
              && Slot(q) == Some(Quad(a.list, q.full))
              && bytes == a.bytes && outOfOrder == a.outOfOrder
      ensures forall j :: 0 <= j < 4 && j != i ==> Slots()[j] == old(Slots())[j] && Lists()[j] == old(Lists())[j]
      ensures q.Others(pool) == old(q.Others(pool))
      ensures q.Footprint(pool) <= old(q.Footprint(pool)) + grown && pool.All() <= old(pool.All()) + grown && fresh(grown)
      ensures OtherQuads(qpool) == old(OtherQuads(qpool)) && qpool.All() == old(qpool.All())
    {
      OthersOwn(pool, qpool, q, i);
      ShareOfAll(pool, q);
      bytes, outOfOrder := q.AddSeg(pool, first, len, now, ip);
      grown := pool.All() - old(pool.All());
      SlotsStay(i);
    }

    lemma ShareOfAll(pool: Pool, q: Quadrant)
      requires q.own <= pool.live
      ensures pool.All() == q.Others(pool) + q.Footprint(pool)
    {
    }

    /** Once a quadrant's share of the pool is settled, so is that of the whole space. */
    lemma Settled(o: seq<set<Segment>>, i: Index, q: Quadrant, pool: Pool, live: set<Segment>)
      requires pquad.Length == 4 && pquad[i] == q && |o| == 4
      requires forall j :: 0 <= j < 4 && j != i ==> Lists()[j] == o[j]
      requires q.Others(pool) == live - o[i]
      ensures pool.live - Segments() == live - Union(o)
      ensures o[i] <= Union(o) && Segments() <= Union(o) + q.own
    {
      assert Lists() == o[i := q.own];
      UnionReplace(o, i, q.own, live, pool.live);
    }

    /** The same, from the point of view of the pool and of the window. */
    method AddLinked(pool: Pool, qpool: QuadPool, q: Quadrant, ghost i: Index, first: SeqNum, len: int, now: int, ip: int,
                     ghost c: Index, ghost n: Index, ghost p: Index, ghost o: Index)
      returns (bytes: int, outOfOrder: bool, ghost grown: set<Segment>)
      requires pquad.Length == 4 && Base(pool, qpool) && LinksOk(c, n, p, o) && pquad[i] == q
      modifies q`head, q`tail, q`count, q`nodes, q`vals, q`own, pool, q.Footprint(pool)
      ensures Base(pool, qpool) && LinksOk(c, n, p, o)
      ensures var a := SegmentList.AddSeg(old(q.vals), first, LastByte(first, len), now, ip);
              && Slots()[i] == Some(Quad(a.list, old(q.full)))
              && bytes == a.bytes && outOfOrder == a.outOfOrder
      ensures forall j :: 0 <= j < 4 && j != i ==> Slots()[j] == old(Slots())[j]
      ensures Others(pool) == old(Others(pool)) && pool.All() <= old(pool.All()) + grown && fresh(grown)
      ensures Everything(pool) <= old(Everything(pool)) + grown
      ensures OtherQuads(qpool) == old(OtherQuads(qpool)) && qpool.All() == old(qpool.All())
    {
      bytes, outOfOrder, grown := AddTo(pool, qpool, q, i, first, len, now, ip);
      Settled(old(Lists()), i, q, pool, old(pool.live));
      SetsGrow(Segments(), q.own, pool.freeSet, old(Segments()), old(q.own), old(pool.freeSet), grown);
    }

    /** rexmit at one quadrant of a valid window. */
    method AddPieceTo(pool: Pool, qpool: QuadPool, q: Quadrant, ghost i: Index, first: SeqNum, len: int, now: int, ip: int)
      returns (bytes: int, outOfOrder: bool, ghost grown: set<Segment>)
      requires Valid(pool, qpool) && centre >= 0 && pquad[i] == q
      modifies q`head, q`tail, q`count, q`nodes, q`vals, q`own, pool, q.Footprint(pool)
      ensures Valid(pool, qpool)
      ensures var a := SegmentList.AddSeg(old(q.vals), first, LastByte(first, len), now, ip);
              && Slots()[i] == Some(Quad(a.list, old(q.full)))
              && bytes == a.bytes && outOfOrder == a.outOfOrder
      ensures forall j :: 0 <= j < 4 && j != i ==> Slots()[j] == old(Slots())[j]
      ensures Others(pool) == old(Others(pool)) && pool.All() <= old(pool.All()) + grown && fresh(grown)
      ensures Everything(pool) <= old(Everything(pool)) + grown
      ensures OtherQuads(qpool) == old(OtherQuads(qpool)) && qpool.All() == old(qpool.All())
    {
      bytes, outOfOrder, grown := AddLinked(pool, qpool, q, i, first, len, now, ip,
                                     centre, Next(centre), Prev(centre), Opposite(centre));
    }

    lemma InUnion(pool: Pool, i: Index)
      requires pquad.Length == 4 && pquad[i] != null
      ensures pquad[i].own <= Segments() && pquad[i].Footprint(pool) <= Everything(pool)
    {
    }

    /** The same, within the segments of this space and those that are free. */
    method AddPieceWithin(pool: Pool, qpool: QuadPool, q: Quadrant, ghost i: Index, first: SeqNum, len: int, now: int, ip: int)
      returns (bytes: int, outOfOrder: bool, ghost grown: set<Segment>)
      requires Valid(pool, qpool) && centre >= 0 && pquad[i] == q
      modifies quads, pool, Everything(pool)
      ensures Valid(pool, qpool) && old(Slots())[i].Some?
      ensures var a := SegmentList.AddSeg(old(Slots())[i].value.segs, first, LastByte(first, len), now, ip);
              && Slots()[i] == Some(Quad(a.list, old(Slots())[i].value.full))
              && bytes == a.bytes && outOfOrder == a.outOfOrder
      ensures forall j :: 0 <= j < 4 && j != i ==> Slots()[j] == old(Slots())[j]
      ensures Others(pool) == old(Others(pool)) && pool.All() <= old(pool.All()) + grown && fresh(grown)
      ensures Everything(pool) <= old(Everything(pool)) + grown
      ensures OtherQuads(qpool) == old(OtherQuads(qpool)) && qpool.All() == old(qpool.All())
    {
      assert Slots()[i] == Some(Quad(q.vals, q.full));
      InUnion(pool, i);
      bytes, outOfOrder, grown := AddPieceTo(pool, qpool, q, i, first, len, now, ip);
    }

    /** The same with the window as a value. */
    method AddPieceAt(pool: Pool, qpool: QuadPool, q: Quadrant, ghost i: Index, first: SeqNum, len: int, now: int, ip: int,
                      ghost r: Recorded)
      returns (bytes: int, outOfOrder: bool, ghost t: Recorded, ghost grown: set<Segment>)
      requires Valid(pool, qpool) && centre >= 0 && pquad[i] == q && Window(Abs()) && r.space == Abs()
      modifies quads, pool, Everything(pool)
      ensures Valid(pool, qpool)
      ensures t == AddPiece(r, i, (first, LastByte(first, len)), now, ip)
      ensures t.space == Abs() && Window(Abs()) && t.bytes == r.bytes + bytes && t.outOfOrder == (r.outOfOrder || outOfOrder)
      ensures Others(pool) == old(Others(pool)) && pool.All() <= old(pool.All()) + grown && fresh(grown)
      ensures Everything(pool) <= old(Everything(pool)) + grown
      ensures OtherQuads(qpool) == old(OtherQuads(qpool)) && qpool.All() == old(qpool.All())
    {
      bytes, outOfOrder, grown := AddPieceWithin(pool, qpool, q, i, first, len, now, ip);
      AddPieceForm(r, Slots(), i, (first, LastByte(first, len)), now, ip);
      t := AddPiece(r, i, (first, LastByte(first, len)), now, ip);
    }

    /** The second piece of a packet goes to the successor of the centre; what it adds is added to the outcome so far. */
    method RecordSecond(pool: Pool, qpool: QuadPool, q: Quadrant, first: SeqNum, len: int, now: int, ip: int,
                        rexlen: int, outOfOrder: bool, ghost r: Recorded)
      returns (sum: int, any: bool, ghost t: Recorded, ghost grown: set<Segment>)
      requires Valid(pool, qpool) && centre >= 0 && pquad[centre] == q && Window(Abs())
      requires r.space == Abs() && r.bytes == rexlen && r.outOfOrder == outOfOrder
      modifies quads, pool, Everything(pool)
      ensures Valid(pool, qpool)
      ensures t == AddPiece(r, Next(centre), (first, LastByte(first, len)), now, ip)
      ensures t.space == Abs() && t.bytes == sum && t.outOfOrder == any
      ensures Others(pool) == old(Others(pool)) && pool.All() <= old(pool.All()) + grown && fresh(grown)
      ensures OtherQuads(qpool) == old(OtherQuads(qpool)) && qpool.All() == old(qpool.All())
    {
      assert q.next == pquad[Next(centre)];
      var bytes, gap;
      bytes, gap, t, grown := AddPieceAt(pool, qpool, q.next, Next(centre), first, len, now, ip, r);
      sum, any := rexlen + bytes, outOfOrder || gap;
    }

    /** The first piece of a packet goes to the quadrant at the centre. */
    method RecordFirst(pool: Pool, qpool: QuadPool, q: Quadrant, s: SeqNum, len: int, now: int, ip: int, ghost r: Recorded)
      returns (bytes: int, outOfOrder: bool, ghost t: Recorded, ghost grown: set<Segment>)
      requires Valid(pool, qpool) && centre >= 0 && pquad[centre] == q && Window(Abs())
      requires r.space == Abs() && r.bytes == 0 && !r.outOfOrder
      modifies quads, pool, Everything(pool)
      ensures Valid(pool, qpool) && Window(Abs())
      ensures t == AddPiece(r, centre, (s, LastByte(s, len)), now, ip)
      ensures t.space == Abs() && t.bytes == bytes && t.outOfOrder == outOfOrder
      ensures Others(pool) == old(Others(pool)) && pool.All() <= old(pool.All()) + grown && fresh(grown)
      ensures Everything(pool) <= old(Everything(pool)) + grown
      ensures OtherQuads(qpool) == old(OtherQuads(qpool)) && qpool.All() == old(qpool.All())
    {
      bytes, outOfOrder, t, grown := AddPieceAt(pool, qpool, q, centre, s, len, now, ip, r);
    }

    /** Both pieces of a packet that crosses a boundary. */
    method RecordBoth(pool: Pool, qpool: QuadPool, q: Quadrant, s: SeqNum, len1: int, s2: SeqNum, len2: int, now: int, ip: int,
                      ghost r: Recorded)
      returns (rexlen: int, outOfOrder: bool, ghost t: Recorded, ghost grown: set<Segment>)
      requires Valid(pool, qpool) && centre >= 0 && pquad[centre] == q && Window(Abs())
      requires r.space == Abs() && r.bytes == 0 && !r.outOfOrder
      modifies quads, pool, Everything(pool)
      ensures Valid(pool, qpool)
      ensures t == AddPiece(AddPiece(r, centre, (s, LastByte(s, len1)), now, ip), Next(centre), (s2, LastByte(s2, len2)), now, ip)
      ensures t.space == Abs() && t.bytes == rexlen && t.outOfOrder == outOfOrder
      ensures Others(pool) == old(Others(pool)) && pool.All() <= old(pool.All()) + grown && fresh(grown)
      ensures OtherQuads(qpool) == old(OtherQuads(qpool)) && qpool.All() == old(qpool.All())
    {
      ghost var between, some, more;
      rexlen, outOfOrder, between, some := RecordFirst(pool, qpool, q, s, len1, now, ip, r);
      rexlen, outOfOrder, t, more := RecordSecond(pool, qpool, q, s2, len2, now, ip, rexlen, outOfOrder, between);
      BothFresh(some, more);
      grown := some + more;
    }

    /** The pieces of a packet go to the quadrant at the centre and to its successor. */
    method Record(pool: Pool, qpool: QuadPool, q: Quadrant, s: SeqNum, len: nat, now: int, ip: int)
      returns (rexlen: int, outOfOrder: bool, ghost grown: set<Segment>)
      requires Valid(pool, qpool) && centre >= 0 && pquad[centre] == q && Window(Abs())
      modifies quads, pool, Everything(pool)
      ensures Valid(pool, qpool)
      ensures var r := SequenceSpace.Record(old(Abs()), Cut(s, len), now, ip);
              Abs() == r.space && rexlen == r.bytes && outOfOrder == r.outOfOrder
      ensures Others(pool) == old(Others(pool)) && pool.All() <= old(pool.All()) + grown && fresh(grown)
      ensures OtherQuads(qpool) == old(OtherQuads(qpool)) && qpool.All() == old(qpool.All())
    {
      var last := LastByte(s, len);
      ghost var sp, t := Abs(), Recorded(Abs(), 0, false);
      ghost var r := t;
      if Boundary(s, last) {
        var len1, s2 := Wrap(LastSeq(QuadNumOf(s)) - s + 1), FirstSeq(QuadNumOf(last));
        rexlen, outOfOrder, t, grown := RecordBoth(pool, qpool, q, s, len1, s2, len - len1, now, ip, r);
        RecordTwo(sp, s, len, len1, s2, now, ip, r, t);
      } else {
        rexlen, outOfOrder, t, grown := RecordFirst(pool, qpool, q, s, len, now, ip, r);
        RecordOne(sp, s, len, now, ip, r, t);
      }
    }

    /** Slots whose quadrants do not change keep their values. */
    twostate lemma SlotsStay(i: Index)
      requires pquad.Length == 4 && pquad[..] == old(pquad[..])
      requires forall j {:trigger pquad[j]} :: 0 <= j < 4 && j != i && pquad[j] != null ==>
                 pquad[j].vals == old(pquad[j].vals) && pquad[j].full == old(pquad[j].full) && pquad[j].own == old(pquad[j].own)
      ensures forall j :: 0 <= j < 4 && j != i ==> Slots()[j] == old(Slots())[j] && Lists()[j] == old(Lists())[j]
    {
      forall j | 0 <= j < 4 && j != i
        ensures Slots()[j] == old(Slots())[j] && Lists()[j] == old(Lists())[j]
      {
        assert pquad[j] == pquad[..][j] == old(pquad[..])[j] == old(pquad[j]);
      }
    }

    /** The first walk of ack_in, seen from the whole space. */
    method AckPreviousAt(pool: Pool, qpool: QuadPool, q: Quadrant, ghost i: Index, c: RttCounters)
      returns (d: RttCounters, lastXmit: int)
      requires pquad.Length == 4 && Base(pool, qpool) && pquad[i] == q
      modifies q`tail, q`count, q`nodes, q`vals, q`own, q`full, q.own, pool
      ensures Base(pool, qpool)
      ensures var a := AckAll(old(q.vals), 0);
              && Slot(q) == Some(AfterWalk(old(Quad(q.vals, q.full)), a))
              && lastXmit == a.lastXmit && d == Count(c, a)
      ensures forall j :: 0 <= j < 4 && j != i ==> Slots()[j] == old(Slots())[j] && Lists()[j] == old(Lists())[j]
      ensures q.Others(pool) == old(q.Others(pool)) && pool.All() == old(pool.All())
      ensures OtherQuads(qpool) == old(OtherQuads(qpool)) && qpool.All() == old(qpool.All())
    {
      OthersOwn(pool, qpool, q, i);
      ShareOfAll(pool, q);
      d, lastXmit := q.AckPrevious(pool, c);
      SlotsStay(i);
    }

    /** The second walk of ack_in, seen from the whole space. */
    method AckCurrentAt(pool: Pool, qpool: QuadPool, q: Quadrant, ghost i: Index, c: RttCounters, lastXmit: int,
                        ack: int, dataLen: nat, now: int)
      returns (d: RttCounters, ret: AckType)
      requires pquad.Length == 4 && Base(pool, qpool) && pquad[i] == q
      modifies q`tail, q`count, q`nodes, q`vals, q`own, q`full, q.own, pool
      ensures Base(pool, qpool)
      ensures var a := AckUpTo(old(q.vals), ack, dataLen, now, lastXmit);
              && Slot(q) == Some(AfterWalk(old(Quad(q.vals, q.full)), a))
              && ret == a.ret && d == Count(c, a)
      ensures forall j :: 0 <= j < 4 && j != i ==> Slots()[j] == old(Slots())[j] && Lists()[j] == old(Lists())[j]
      ensures q.Others(pool) == old(q.Others(pool)) && pool.All() == old(pool.All())
      ensures OtherQuads(qpool) == old(OtherQuads(qpool)) && qpool.All() == old(qpool.All())
    {
      OthersOwn(pool, qpool, q, i);
      ShareOfAll(pool, q);
      d, ret := q.AckCurrent(pool, c, lastXmit, ack, dataLen, now);
      SlotsStay(i);
    }

    /** What the other quadrants own is not touched by a change to q. */
    lemma OthersOwn(pool: Pool, qpool: QuadPool, q: Quadrant, i: Index)
      requires pquad.Length == 4 && Base(pool, qpool) && pquad[i] == q
      ensures forall j {:trigger pquad[j]} :: 0 <= j < 4 && j != i && pquad[j] != null ==> pquad[j].own <= q.Others(pool)
    {
    }

    /** The first walk, which leaves the links of the window and the segments of other spaces alone. */
    method AckPreviousLinked(pool: Pool, qpool: QuadPool, q: Quadrant, c: RttCounters,
                             ghost i: Index, ghost n: Index, ghost h: Index, ghost o: Index)
      returns (d: RttCounters, lastXmit: int)
      requires pquad.Length == 4 && Base(pool, qpool) && LinksOk(i, n, h, o) && pquad[h] == q && i != h
      modifies q`tail, q`count, q`nodes, q`vals, q`own, q`full, q.own, pool
      ensures Base(pool, qpool) && LinksOk(i, n, h, o)
      ensures var a := AckAll(old(q.vals), 0);
              && Slots()[h] == Some(AfterWalk(old(Slots())[h].value, a))
              && lastXmit == a.lastXmit && d == Count(c, a)
      ensures forall j :: 0 <= j < 4 && j != h ==> Slots()[j] == old(Slots())[j]
      ensures Others(pool) == old(Others(pool)) && Lists()[i] == old(Lists())[i] && pool.All() == old(pool.All())
      ensures OtherQuads(qpool) == old(OtherQuads(qpool)) && qpool.All() == old(qpool.All())
    {
      d, lastXmit := AckPreviousAt(pool, qpool, q, h, c);
      Settled(old(Lists()), h, q, pool, old(pool.live));
    }

    /** The second walk, likewise. */
    method AckCurrentLinked(pool: Pool, qpool: QuadPool, q: Quadrant, c: RttCounters, lastXmit: int, ack: int, dataLen: nat, now: int,
                            ghost i: Index, ghost n: Index, ghost h: Index, ghost o: Index)
      returns (d: RttCounters, ret: AckType)
      requires pquad.Length == 4 && Base(pool, qpool) && LinksOk(i, n, h, o) && pquad[i] == q
      modifies q`tail, q`count, q`nodes, q`vals, q`own, q`full, q.own, pool
      ensures Base(pool, qpool) && LinksOk(i, n, h, o)
      ensures var a := AckUpTo(old(q.vals), ack, dataLen, now, lastXmit);
              && Slots()[i] == Some(AfterWalk(old(Slots())[i].value, a))
              && ret == a.ret && d == Count(c, a)
      ensures forall j :: 0 <= j < 4 && j != i ==> Slots()[j] == old(Slots())[j]
      ensures Others(pool) == old(Others(pool)) && pool.All() == old(pool.All())
      ensures OtherQuads(qpool) == old(OtherQuads(qpool)) && qpool.All() == old(qpool.All())
    {
      d, ret := AckCurrentAt(pool, qpool, q, i, c, lastXmit, ack, dataLen, now);
      Settled(old(Lists()), i, q, pool, old(pool.live));
    }

    /** ack_in on the window around i, with its neighbours n and h. */
    method AckBoth(pool: Pool, qpool: QuadPool, q: Quadrant, ghost i: Index, ghost n: Index, ghost h: Index, ghost o: Index,
                   c: RttCounters, ack: SeqNum, dataLen: nat, now: int)
      returns (d: RttCounters, ret: AckType)
      requires pquad.Length == 4 && Base(pool, qpool) && LinksOk(i, n, h, o) && pquad[i] == q && i != h
      modifies quads, pool, Segments()
      ensures Base(pool, qpool) && LinksOk(i, n, h, o)
      ensures var p := old(pquad[h]);
              var a := AckAll(old(p.vals), 0);
              var b := AckUpTo(old(q.vals), ack, dataLen, now, a.lastXmit);
              && Slots()[h] == Some(AfterWalk(old(Slots())[h].value, a))
              && Slots()[i] == Some(AfterWalk(old(Slots())[i].value, b))
              && ret == b.ret && d == Count(Count(c, a), b)
      ensures forall j :: 0 <= j < 4 && j != i && j != h ==> Slots()[j] == old(Slots())[j]
      ensures Others(pool) == old(Others(pool)) && pool.All() == old(pool.All())
      ensures OtherQuads(qpool) == old(OtherQuads(qpool)) && qpool.All() == old(qpool.All())
    {
      InUnion(pool, i);
      InUnion(pool, h);
      var lastXmit;
      d, lastXmit := AckPreviousLinked(pool, qpool, q.prev, c, i, n, h, o);
      d, ret := AckCurrentLinked(pool, qpool, q, d, lastXmit, ack, dataLen, now, i, n, h, o);
    }

    /** ack_in on the window in place. */
    method Acknowledge(pool: Pool, qpool: QuadPool, q: Quadrant, c: RttCounters, ack: SeqNum, dataLen: nat, now: int)
      returns (d: RttCounters, ret: AckType)
      requires Valid(pool, qpool) && centre >= 0 && pquad[centre] == q && Window(Abs())
      modifies quads, pool, Segments()
      ensures Valid(pool, qpool)
      ensures Abs() == SequenceSpace.Acknowledge(old(Abs()), ack, dataLen, now)
      ensures ret == SecondWalk(old(Abs()), ack, dataLen, now).ret
      ensures d == Count(Count(c, FirstWalk(old(Abs()))), SecondWalk(old(Abs()), ack, dataLen, now))
      ensures Others(pool) == old(Others(pool)) && pool.All() == old(pool.All())
      ensures OtherQuads(qpool) == old(OtherQuads(qpool)) && qpool.All() == old(qpool.All())
    {
      d, ret := AckBoth(pool, qpool, q, centre, Next(centre), Prev(centre), Opposite(centre), c, ack, dataLen, now);
      AcknowledgeForm(old(Abs()), Abs(), ack, dataLen, now);
    }

    /** rexmit: record a packet; how many of its bytes were sent before, and is it out of order? */
    method Rexmit(pool: Pool, qpool: QuadPool, s: SeqNum, len: nat, now: int, ip: int)
      returns (rexlen: int, outOfOrder: bool, ghost grown: set<Segment>, ghost made: set<Quadrant>)
      requires Valid(pool, qpool)
      modifies this`centre, this`quads, pquad, pool, qpool, Reach(qpool), Everything(pool)
      ensures Valid(pool, qpool) && Window(old(Abs()))
      ensures var r := SequenceSpace.Rexmit(old(Abs()), s, len, now, ip);
              Abs() == r.space && rexlen == r.bytes && outOfOrder == r.outOfOrder
      ensures Others(pool) == old(Others(pool)) && pool.All() <= old(pool.All()) + grown && fresh(grown)
      ensures OtherQuads(qpool) == old(OtherQuads(qpool)) && qpool.All() <= old(qpool.All()) + made && fresh(made)
    {
      var q;
      q, made := WhichQuad(pool, qpool, s);
      rexlen, outOfOrder, grown := Record(pool, qpool, q, s, len, now, ip);
    }

    /** ack_in but for the assignment to the counters: d are the new ones. */
    method AckWindow(pool: Pool, qpool: QuadPool, c: RttCounters, ack: SeqNum, dataLen: nat, now: int)
      returns (d: RttCounters, ret: AckType, ghost made: set<Quadrant>)
      requires Valid(pool, qpool)
      modifies this`centre, this`quads, pquad, pool, qpool, Reach(qpool), Everything(pool)
      ensures Valid(pool, qpool) && Window(old(Abs()))
      ensures var r := SequenceSpace.AckIn(old(Abs()), c, ack, dataLen, now);
              Abs() == r.space && ret == r.ret && d == r.counters
      ensures Others(pool) == old(Others(pool)) && pool.All() == old(pool.All())
      ensures OtherQuads(qpool) == old(OtherQuads(qpool)) && qpool.All() <= old(qpool.All()) + made && fresh(made)
    {
      var q;
      q, made := WhichQuad(pool, qpool, ack);
      d, ret := Acknowledge(pool, qpool, q, c, ack, dataLen, now);
    }

    method SetRtt(pool: Pool, qpool: QuadPool, d: RttCounters)
      requires Valid(pool, qpool)
      modifies this`rtt
      ensures Valid(pool, qpool) && rtt == d && Abs() == old(Abs()) && Others(pool) == old(Others(pool))
      ensures pool.All() == old(pool.All()) && OtherQuads(qpool) == old(OtherQuads(qpool)) && qpool.All() == old(qpool.All())
    {
      rtt := d;
    }

    /** ack_in: acknowledge what lies before ack in this direction and classify the ack. */
    method AckIn(pool: Pool, qpool: QuadPool, ack: SeqNum, dataLen: nat, now: int) returns (ret: AckType, ghost made: set<Quadrant>)
      requires Valid(pool, qpool)
      modifies this`rtt, this`centre, this`quads, pquad, pool, qpool, Reach(qpool), Everything(pool)
      ensures Valid(pool, qpool) && Window(old(Abs()))
      ensures var r := SequenceSpace.AckIn(old(Abs()), old(rtt), ack, dataLen, now);
              Abs() == r.space && ret == r.ret && rtt == r.counters
      ensures Others(pool) == old(Others(pool)) && pool.All() == old(pool.All())
      ensures OtherQuads(qpool) == old(OtherQuads(qpool)) && qpool.All() <= old(qpool.All()) + made && fresh(made)
    {
      var d;
      d, ret, made := AckWindow(pool, qpool, rtt, ack, dataLen, now);
      SetRtt(pool, qpool, d);
    }

    /** free_tp: all four quadrants are dropped. */
    method DropAll(pool: Pool, qpool: QuadPool)
      requires pquad.Length == 4 && Base(pool, qpool)
      modifies pquad, pool, qpool, Reach(qpool), Segments()
      ensures Base(pool, qpool) && forall i :: 0 <= i < 4 ==> pquad[i] == null
      ensures Others(pool) == old(Others(pool)) && Everything(pool) == old(Everything(pool))
      ensures Reach(qpool) == old(Reach(qpool)) && OtherQuads(qpool) == old(OtherQuads(qpool))
      ensures forall i :: 0 <= i < 4 && old(pquad[i]) != null ==> old(pquad[i]) !in qpool.live
    {
      var i := 0;
      while i < 4
        invariant 0 <= i <= 4 && Base(pool, qpool)
        invariant forall j :: 0 <= j < 4 ==> pquad[j] == if j < i then null else old(pquad[j])
        invariant Others(pool) == old(Others(pool)) && Everything(pool) == old(Everything(pool))
        invariant Reach(qpool) == old(Reach(qpool)) && OtherQuads(qpool) == old(OtherQuads(qpool))
        invariant Segments() <= old(Segments())
        invariant forall j :: 0 <= j < i && old(pquad[j]) != null ==> old(pquad[j]) !in qpool.live
      {
        DropFrom(pool, qpool, i);
        i := i + 1;
      }
    }

    lemma NothingLeft()
      requires pquad.Length == 4 && forall i :: 0 <= i < 4 ==> pquad[i] == null
      ensures Segments() == {} && Slots() == EMPTY_SPACE.slots
    {
    }

    /** tp_release clears the record of a direction whose quadrants are gone. */
    method Forget(pool: Pool, qpool: QuadPool)
      requires pquad.Length == 4 && Base(pool, qpool) && quads !! qpool.live && forall i :: 0 <= i < 4 ==> pquad[i] == null
      modifies this
      ensures Valid(pool, qpool) && Direction(Abs(), rtt, []) == NEW_DIRECTION && quads == {} && Segments() == {}
      ensures pool.live == old(Others(pool)) && qpool.live == old(OtherQuads(qpool))
    {
      NothingLeft();
      rtt, centre, quads := NO_RTT, -1, {};
    }

    /** The end of a direction. */
    method Close(pool: Pool, qpool: QuadPool)
      requires Valid(pool, qpool)
      modifies this, pquad, pool, qpool, Reach(qpool), Segments()
      ensures Valid(pool, qpool) && Direction(Abs(), rtt, []) == NEW_DIRECTION && quads == {} && Segments() == {}
      ensures pool.live == old(Others(pool)) && qpool.live == old(OtherQuads(qpool))
      ensures pool.freeSet == old(Everything(pool)) && qpool.freeSet <= old(Reach(qpool))
    {
      AllInSlots(pool, qpool);
      DropAll(pool, qpool);
      Forget(pool, qpool);
    }
  }
}
