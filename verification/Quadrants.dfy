/** A quadrant as a heap object: its doubly linked segment list, changed in place. */
module Quadrants {
  import opened SequenceNumbers
  import opened SegmentList
  import opened SegmentPool
  import opened SequenceSpace
  import opened Statistics
  import opened WalkSteps

  ghost function Ref(s: Segment?): set<Segment> {
    if s == null then {} else {s}
  }

  lemma UpdateInserted(m: seq<Seg>, i: nat, x: Seg, y: Seg)
    requires i <= |m|
    ensures (m[..i] + [x] + m[i..])[i] == x
    ensures (m[..i] + [x] + m[i..])[i := y] == m[..i] + [y] + m[i..]
    ensures i < |m| ==> (m[..i] + [x] + m[i..])[i + 1] == m[i]
  {
  }

  lemma InsertedElements(s: seq<Segment>, i: nat, n: Segment)
    requires i <= |s|
    ensures forall x :: x in s[..i] + [n] + s[i..] <==> x in s || x == n
  {
    assert s == s[..i] + s[i..];
  }

  lemma RemovedElements(s: seq<Segment>, i: nat)
    requires i + 1 < |s|
    ensures forall x :: x in s <==> x in s[..i + 1] + s[i + 2..] || x == s[i + 1]
  {
    assert s == s[..i + 1] + [s[i + 1]] + s[i + 2..];
  }

  class Quadrant {
    var head: Segment?
    var tail: Segment?
    var full: bool
    var count: nat
    var prev: Quadrant?
    var next: Quadrant?
    ghost var nodes: seq<Segment>
    ghost var vals: seq<Seg>
    ghost var own: set<Segment>

    /** head, tail, prev, next and the count agree with the sequence of nodes. */
    ghost predicate Linked()
      reads this`head, this`tail, this`count, this`nodes, nodes
    {
      && count == |nodes|
      && (if nodes == [] then head == null && tail == null else head == nodes[0] && tail == nodes[|nodes| - 1])
      && (nodes != [] ==> nodes[0].prev == null && nodes[|nodes| - 1].next == null)
      && (forall i {:trigger nodes[i].prev} :: 1 <= i < |nodes| ==> nodes[i].prev == nodes[i - 1])
      && (forall i {:trigger nodes[i].next} :: 0 <= i < |nodes| - 1 ==> nodes[i].next == nodes[i + 1])
      && (forall i, j :: 0 <= i < j < |nodes| ==> nodes[i] != nodes[j])
    }

    /** vals are the data of the nodes. */
    ghost predicate Shows()
      reads this`nodes, this`vals, nodes
    {
      |vals| == |nodes| && forall i {:trigger nodes[i].data} :: 0 <= i < |nodes| ==> nodes[i].data == vals[i]
    }

    /** insert_seg_between: link the new segment in at position i. */
    method InsertBetween(n: Segment, before: Segment?, after: Segment?, ghost i: nat)
      requires Linked() && i <= |nodes| && n !in nodes
      requires if i == 0 then before == null else before == nodes[i - 1]
      requires if i == |nodes| then after == null else after == nodes[i]
      modifies this`head, this`tail, this`count, this`nodes, Ref(before)`next, Ref(after)`prev, n`next, n`prev
      ensures Linked() && nodes == old(nodes)[..i] + [n] + old(nodes)[i..]
    {
      count := count + 1;
      n.next := after;
      if after != null {
        after.prev := n;
      } else {
        tail := n;
      }
      n.prev := before;
      if before != null {
        before.next := n;
      } else {
        head := n;
      }
      nodes := nodes[..i] + [n] + nodes[i..];
    }

    /** The same, with the values following the nodes. */
    method Splice(n: Segment, before: Segment?, after: Segment?, ghost i: nat)
      requires Linked() && Shows() && i <= |nodes| && n !in nodes
      requires if i == 0 then before == null else before == nodes[i - 1]
      requires if i == |nodes| then after == null else after == nodes[i]
      modifies this`head, this`tail, this`count, this`nodes, this`vals, Ref(before)`next, Ref(after)`prev, n`next, n`prev
      ensures Linked() && nodes == old(nodes)[..i] + [n] + old(nodes)[i..]
      ensures Shows() && vals == old(vals)[..i] + [n.data] + old(vals)[i..]
    {
      InsertBetween(n, before, after, i);
      vals := vals[..i] + [n.data] + vals[i..];
    }

    /** The list is linked, shows its values, and owns exactly its nodes. */
    ghost predicate ListOk()
      reads this`head, this`tail, this`count, this`nodes, this`vals, this`own, own
    {
      && (forall i {:trigger nodes[i]} :: 0 <= i < |nodes| ==> nodes[i] in own)
      && Linked() && Shows()
      && (forall x {:trigger x in nodes} :: x in own ==> x in nodes)
    }

    /** All of its segments are handed out by the pool. */
    ghost predicate Owns(pool: Pool)
      reads this`head, this`tail, this`count, this`nodes, this`vals, this`own, own, pool, pool.freeSet
    {
      ListOk() && pool.Valid() && own <= pool.live
    }

    /** The segments handed out to other lists. */
    ghost function Others(pool: Pool): set<Segment>
      reads this`own, pool
    {
      pool.live - own
    }

    /** The segments that this list and the free list consist of. */
    ghost function Footprint(pool: Pool): set<Segment>
      reads this`own, pool
    {
      own + pool.freeSet
    }

    /** create_seg: a segment from the pool, filled in. The list does not notice. */
    method CreateSeg(pool: Pool, f: int, l: int, now: int, ip: int) returns (n: Segment)
      requires Owns(pool)
      modifies pool, pool.Top()
      ensures Owns(pool)
      ensures n !in old(pool.live) && pool.live == old(pool.live) + {n} && pool.freeSet == old(pool.freeSet) - {n}
      ensures n in old(pool.Top()) || fresh(n)
      ensures n.data == NewSeg(f, l, now, ip)
    {
      n := pool.Alloc();
      n.data := NewSeg(f, l, now, ip);
    }

    /** A segment that the pool has handed out joins the list at position i. */
    method Adopt(pool: Pool, n: Segment, before: Segment?, after: Segment?, ghost i: nat)
      requires Owns(pool) && i <= |nodes| && n !in own && n in pool.live
      requires if i == 0 then before == null else before == nodes[i - 1]
      requires if i == |nodes| then after == null else after == nodes[i]
      modifies this`head, this`tail, this`count, this`nodes, this`vals, this`own,
               Ref(before)`next, Ref(after)`prev, n`next, n`prev
      ensures Owns(pool) && own == old(own) + {n}
      ensures nodes == old(nodes)[..i] + [n] + old(nodes)[i..]
      ensures vals == old(vals)[..i] + [n.data] + old(vals)[i..]
    {
      InsertedElements(nodes, i, n);
      Splice(n, before, after, i);
      own := own + {n};
    }

    /** A new segment f..l is created and linked in at position i. */
    method InsertNew(pool: Pool, f: int, l: int, now: int, ip: int, before: Segment?, after: Segment?, ghost i: nat)
      returns (n: Segment)
      requires Owns(pool) && i <= |nodes|
      requires if i == 0 then before == null else before == nodes[i - 1]
      requires if i == |nodes| then after == null else after == nodes[i]
      modifies this`head, this`tail, this`count, this`nodes, this`vals, this`own,
               Ref(before)`next, Ref(after)`prev, pool, pool.Top()
      ensures Owns(pool)
      ensures nodes == old(nodes)[..i] + [n] + old(nodes)[i..]
      ensures vals == old(vals)[..i] + [NewSeg(f, l, now, ip)] + old(vals)[i..]
      ensures n in old(pool.freeSet) || fresh(n)
      ensures own == old(own) + {n} && pool.freeSet == old(pool.freeSet) - {n} && pool.live == old(pool.live) + {n}
      ensures n !in old(pool.live)
    {
      n := CreateSeg(pool, f, l, now, ip);
      Adopt(pool, n, before, after, i);
    }

    /** One segment changes, but not its links. */
    method SetData(pool: Pool, p: Segment, d: Seg, ghost i: nat)
      requires Owns(pool) && i < |nodes| && nodes[i] == p
      modifies this`vals, p`data
      ensures Owns(pool)
      ensures vals == old(vals)[i := d] && p.data == d
    {
      p.data := d;
      vals := vals[i := d];
    }

    /** The oldest segment leaves the list and its successor takes over its first byte. */
    method UnlinkHead(pool: Pool) returns (tmp: Segment)
      requires Owns(pool) && |nodes| >= 2
      modifies this`head, this`count, this`nodes, this`vals, this`own, nodes[1]
      ensures Owns(pool)
      ensures own == old(own) - {tmp} && tmp in old(own)
      ensures tmp == old(nodes)[0] && nodes == old(nodes)[1..] && vals == Evict(old(vals))
    {
      tmp := head;
      if tmp.next != null {
        tmp.next.prev := tmp.prev;
      }
      head := tmp.next;
      head.data := head.data.(first := tmp.data.first);
      count := count - 1;
      nodes, vals, own := nodes[1..], Evict(vals), own - {tmp};
      assert forall x :: x in old(nodes) <==> x == tmp || x in nodes;
    }

    /** The eviction of addseg: the oldest segment goes back to the pool. */
    method EvictHead(pool: Pool)
      requires Owns(pool) && |nodes| >= 2
      modifies this`head, this`count, this`nodes, this`vals, this`own, pool, nodes[0], nodes[1]
      ensures Owns(pool)
      ensures nodes == old(nodes)[1..] && vals == Evict(old(vals))
      ensures own == old(own) - {old(nodes)[0]} && old(nodes)[0] in old(own)
      ensures pool.live == old(pool.live) - {old(nodes)[0]} && pool.freeSet == old(pool.freeSet) + {old(nodes)[0]}
    {
      var tmp := UnlinkHead(pool);
      pool.Release(tmp);
    }

    /** A new segment f..l is linked in before segment i. */
    method InsertBefore(pool: Pool, p: Segment, f: int, l: int, now: int, ip: int, ghost i: nat) returns (n: Segment)
      requires Owns(pool) && i < |nodes| && nodes[i] == p
      modifies this`head, this`tail, this`count, this`nodes, this`vals, this`own, pool, Footprint(pool)
      ensures Owns(pool)
      ensures i + 1 < |nodes| && nodes[i] == n && nodes[i + 1] == p && n in own
      ensures vals == old(vals)[..i] + [NewSeg(f, l, now, ip)] + old(vals)[i..]
      ensures p.data == old(p.data)
      ensures Others(pool) == old(Others(pool)) && fresh(Footprint(pool) - old(Footprint(pool)))
    {
      n := InsertNew(pool, f, l, now, ip, p.prev, p, i);
    }

    /** A new piece takes the bytes f.. that lie before segment i. */
    method PieceBefore(pool: Pool, p: Segment, f: int, l: int, now: int, ip: int, ghost i: nat)
      requires Owns(pool) && i < |nodes| && nodes[i] == p
      modifies this`head, this`tail, this`count, this`nodes, this`vals, this`own, pool, Footprint(pool)
      ensures Owns(pool)
      ensures i + 1 < |nodes| && nodes[i + 1] == p
      ensures vals == old(vals)[..i] + [NewSeg(f, old(vals)[i].first - 1, now, ip)] + old(vals)[i..]
      ensures Others(pool) == old(Others(pool)) && fresh(Footprint(pool) - old(Footprint(pool)))
    {
      var n := InsertBefore(pool, p, f, l, now, ip, i);
      SetData(pool, n, n.data.(last := p.data.first - 1), i);
      UpdateInserted(old(vals), i, NewSeg(f, l, now, ip), NewSeg(f, p.data.first - 1, now, ip));
    }

    /** One visit of the walk in which the bytes f.. overlap segment i: a piece before it, if any, and a hit. */
    method Overlap(pool: Pool, p: Segment, f: int, l: int, split: bool, now: int, ip: int, ghost i: nat) returns (ghost j: nat)
      requires Owns(pool) && i < |nodes| && nodes[i] == p
      modifies this`head, this`tail, this`count, this`nodes, this`vals, this`own, pool, Footprint(pool)
      ensures Owns(pool)
      ensures vals == AfterHit(old(vals), i, f, split, now, ip)
      ensures j == i + |Before(old(vals)[i], f, now, ip)| && j < |nodes| && nodes[j] == p
      ensures Others(pool) == old(Others(pool)) && fresh(Footprint(pool) - old(Footprint(pool)))
    {
      j := i;
      if f < p.data.first {
        PieceBefore(pool, p, f, l, now, ip, i);
        j := i + 1;
      }
      SetData(pool, p, Resend(p.data, split, now), j);
    }

    /** The last visit of addseg's loop: what is left of the packet ends at segment i. */
    method Finish(pool: Pool, pseg: Segment, f: int, l: int, split: bool, rexlen: int, ooo: bool, now: int, ip: int,
                  ghost i: nat)
      returns (bytes: int, outOfOrder: bool)
      requires Owns(pool) && i < |nodes| && pseg == nodes[i] && f <= pseg.data.last
      requires (f < pseg.data.first && l <= pseg.data.first) || l <= pseg.data.last
      modifies this`head, this`tail, this`count, this`nodes, this`vals, this`own, pool, Footprint(pool)
      ensures Owns(pool)
      ensures Others(pool) == old(Others(pool)) && fresh(Footprint(pool) - old(Footprint(pool)))
      ensures Added(vals, bytes, outOfOrder, false) == Resume(old(vals), i, f, l, split, rexlen, ooo, now, ip)
    {
      var p := pseg.data;
      outOfOrder := ooo || (f < p.first && l < p.last);
      if f < p.first && l <= p.first {
        StopBefore(vals, i, f, l, split, rexlen, ooo, now, ip);
        bytes := rexlen;
        var n := InsertBefore(pool, pseg, f, l, now, ip, i);
      } else {
        StopInside(vals, i, f, l, split, rexlen, ooo, now, ip);
        bytes := rexlen + (l - Inside(p, f) + 1);
        ghost var j := Overlap(pool, pseg, f, l, split, now, ip, i);
      }
    }

    /** A visit after which bytes beyond segment i are left. */
    method Advance(pool: Pool, pseg: Segment, f: int, l: int, split: bool, rexlen: int, ooo: bool, now: int, ip: int,
                   ghost i: nat)
      returns (bytes: int, ghost j: nat)
      requires Owns(pool) && i < |nodes| && pseg == nodes[i]
      requires f <= pseg.data.last < l && !(f < pseg.data.first && l <= pseg.data.first)
      modifies this`head, this`tail, this`count, this`nodes, this`vals, this`own, pool, Footprint(pool)
      ensures Owns(pool)
      ensures Others(pool) == old(Others(pool)) && fresh(Footprint(pool) - old(Footprint(pool)))
      ensures j < |nodes| && nodes[j] == pseg && |nodes| - j == old(|nodes|) - i
      ensures Resume(vals, j + 1, old(pseg.data.last) + 1, l, true, bytes, ooo, now, ip)
           == Resume(old(vals), i, f, l, split, rexlen, ooo, now, ip)
    {
      bytes := rexlen + (pseg.data.last - Inside(pseg.data, f) + 1);
      GoBeyond(vals, i, f, l, split, rexlen, ooo, now, ip);
      j := Overlap(pool, pseg, f, l, split, now, ip, i);
    }

    /** A new segment f..l is linked in at the end. */
    method Append(pool: Pool, f: int, l: int, now: int, ip: int)
      requires Owns(pool)
      modifies this`head, this`tail, this`count, this`nodes, this`vals, this`own, pool, Footprint(pool)
      ensures Owns(pool)
      ensures vals == old(vals) + [NewSeg(f, l, now, ip)]
      ensures Others(pool) == old(Others(pool)) && fresh(Footprint(pool) - old(Footprint(pool)))
    {
      var n := InsertNew(pool, f, l, now, ip, tail, null, |nodes|);
    }

    /** One round of the loop of addseg, at segment i. Unless it is done, the walk goes on at segment j with the bytes g... */
    method Visit(pool: Pool, pseg: Segment, f: int, l: int, split: bool, rexlen: int, ooo: bool, now: int, ip: int,
                 ghost i: nat, ghost goal: Added)
      returns (done: bool, next: Segment?, g: int, cut: bool, bytes: int, outOfOrder: bool, ghost j: nat)
      requires Owns(pool) && i < |nodes| && pseg == nodes[i]
      requires Resume(vals, i, f, l, split, rexlen, ooo, now, ip) == goal
      modifies this`head, this`tail, this`count, this`nodes, this`vals, this`own, pool, Footprint(pool)
      ensures Owns(pool)
      ensures Others(pool) == old(Others(pool)) && fresh(Footprint(pool) - old(Footprint(pool)))
      ensures done ==> Added(vals, bytes, outOfOrder, false) == goal
      ensures !done ==> j <= |nodes| && |nodes| - j < old(|nodes|) - i && next == if j == |nodes| then null else nodes[j]
      ensures !done ==> Resume(vals, j, g, l, cut, bytes, outOfOrder, now, ip) == goal
    {
      var p := pseg.data;
      done, next, g, cut, bytes, outOfOrder, j := false, null, f, split, rexlen, ooo, i;
      if f > p.last {
        Skip(vals, i, f, l, split, rexlen, ooo, now, ip);
        next, j := pseg.next, i + 1;
      } else if (f < p.first && l <= p.first) || l <= p.last {
        bytes, outOfOrder := Finish(pool, pseg, f, l, split, rexlen, ooo, now, ip, i);
        done := true;
      } else {
        bytes, j := Advance(pool, pseg, f, l, split, rexlen, ooo, now, ip, i);
        next, g, cut, j := pseg.next, p.last + 1, true, j + 1;
      }
    }

    /** The loop of addseg. Unless it is done, the bytes from f on are left for the end of the list. */
    method WalkList(pool: Pool, first: int, l: int, now: int, ip: int)
      returns (done: bool, f: int, rexlen: int, outOfOrder: bool)
      requires Owns(pool)
      modifies this`head, this`tail, this`count, this`nodes, this`vals, this`own, pool, Footprint(pool)
      ensures Owns(pool)
      ensures Others(pool) == old(Others(pool)) && fresh(Footprint(pool) - old(Footprint(pool)))
      ensures Added(if done then vals else vals + [NewSeg(f, l, now, ip)], rexlen, outOfOrder, !done)
           == Insert(old(vals), first, l, now, ip)
    {
      ghost var i: nat := 0;
      ghost var goal := Insert(vals, first, l, now, ip);
      f, rexlen, outOfOrder, done := first, 0, false, false;
      var split, pseg := false, head;
      StartOfWalk(vals, f, l, now, ip);
      if tail != null && f > tail.data.last {
        pseg, i := null, |nodes|;
        EndOfWalk(vals, f, l, split, rexlen, outOfOrder, now, ip);
      }
      while pseg != null
        invariant !done && Owns(pool) && i <= |nodes|
        invariant pseg == if i == |nodes| then null else nodes[i]
        invariant Resume(vals, i, f, l, split, rexlen, outOfOrder, now, ip) == goal
        invariant Others(pool) == old(Others(pool)) && fresh(Footprint(pool) - old(Footprint(pool)))
        decreases |nodes| - i
      {
        done, pseg, f, split, rexlen, outOfOrder, i :=
          Visit(pool, pseg, f, l, split, rexlen, outOfOrder, now, ip, i, goal);
        if done { return; }
      }
      EndOfWalk(vals, f, l, split, rexlen, outOfOrder, now, ip);
    }

    /** addseg: record the bytes first.. of a packet in this quadrant. */
    method AddSeg(pool: Pool, first: SeqNum, len: int, now: int, ip: int) returns (rexlen: int, outOfOrder: bool)
      requires Owns(pool)
      modifies this`head, this`tail, this`count, this`nodes, this`vals, this`own, pool, Footprint(pool)
      ensures Owns(pool)
      ensures Others(pool) == old(Others(pool)) && fresh(Footprint(pool) - old(Footprint(pool)))
      ensures var r := SegmentList.AddSeg(old(vals), first, LastByte(first, len), now, ip);
              vals == r.list && rexlen == r.bytes && outOfOrder == r.outOfOrder
    {
      var l: int := LastByte(first, len);
      var done, f;
      done, f, rexlen, outOfOrder := WalkList(pool, first, l, now, ip);
      if !done {
        AppendAndEvict(pool, f, l, now, ip);
      }
    }

    /** The end of addseg: tack the rest onto the end and keep the list short. */
    method AppendAndEvict(pool: Pool, f: int, l: int, now: int, ip: int)
      requires Owns(pool)
      modifies this`head, this`tail, this`count, this`nodes, this`vals, this`own, pool, Footprint(pool)
      ensures Owns(pool)
      ensures var t := old(vals) + [NewSeg(f, l, now, ip)];
              vals == if |t| > MAX_SEG_PER_QUAD then Evict(t) else t
      ensures Others(pool) == old(Others(pool)) && fresh(Footprint(pool) - old(Footprint(pool)))
    {
      Append(pool, f, l, now, ip);
      if count > MAX_SEG_PER_QUAD {
        EvictHead(pool);
      }
    }

    /** The successor of p leaves the list. */
    method Unlink(p: Segment, ghost i: nat) returns (tmp: Segment)
      requires Linked() && i + 1 < |nodes| && nodes[i] == p
      modifies this`tail, this`count, this`nodes, p`next, Ref(if i + 2 < |nodes| then nodes[i + 2] else null)`prev
      ensures Linked() && tmp == old(nodes)[i + 1]
      ensures nodes == old(nodes)[..i + 1] + old(nodes)[i + 2..]
    {
      tmp := p.next;
      p.next := tmp.next;
      if p.next != null {
        p.next.prev := p;
      }
      if tmp == tail {
        tail := p;
      }
      count := count - 1;
      nodes := nodes[..i + 1] + nodes[i + 2..];
    }

    method UnlinkNext(pool: Pool, p: Segment, ghost i: nat) returns (tmp: Segment)
      requires Owns(pool) && i + 1 < |nodes| && nodes[i] == p
      modifies this`tail, this`count, this`nodes, this`vals, this`own, own`next, own`prev
      ensures Owns(pool)
      ensures i < |nodes| && nodes[i] == p && |nodes| == old(|nodes|) - 1
      ensures vals == old(vals)[..i + 1] + old(vals)[i + 2..]
      ensures own == old(own) - {tmp} && tmp in old(own)
    {
      RemovedElements(nodes, i);
      tmp := Unlink(p, i);
      assert forall x {:trigger x in nodes} :: x in old(nodes) && x != tmp ==> x in nodes;
      vals, own := vals[..i + 1] + vals[i + 2..], own - {tmp};
    }

    /** Two contiguous acked segments of collapse_quad become one and the second goes back to the pool. */
    method MergeNext(pool: Pool, p: Segment, ghost i: nat)
      requires Owns(pool) && i + 1 < |nodes| && nodes[i] == p
      modifies this`tail, this`count, this`nodes, this`vals, this`own, own, pool
      ensures Owns(pool)
      ensures i < |nodes| && nodes[i] == p && |nodes| == old(|nodes|) - 1
      ensures vals == old(vals)[..i] + [Merge(old(vals)[i], old(vals)[i + 1])] + old(vals)[i + 2..]
      ensures own <= old(own)
      ensures Others(pool) == old(Others(pool)) && Footprint(pool) == old(Footprint(pool))
    {
      SetData(pool, p, Merge(p.data, p.next.data), i);
      var tmp := UnlinkNext(pool, p, i);
      pool.Release(tmp);
    }

    /** The loop of collapse_quad. */
    method CollapseRun(pool: Pool)
      requires Owns(pool) && head != null
      modifies this`tail, this`count, this`nodes, this`vals, this`own, own, pool
      ensures Owns(pool) && head != null
      ensures vals == SegmentList.Collapse(old(vals))
      ensures Others(pool) == old(Others(pool)) && Footprint(pool) == old(Footprint(pool))
    {
      var pseg := head;
      ghost var i: nat := 0;
      CollapseStart(vals);
      while pseg.next != null && pseg.data.acked > 0
        invariant Owns(pool) && i < |nodes| && pseg == nodes[i]
        invariant CollapseAt(vals, i) == SegmentList.Collapse(old(vals))
        invariant own <= old(own)
        invariant Others(pool) == old(Others(pool)) && Footprint(pool) == old(Footprint(pool))
        decreases |nodes| - i
      {
        if Mergeable(pseg.data, pseg.next.data) {
          CollapseMerge(vals, i);
          MergeNext(pool, pseg, i);
        } else {
          CollapseMove(vals, i);
          pseg, i := pseg.next, i + 1;
        }
      }
      CollapseStop(vals, i);
    }

    /** collapse_quad: contiguous segments of the leading acked run become one, and a full quadrant is noticed. */
    method Collapse(pool: Pool)
      requires Owns(pool)
      modifies this`tail, this`count, this`nodes, this`vals, this`own, this`full, own, pool
      ensures Owns(pool)
      ensures Quad(vals, full) == CollapseQuad(old(Quad(vals, full)))
      ensures Others(pool) == old(Others(pool)) && Footprint(pool) == old(Footprint(pool))
    {
      if head != null {
        CollapseRun(pool);
        assert head.data == vals[0];
        if head.data.last - head.data.first + 1 == QUADSIZE {
          full := true;
        }
      }
    }

    /** The first walk of ack_in, at segment i. */
    method AckWholeHere(pool: Pool, pseg: Segment, d: RttCounters, lastXmit: int, ghost i: nat)
      returns (e: RttCounters, newest: int, first: bool)
      requires Owns(pool) && i < |nodes| && nodes[i] == pseg
      modifies this`vals, pseg`data
      ensures Owns(pool)
      ensures var one := AckWhole(old(vals)[i], lastXmit);
              vals == old(vals)[i := one.list[0]] && newest == one.lastXmit && first == one.changed && e == Count(d, one)
    {
      e, newest, first := d, lastXmit, pseg.data.acked == 0;
      if first {
        e := e.(cumack := e.cumack + 1);
        newest := Newest(pseg.data.time, newest);
        SetData(pool, pseg, pseg.data.(acked := pseg.data.acked + 1), i);
      }
    }

    /** One round of the first walk of ack_in. The walk over m has come to segment i. */
    method AckWholeStep(pool: Pool, pseg: Segment, d: RttCounters, lastXmit: int, changed: bool,
                        ghost m: seq<Seg>, ghost i: nat, ghost acc: Acked, ghost c: RttCounters)
      returns (e: RttCounters, newest: int, any: bool, ghost next: Acked)
      requires Owns(pool) && i < |nodes| == |m| && nodes[i] == pseg
      requires AckAllState(m, i, acc, vals, c, d) && lastXmit == acc.lastXmit && changed == acc.changed
      modifies this`vals, pseg`data
      ensures Owns(pool)
      ensures AckAllState(m, i + 1, next, vals, c, e) && newest == next.lastXmit && any == next.changed
    {
      AckAllMove(m, i, acc, vals, c, d);
      next := Join(acc, AckWhole(m[i], lastXmit));
      var first;
      e, newest, first := AckWholeHere(pool, pseg, d, lastXmit, i);
      any := changed || first;
    }

    /** The first walk of ack_in: all segments are acked, those not acked before are counted. */
    method AckAllSegs(pool: Pool, c: RttCounters) returns (d: RttCounters, lastXmit: int, changed: bool)
      requires Owns(pool)
      modifies this`vals, own`data
      ensures Owns(pool)
      ensures var a := AckAll(old(vals), 0);
              vals == a.list && lastXmit == a.lastXmit && changed == a.changed && d == Count(c, a)
    {
      d, lastXmit, changed := c, 0, false;
      ghost var m, acc := vals, Untouched([], 0);
      ghost var i: nat := 0;
      var pseg := head;
      AckAllStart(m, c);
      while pseg != null
        invariant Owns(pool) && i <= |nodes| == |m|
        invariant pseg == if i == |nodes| then null else nodes[i]
        invariant AckAllState(m, i, acc, vals, c, d)
        invariant lastXmit == acc.lastXmit && changed == acc.changed
        decreases |nodes| - i
      {
        d, lastXmit, changed, acc := AckWholeStep(pool, pseg, d, lastXmit, changed, m, i, acc, c);
        pseg, i := pseg.next, i + 1;
      }
      AckAllEnd(m, acc, vals, c, d);
    }

    /** rtt_ackin: the verdict on a segment that the ack ends on, and what it adds to the counters. */
    method RttAckIn(d: RttCounters, p: Seg, now: int, rexmitPrev: bool) returns (e: RttCounters, ret: AckType, ghost samples: seq<int>)
      ensures ret == Verdict(p, rexmitPrev)
      ensures samples == if ret == Normal then [Elapsed(p.time, now)] else []
      ensures e == d.(nosample := d.nosample + (if ret == NoSamp then 1 else 0), count := d.count + |samples|,
                      sum := d.sum + Sum(samples), sum2 := d.sum2 + SumOfSquares(samples))
    {
      var etime := Elapsed(p.time, now);
      e, samples := d, [];
      if rexmitPrev {
        e := e.(nosample := e.nosample + 1);
        ret := NoSamp;
      } else if p.retrans == 0 {
        e := e.(sum := e.sum + etime, sum2 := e.sum2 + etime * etime, count := e.count + 1);
        ret, samples := Normal, [etime];
      } else {
        ret := Ambig;
      }
    }

    /** The second walk of ack_in, at a segment that the ack reaches. own is Unset if the verdict so far stands. */
    method AckOneHere(pool: Pool, pseg: Segment, d: RttCounters, lastXmit: int, ack: int, dataLen: nat, now: int, ghost i: nat)
      returns (e: RttCounters, newest: int, first: bool, own: AckType)
      requires Owns(pool) && i < |nodes| && nodes[i] == pseg
      modifies this`vals, pseg`data
      ensures Owns(pool)
      ensures var one := AckOne(old(vals)[i], ack, dataLen, now, lastXmit);
              && vals == old(vals)[i := one.list[0]] && e == Count(d, one)
              && newest == one.lastXmit && first == one.changed && own == one.ret
    {
      var p := pseg.data;
      e, newest, first, own := d, Newest(p.time, lastXmit), p.acked == 0, Unset;
      SetData(pool, pseg, p.(acked := p.acked + 1), i);
      if !first {
        if ack == p.last + 1 {
          e := e.(dupack := e.dupack + 1);
          own := Cumul;
          if pseg.data.acked == 4 && dataLen == 0 {
            e := e.(triple := e.triple + 1);
            own := Triple;
          }
        }
      } else if ack == p.last + 1 {
        ghost var samples;
        e, own, samples := RttAckIn(e, p, now, newest > p.time);
      } else {
        e := e.(cumack := e.cumack + 1);
        own := Cumul;
      }
    }

    /** One round of the second walk, within what the walk has come to. */
    method AckUpToRound(pool: Pool, pseg: Segment, d: RttCounters, newest: int, changed: bool, ret: AckType,
                        ack: int, dataLen: nat, now: int,
                        ghost m: seq<Seg>, ghost i: nat, ghost acc: Acked, ghost c: RttCounters, ghost goal: Acked)
      returns (e: RttCounters, xmit: int, any: bool, verdict: AckType, succ: Segment?, ghost next: Acked)
      requires Owns(pool) && i < |nodes| == |m| && nodes[i] == pseg && ack > m[i].first
      requires AckUpToState(m, i, acc, vals, c, d, goal, ack, dataLen, now)
      requires newest == acc.lastXmit && changed == acc.changed && ret == acc.ret
      modifies this`vals, pseg`data
      ensures Owns(pool) && AckUpToState(m, i + 1, next, vals, c, e, goal, ack, dataLen, now)
      ensures xmit == next.lastXmit && any == next.changed && verdict == next.ret
      ensures if i + 1 == |nodes| then succ == null else succ == nodes[i + 1] && succ.data == m[i + 1]
    {
      AckUpToMove(m, i, acc, vals, c, d, goal, ack, dataLen, now);
      next := Join(acc, AckOne(m[i], ack, dataLen, now, newest));
      var first, own;
      e, xmit, first, own := AckOneHere(pool, pseg, d, newest, ack, dataLen, now, i);
      any := changed || first;
      verdict := if own != Unset then own else ret;
      succ := pseg.next;
      AckUpToAhead(m, i + 1, next, vals, c, e, goal, ack, dataLen, now);
    }

    /** The second walk of ack_in: the segments that start below the ack are acked. */
    method AckSegsUpTo(pool: Pool, c: RttCounters, lastXmit: int, ack: int, dataLen: nat, now: int)
      returns (d: RttCounters, ret: AckType, changed: bool)
      requires Owns(pool)
      modifies this`vals, own`data
      ensures Owns(pool)
      ensures var a := AckUpTo(old(vals), ack, dataLen, now, lastXmit);
              vals == a.list && ret == a.ret && changed == a.changed && d == Count(c, a)
    {
      d, ret, changed := c, Unset, false;
      var newest := lastXmit;
      ghost var m, acc := vals, Untouched([], lastXmit);
      ghost var goal := AckUpTo(vals, ack, dataLen, now, lastXmit);
      ghost var i: nat := 0;
      var pseg := head;
      AckUpToStart(m, c, ack, dataLen, now, lastXmit);
      while pseg != null && ack > pseg.data.first
        invariant Owns(pool) && i <= |nodes| == |m|
        invariant if i == |nodes| then pseg == null else pseg == nodes[i] && pseg.data == m[i]
        invariant AckUpToState(m, i, acc, vals, c, d, goal, ack, dataLen, now)
        invariant newest == acc.lastXmit && changed == acc.changed && ret == acc.ret
        decreases |nodes| - i
      {
        d, newest, changed, ret, pseg, acc := AckUpToRound(pool, pseg, d, newest, changed, ret, ack, dataLen, now, m, i, acc, c, goal);
        i := i + 1;
      }
      AckUpToEnd(m, i, acc, vals, c, d, goal, ack, dataLen, now);
    }

    /** What ack_in does to the quadrant before that of the ack. */
    method AckPrevious(pool: Pool, c: RttCounters) returns (d: RttCounters, lastXmit: int)
      requires Owns(pool)
      modifies this`tail, this`count, this`nodes, this`vals, this`own, this`full, own, pool
      ensures Owns(pool)
      ensures var a := AckAll(old(vals), 0);
              Quad(vals, full) == AfterWalk(old(Quad(vals, full)), a) && lastXmit == a.lastXmit && d == Count(c, a)
      ensures Others(pool) == old(Others(pool)) && Footprint(pool) == old(Footprint(pool))
    {
      var changed;
      d, lastXmit, changed := AckAllSegs(pool, c);
      if changed {
        Collapse(pool);
      }
    }

    /** What ack_in does to the quadrant of the ack. */
    method AckCurrent(pool: Pool, c: RttCounters, lastXmit: int, ack: int, dataLen: nat, now: int)
      returns (d: RttCounters, ret: AckType)
      requires Owns(pool)
      modifies this`tail, this`count, this`nodes, this`vals, this`own, this`full, own, pool
      ensures Owns(pool)
      ensures var a := AckUpTo(old(vals), ack, dataLen, now, lastXmit);
              Quad(vals, full) == AfterWalk(old(Quad(vals, full)), a) && ret == a.ret && d == Count(c, a)
      ensures Others(pool) == old(Others(pool)) && Footprint(pool) == old(Footprint(pool))
    {
      var changed;
      d, ret, changed := AckSegsUpTo(pool, c, lastXmit, ack, dataLen, now);
      if changed {
        Collapse(pool);
      }
    }

    /** All fields are zero. */
    ghost predicate Zeroed()
      reads this
    {
      head == null && tail == null && !full && count == 0 && prev == null && nodes == [] && vals == [] && own == {}
    }

    constructor ()
      ensures Zeroed() && next == null
    {
      head, tail, full, count, prev, next := null, null, false, 0, null, null;
      nodes, vals, own := [], [], {};
    }

    method Clear()
      modifies this
      ensures Zeroed() && next == null
    {
      head, tail, full, count, prev, next := null, null, false, 0, null, null;
      nodes, vals, own := [], [], {};
    }

    /** The loop of freequad: all segments go back to the pool. */
    method FreeSegs(pool: Pool)
      requires Owns(pool)
      modifies pool, own
      ensures pool.Valid()
      ensures pool.live == old(pool.live) - own && pool.freeSet == old(pool.freeSet) + own
    {
      var pseg := head;
      ghost var i: nat, gone: set<Segment> := 0, {};
      while pseg != null
        invariant pool.Valid() && i <= |nodes|
        invariant if i == |nodes| then pseg == null else pseg == nodes[i]
        invariant forall k {:trigger nodes[k].next} :: i <= k < |nodes| - 1 ==> nodes[k].next == nodes[k + 1]
        invariant i < |nodes| ==> nodes[|nodes| - 1].next == null
        invariant forall k {:trigger nodes[k]} :: 0 <= k < |nodes| ==> (k < i <==> nodes[k] in gone)
        invariant gone <= own <= old(pool.live)
        invariant pool.live == old(pool.live) - gone && pool.freeSet == old(pool.freeSet) + gone
        decreases |nodes| - i
      {
        var next := pseg.next;
        gone := gone + {pseg};
        pool.Release(pseg);
        pseg, i := next, i + 1;
      }
      assert forall x :: x in own ==> x in nodes;
      assert gone == own;
    }
  }

  /** The stack of released quadrants. live are those handed out and not yet released. */
  class QuadPool {
    var flist: Quadrant?
    ghost var free: seq<Quadrant>
    ghost var freeSet: set<Quadrant>
    ghost var live: set<Quadrant>

    ghost predicate Valid()
      reads this, freeSet
    {
      && freeSet !! live
      && (forall i {:trigger free[i]} :: 0 <= i < |free| ==> free[i] in freeSet)
      && (forall x {:trigger x in free} :: x in freeSet ==> x in free)
      && (forall x {:trigger x.Zeroed()} :: x in freeSet ==> x.Zeroed())
      && flist == (if free == [] then null else free[0])
      && (free != [] ==> free[|free| - 1].next == null)
      && (forall i {:trigger free[i].next} :: 0 <= i < |free| - 1 ==> free[i].next == free[i + 1])
      && (forall i, j :: 0 <= i < j < |free| ==> free[i] != free[j])
    }

    /** All quadrants ever allocated. */
    ghost function All(): set<Quadrant>
      reads this
    {
      live + freeSet
    }

    ghost function Top(): set<Quadrant>
      reads this
    {
      if free == [] then {} else {free[0]}
    }

    constructor ()
      ensures Valid() && free == [] && live == {}
    {
      flist := null;
      free, freeSet, live := [], {}, {};
    }

    /** quadrant_alloc */
    method Alloc() returns (q: Quadrant)
      requires Valid()
      modifies this, Top()
      ensures Valid() && freeSet == old(freeSet) - {q}
      ensures q in old(Top()) || fresh(q)
      ensures q !in old(live) && live == old(live) + {q}
      ensures q.Zeroed() && q.next == null
    {
      if flist == null {
        q := new Quadrant();
      } else {
        q := flist;
        assert q.Zeroed();
        flist := flist.next;
        free := free[1..];
        assert forall x :: x in old(free) <==> x == q || x in free;
      }
      freeSet, live := freeSet - {q}, live + {q};
      q.next := null;
    }

    /** quadrant_release */
    method Release(q: Quadrant)
      requires Valid() && q in live
      modifies this, q
      ensures Valid() && freeSet == old(freeSet) + {q} && live == old(live) - {q}
    {
      q.Clear();
      q.next := flist;
      flist := q;
      free := [q] + free;
      freeSet, live := freeSet + {q}, live - {q};
    }
  }
}
