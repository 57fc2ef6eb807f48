/**
 What the clocks of the segments remember of the transmissions of a run, and with it what it means for a sample that nothing was
 sent after its segment.
 */
module Transmissions {
  import opened SegmentList
  import opened SegmentCoverage
  import opened SegmentAcks
  import opened SegmentHistory
  import opened SegmentTimes
  import opened SequenceSpace
  import opened SequenceSpaceRuns
  import opened SampleRuns
  import opened PacketRuns

  // ---- what a list remembers of a time ----

  /** Some segment that starts at or before byte b is as new as t. */
  predicate Holds(s: seq<Seg>, b: int, t: int) {
    exists j :: 0 <= j < |s| && HoldsAt(s, j, b, t)
  }

  predicate HoldsAt(s: seq<Seg>, j: int, b: int, t: int)
    requires 0 <= j < |s|
  {
    s[j].first <= b && t <= s[j].time
  }

  /** The list remembers of every piece when it was sent, at or before the first byte of that piece. */
  ghost predicate Remembers(h: seq<Sending>, s: seq<Seg>) {
    forall k :: 0 <= k < |h| ==> Holds(s, h[k].first, h[k].time)
  }

  /** The clock of the segment was set by a piece that met it. */
  ghost predicate From(h: seq<Sending>, p: Seg) {
    exists k :: 0 <= k < |h| && SetBy(h[k], p)
  }

  predicate SetBy(x: Sending, p: Seg) {
    x.time == p.time && Overlaps(x, p.first, p.last)
  }

  ghost predicate AllFrom(h: seq<Sending>, s: seq<Seg>) {
    forall j :: 0 <= j < |s| ==> From(h, s[j])
  }

  /** No piece was sent after now. */
  predicate NoneAfter(h: seq<Sending>, now: int) {
    forall k :: 0 <= k < |h| ==> h[k].time <= now
  }

  lemma FromMore(h: seq<Sending>, x: Sending, p: Seg, q: Seg)
    requires From(h, p) && q.time == p.time && q.first <= p.first && p.last <= q.last
    ensures From(h + [x], q)
  {
    var k :| 0 <= k < |h| && SetBy(h[k], p);
    assert SetBy((h + [x])[k], q);
  }

  lemma FromWider(h: seq<Sending>, p: Seg, q: Seg)
    requires From(h, p) && q.time == p.time && q.first <= p.first && p.last <= q.last
    ensures From(h, q)
  {
    var k :| 0 <= k < |h| && SetBy(h[k], p);
    assert SetBy(h[k], q);
  }

  lemma FromLast(h: seq<Sending>, x: Sending, p: Seg)
    requires SetBy(x, p)
    ensures From(h + [x], p)
  {
    assert (h + [x])[|h|] == x;
  }

  lemma NotAfter(h: seq<Sending>, s: seq<Seg>, j: int, now: int)
    requires AllFrom(h, s) && NoneAfter(h, now) && 0 <= j < |s|
    ensures s[j].time <= now
  {
    assert From(h, s[j]);
  }

  // ---- one piece ----

  lemma {:induction false} WalkStarts(s: seq<Seg>, f: int, l: int, now: int, ip: int)
    requires Sorted(s) && (f <= l || Covers(s, f))
    ensures Holds(Walk(s, f, l, false, now, ip).list, f, now)
    decreases |s|
  {
    var w := Walk(s, f, l, false, now, ip).list;
    if f > l { CoversWithin(s, f); }
    if s == [] {
      assert HoldsAt(w, 0, f, now);
    } else if f > s[0].last {
      var rest := Walk(s[1..], f, l, false, now, ip).list;
      WalkStarts(s[1..], f, l, now, ip);
      var j :| 0 <= j < |rest| && HoldsAt(rest, j, f, now);
      assert HoldsAt(w, j + 1, f, now);
    } else {
      assert HoldsAt(w, 0, f, now);
    }
  }

  /** A forward piece, up to an eviction. */
  lemma PieceSets(h: seq<Sending>, s: seq<Seg>, x: Sending, ip: int)
    requires Sorted(s) && AllFrom(h, s) && x.first <= x.last
    ensures AllFrom(h + [x], Insert(s, x.first, x.last, x.time, ip).list)
  {
    var w := Insert(s, x.first, x.last, x.time, ip).list;
    InsertTouches(s, x.first, x.last, x.time, ip);
    forall j | 0 <= j < |w| ensures From(h + [x], w[j]) {
      var p := w[j];
      assert p in w;
      if IsNew(s, p, x.first, x.last, x.time, ip) {
        FromLast(h, x, p);
      } else {
        var i :| 0 <= i < |s| && p == AfterPiece(s, i, x.first, x.last, false, x.time);
        if p.time == s[i].time { FromMore(h, x, s[i], p); } else { FromLast(h, x, p); }
      }
    }
  }

  lemma PieceKeepsHeld(h: seq<Sending>, s: seq<Seg>, x: Sending, ip: int, b: int, t: int)
    requires Sorted(s) && AllFrom(h, s) && NoneAfter(h, x.time) && x.first <= x.last && Holds(s, b, t)
    ensures Holds(Insert(s, x.first, x.last, x.time, ip).list, b, t)
  {
    var w := Insert(s, x.first, x.last, x.time, ip).list;
    InsertTouches(s, x.first, x.last, x.time, ip);
    var i :| 0 <= i < |s| && HoldsAt(s, i, b, t);
    NotAfter(h, s, i, x.time);
    var p := AfterPiece(s, i, x.first, x.last, false, x.time);
    assert p in w;
    var j :| 0 <= j < |w| && w[j] == p;
    assert HoldsAt(w, j, b, t);
  }

  lemma PieceRemembered(h: seq<Sending>, s: seq<Seg>, x: Sending, ip: int)
    requires Sorted(s) && AllFrom(h, s) && NoneAfter(h, x.time) && x.first <= x.last && Remembers(h, s)
    ensures Remembers(h + [x], Insert(s, x.first, x.last, x.time, ip).list)
  {
    var w := Insert(s, x.first, x.last, x.time, ip).list;
    forall k | 0 <= k < |h| + 1 ensures Holds(w, (h + [x])[k].first, (h + [x])[k].time) {
      if k < |h| {
        PieceKeepsHeld(h, s, x, ip, h[k].first, h[k].time);
      } else {
        InsertIsWalk(s, x.first, x.last, x.time, ip);
        WalkStarts(s, x.first, x.last, x.time, ip);
      }
    }
  }

  /** A piece that ends before it starts, on a recorded byte, hits the segment of that byte and nothing else. */
  lemma {:induction false} BackwardHits(s: seq<Seg>, f: int, l: int, now: int, ip: int) returns (i: nat)
    requires Sorted(s) && l < f && Covers(s, f)
    ensures i < |s| && s[i].first <= f <= s[i].last
    ensures Walk(s, f, l, false, now, ip).list == s[i := Resend(s[i], false, now)] && !Walk(s, f, l, false, now, ip).appended
    decreases |s|
  {
    CoversWithin(s, f);
    if f > s[0].last {
      var k := BackwardHits(s[1..], f, l, now, ip);
      i := k + 1;
      assert [s[0]] + s[1..][k := Resend(s[i], false, now)] == s[i := Resend(s[i], false, now)];
    } else {
      i := 0;
      assert [] + [Resend(s[0], false, now)] + s[1..] == s[0 := Resend(s[0], false, now)];
    }
  }

  /** A hit of segment i, whose clock starts anew. */
  lemma HitFrom(h: seq<Sending>, s: seq<Seg>, x: Sending, i: nat, p: Seg)
    requires i < |s| && AllFrom(h, s) && SetBy(x, p)
    ensures AllFrom(h + [x], s[i := p])
  {
    var w := s[i := p];
    forall j | 0 <= j < |w| ensures From(h + [x], w[j]) {
      if j == i { FromLast(h, x, p); } else { FromMore(h, x, s[j], w[j]); }
    }
  }

  lemma HitRemembered(h: seq<Sending>, s: seq<Seg>, x: Sending, i: nat, p: Seg)
    requires i < |s| && AllFrom(h, s) && NoneAfter(h, x.time) && Remembers(h, s) && p.first == s[i].first <= x.first && p.time == x.time
    ensures Remembers(h + [x], s[i := p])
  {
    var w := s[i := p];
    forall k | 0 <= k < |h| + 1 ensures Holds(w, (h + [x])[k].first, (h + [x])[k].time) {
      if k < |h| {
        var j :| 0 <= j < |s| && HoldsAt(s, j, h[k].first, h[k].time);
        NotAfter(h, s, j, x.time);
        assert HoldsAt(w, j, h[k].first, h[k].time);
      } else {
        assert HoldsAt(w, i, x.first, x.time);
      }
    }
  }

  lemma BackwardRemembered(h: seq<Sending>, s: seq<Seg>, x: Sending, ip: int)
    requires Sorted(s) && AllFrom(h, s) && x.last < x.first && Covers(s, x.first)
    ensures var w := AddSeg(s, x.first, x.last, x.time, ip).list;
            AllFrom(h + [x], w) && (NoneAfter(h, x.time) && Remembers(h, s) ==> Remembers(h + [x], w))
  {
    InsertIsWalk(s, x.first, x.last, x.time, ip);
    var i := BackwardHits(s, x.first, x.last, x.time, ip);
    HitFrom(h, s, x, i, Resend(s[i], false, x.time));
    if NoneAfter(h, x.time) && Remembers(h, s) { HitRemembered(h, s, x, i, Resend(s[i], false, x.time)); }
  }

  // ---- the eviction ----

  lemma EvictedFrom(h: seq<Sending>, s: seq<Seg>)
    requires Sorted(s) && |s| >= 2 && AllFrom(h, s)
    ensures AllFrom(h, Evict(s))
  {
    var e := Evict(s);
    SortedPairs(s, 0, 1);
    forall j | 0 <= j < |e| ensures From(h, e[j]) {
      FromWider(h, s[j + 1], e[j]);
    }
  }

  lemma EvictionHolds(s: seq<Seg>, b: int, t: int)
    requires Sorted(s) && |s| >= 2 && s[0].time <= s[1].time && Holds(s, b, t)
    ensures Holds(Evict(s), b, t)
  {
    var e := Evict(s);
    var j :| 0 <= j < |s| && HoldsAt(s, j, b, t);
    SortedPairs(s, 0, 1);
    if j > 1 { assert e[j - 1] == s[j]; }
    assert HoldsAt(e, if j == 0 then 0 else j - 1, b, t);
  }

  lemma EvictionForgets(s: seq<Seg>, b: int)
    requires Sorted(s) && |s| >= 2 && s[0].time > s[1].time && b <= s[0].last
    ensures !Holds(Evict(s), b, s[0].time)
  {
    var e := Evict(s);
    if Holds(e, b, s[0].time) {
      var j :| 0 <= j < |e| && HoldsAt(e, j, b, s[0].time);
      SortedPairs(s, 0, 1);
      if j > 0 { assert e[j] == s[j + 1]; SortedPairs(s, 1, j + 1); }
    }
  }

  /** An eviction forgets a transmission exactly if the segment that it removes is newer than the one that takes over its bytes. */
  lemma EvictionRemembers(h: seq<Sending>, s: seq<Seg>)
    requires Sorted(s) && |s| >= 2 && AllFrom(h, s) && Remembers(h, s)
    ensures Remembers(h, Evict(s)) <==> s[0].time <= s[1].time
  {
    if s[0].time <= s[1].time {
      forall k | 0 <= k < |h| ensures Holds(Evict(s), h[k].first, h[k].time) {
        EvictionHolds(s, h[k].first, h[k].time);
      }
    } else {
      assert From(h, s[0]);
      var k :| 0 <= k < |h| && SetBy(h[k], s[0]);
      EvictionForgets(s, h[k].first);
    }
  }

  /** The piece makes the list forget no transmission. */
  predicate KeepsHead(s: seq<Seg>, x: Sending, ip: int) {
    var r := Insert(s, x.first, x.last, x.time, ip);
    MustEvict(r) ==> r.list[0].time <= r.list[1].time
  }

  lemma AddedFrom(h: seq<Sending>, s: seq<Seg>, x: Sending, ip: int)
    requires Sorted(s) && AllFrom(h, s) && (x.first <= x.last || Covers(s, x.first))
    ensures AllFrom(h + [x], AddSeg(s, x.first, x.last, x.time, ip).list)
  {
    if x.first <= x.last {
      var r := Insert(s, x.first, x.last, x.time, ip);
      PieceSets(h, s, x, ip);
      InsertIsWalk(s, x.first, x.last, x.time, ip);
      WalkKeepsOrder(s, x.first, x.last, false, x.time, ip);
      if MustEvict(r) { EvictedFrom(h + [x], r.list); }
    } else {
      BackwardRemembered(h, s, x, ip);
    }
  }

  /** One call of addseg. */
  lemma AddedRemembered(h: seq<Sending>, s: seq<Seg>, x: Sending, ip: int)
    requires Sorted(s) && AllFrom(h, s) && (x.first <= x.last || Covers(s, x.first)) && NoneAfter(h, x.time) && Remembers(h, s)
    ensures Remembers(h + [x], AddSeg(s, x.first, x.last, x.time, ip).list) <==> KeepsHead(s, x, ip)
  {
    InsertIsWalk(s, x.first, x.last, x.time, ip);
    if x.first <= x.last {
      var r := Insert(s, x.first, x.last, x.time, ip);
      PieceSets(h, s, x, ip);
      PieceRemembered(h, s, x, ip);
      WalkKeepsOrder(s, x.first, x.last, false, x.time, ip);
      if MustEvict(r) { EvictionRemembers(h + [x], r.list); }
    } else {
      var i := BackwardHits(s, x.first, x.last, x.time, ip);
      BackwardRemembered(h, s, x, ip);
    }
  }

  // ---- acks ----

  lemma MergedHolds(s: seq<Seg>, b: int, t: int)
    requires Sorted(s) && |s| > 1 && Mergeable(s[0], s[1]) && Holds(s, b, t)
    ensures Holds([Merge(s[0], s[1])] + s[2..], b, t)
  {
    var m := [Merge(s[0], s[1])] + s[2..];
    var j :| 0 <= j < |s| && HoldsAt(s, j, b, t);
    if j > 1 { assert m[j - 1] == s[j]; }
    assert HoldsAt(m, if j <= 1 then 0 else j - 1, b, t);
  }

  lemma ConsHolds(p: Seg, s: seq<Seg>, c: seq<Seg>, b: int, t: int)
    requires s != [] && s[0] == p && Holds(s, b, t) && (Holds(s[1..], b, t) ==> Holds(c, b, t))
    ensures Holds([p] + c, b, t)
  {
    var j :| 0 <= j < |s| && HoldsAt(s, j, b, t);
    if j == 0 {
      assert HoldsAt([p] + c, 0, b, t);
    } else {
      assert HoldsAt(s[1..], j - 1, b, t);
      var k :| 0 <= k < |c| && HoldsAt(c, k, b, t);
      assert HoldsAt([p] + c, k + 1, b, t);
    }
  }

  /** Collapsing a list forgets no time. */
  lemma {:induction false} CollapseHolds(s: seq<Seg>, b: int, t: int)
    requires Sorted(s) && Holds(s, b, t)
    ensures Holds(Collapse(s), b, t)
    decreases |s|
  {
    if |s| <= 1 || s[0].acked == 0 {
    } else if Mergeable(s[0], s[1]) {
      MergeStep(s);
      MergedHolds(s, b, t);
      CollapseHolds([Merge(s[0], s[1])] + s[2..], b, t);
    } else {
      if Holds(s[1..], b, t) { CollapseHolds(s[1..], b, t); }
      ConsHolds(s[0], s, Collapse(s[1..]), b, t);
    }
  }

  lemma ConsFrom(h: seq<Sending>, p: Seg, t: seq<Seg>)
    requires From(h, p) && AllFrom(h, t)
    ensures AllFrom(h, [p] + t)
  {
  }

  lemma {:induction false} CollapseFrom(h: seq<Sending>, s: seq<Seg>)
    requires Sorted(s) && AllFrom(h, s)
    ensures AllFrom(h, Collapse(s))
    decreases |s|
  {
    if |s| <= 1 || s[0].acked == 0 {
    } else if Mergeable(s[0], s[1]) {
      var m := Merge(s[0], s[1]);
      MergeStep(s);
      SortedPairs(s, 0, 1);
      FromWider(h, if m.time == s[0].time then s[0] else s[1], m);
      ConsFrom(h, m, s[2..]);
      CollapseFrom(h, [m] + s[2..]);
    } else {
      CollapseFrom(h, s[1..]);
      ConsFrom(h, s[0], Collapse(s[1..]));
    }
  }

  lemma RaisedSame(h: seq<Sending>, s: seq<Seg>, t: seq<Seg>)
    requires Raised(s, t)
    ensures AllFrom(h, s) ==> AllFrom(h, t)
    ensures Remembers(h, s) ==> Remembers(h, t)
  {
    if AllFrom(h, s) {
      forall j | 0 <= j < |t| ensures From(h, t[j]) { FromWider(h, s[j], t[j]); }
    }
    if Remembers(h, s) {
      forall k | 0 <= k < |h| ensures Holds(t, h[k].first, h[k].time) {
        var j :| 0 <= j < |s| && HoldsAt(s, j, h[k].first, h[k].time);
        assert HoldsAt(t, j, h[k].first, h[k].time);
      }
    }
  }

  lemma CollapseRemembers(h: seq<Sending>, s: seq<Seg>)
    requires Sorted(s) && Remembers(h, s)
    ensures Remembers(h, Collapse(s))
  {
    forall k | 0 <= k < |h| ensures Holds(Collapse(s), h[k].first, h[k].time) {
      CollapseHolds(s, h[k].first, h[k].time);
    }
  }

  /** An ack forgets nothing. */
  lemma WalkRemembers(h: seq<Sending>, q: Quad, a: Acked)
    requires Sorted(q.segs) && AllFrom(h, q.segs) && Raised(q.segs, a.list)
    ensures AllFrom(h, AfterWalk(q, a).segs) && (Remembers(h, q.segs) ==> Remembers(h, AfterWalk(q, a).segs))
  {
    RaisedSame(h, q.segs, a.list);
    ShapeDecides(q.segs, a.list);
    if a.changed {
      CollapseFrom(h, a.list);
      if Remembers(h, q.segs) { CollapseRemembers(h, a.list); }
    }
  }

  // ---- one event ----

  /** The packet makes the list of quadrant i forget no transmission. */
  predicate PacketKeepsHead(s: seq<Seg>, e: Event, i: Index) {
    PiecesFor(e, i) != [] ==> KeepsHead(s, PiecesFor(e, i)[0], e.ipId)
  }

  /** What a list that becomes t, after the pieces of an event, remembers. */
  ghost predicate Carried(h: seq<Sending>, s: seq<Seg>, e: Event, i: Index, next: seq<Sending>, t: seq<Seg>) {
    && AllFrom(next, t)
    && (NoneAfter(h, e.time) && Remembers(h, s) ==> (Remembers(next, t) <==> PacketKeepsHead(s, e, i)))
  }

  lemma DataCarried(sp: Space, e: Event, i: Index, h: seq<Sending>)
    requires e.Data? && SpaceOk(sp) && sp.centre == CentreOf(e) && 1 <= e.len <= MAX_PACKET && Recordable(sp, e.s, e.len)
    requires AllFrom(h, Segs(sp, i))
    ensures Carried(h, Segs(sp, i), e, i, h + PiecesFor(e, i), Segs(Record(sp, Cut(e.s, e.len), e.time, e.ipId).space, i))
  {
    CutForm(e.s, e.len);
    SegsAfterRecord(sp, Cut(e.s, e.len), e.time, e.ipId, i);
    if PiecesFor(e, i) == [] {
      assert h + PiecesFor(e, i) == h;
    } else {
      PieceCarried(h, Segs(sp, i), PiecesFor(e, i)[0], e.ipId);
      assert PiecesFor(e, i) == [PiecesFor(e, i)[0]];
    }
  }

  lemma PieceCarried(h: seq<Sending>, s: seq<Seg>, x: Sending, ip: int)
    requires Sorted(s) && AllFrom(h, s) && (x.first <= x.last || Covers(s, x.first))
    ensures var w := AddSeg(s, x.first, x.last, x.time, ip).list;
            && AllFrom(h + [x], w)
            && (NoneAfter(h, x.time) && Remembers(h, s) ==> (Remembers(h + [x], w) <==> KeepsHead(s, x, ip)))
  {
    AddedFrom(h, s, x, ip);
    if NoneAfter(h, x.time) && Remembers(h, s) { AddedRemembered(h, s, x, ip); }
  }

  lemma AckCarried(sp: Space, e: Event, i: Index, h: seq<Sending>)
    requires e.Ack? && SpaceOk(sp) && sp.centre == CentreOf(e) && AllFrom(h, Segs(sp, i))
    ensures Carried(h, Segs(sp, i), e, i, h, Segs(Acknowledge(sp, e.ack, e.dataLen, e.time), i))
  {
    SegsAfterAck(sp, e.ack, e.dataLen, e.time, i);
    if i == Prev(sp.centre) {
      var q := sp.slots[i].value;
      AckAllAcks(q.segs, 0);
      WalkRemembers(h, q, AckAll(q.segs, 0));
    } else if i == sp.centre {
      var q, xmit := sp.slots[i].value, FirstWalk(sp).lastXmit;
      AckUpToAcks(q.segs, e.ack, e.dataLen, e.time, xmit);
      WalkRemembers(h, q, AckUpTo(q.segs, e.ack, e.dataLen, e.time, xmit));
    }
  }

  /** One event, after the window has moved. */
  lemma CentredCarried(sp: Space, d: Direction, e: Event, i: Index, g: seq<Sending>)
    requires SpaceOk(d.space) && Usable(d, e) && sp == Recentre(d.space, CentreOf(e)) && SpaceOk(sp) && AllFrom(g, Segs(sp, i))
    ensures Carried(g, Segs(sp, i), e, i, g + PiecesFor(e, i), Segs(Step(d, e).space, i))
  {
    if e.Data? {
      DataCarried(sp, e, i, g);
    } else {
      AckCarried(sp, e, i, g);
      assert g + PiecesFor(e, i) == g;
    }
  }

  /** The packets that push the quadrant out of the window leave nothing to remember. */
  lemma DroppedCarried(d: Direction, e: Event, i: Index)
    requires SpaceOk(d.space) && Usable(d, e) && i == Opposite(CentreOf(e))
    ensures Segs(Step(d, e).space, i) == []
  {
    var sp := Recentre(d.space, CentreOf(e));
    RecentreOk(d.space, CentreOf(e));
    SegsAfterRecentre(d.space, CentreOf(e), i);
    if e.Data? {
      SegsAfterRecord(sp, Cut(e.s, e.len), e.time, e.ipId, i);
    } else {
      SegsAfterAck(sp, e.ack, e.dataLen, e.time, i);
    }
  }

  lemma StepCarried(d: Direction, e: Event, i: Index, h: seq<Sending>)
    requires SpaceOk(d.space) && Usable(d, e) && i != Opposite(CentreOf(e)) && AllFrom(h, Segs(d.space, i))
    ensures Carried(h, Segs(d.space, i), e, i, h + PiecesFor(e, i), Segs(Step(d, e).space, i))
  {
    RecentreOk(d.space, CentreOf(e));
    SegsAfterRecentre(d.space, CentreOf(e), i);
    CentredCarried(Recentre(d.space, CentreOf(e)), d, e, i, h);
  }

  // ---- whole runs ----

  /** After any run, every clock was set by a piece that met its segment. */
  lemma {:induction false} RunFrom(events: seq<Event>, i: Index)
    requires AllUsable(events)
    ensures AllFrom(Sendings(events, i), ListAfter(events, i))
    decreases |events|
  {
    if events != [] {
      var rest, e := events[..|events| - 1], events[|events| - 1];
      RunFrom(rest, i);
      RunOk(rest);
      if i == Opposite(CentreOf(e)) {
        DroppedCarried(Run(rest), e, i);
      } else {
        StepCarried(Run(rest), e, i, Sendings(rest, i));
      }
    }
  }

  /** Time never goes back. */
  predicate TimesOrdered(events: seq<Event>) {
    forall j, k :: 0 <= j < k < |events| ==> events[j].time <= events[k].time
  }

  lemma {:induction false} SendingsNotAfter(events: seq<Event>, i: Index, now: int)
    requires forall k :: 0 <= k < |events| ==> events[k].time <= now
    ensures NoneAfter(Sendings(events, i), now)
  {
    if events != [] {
      var rest, e := events[..|events| - 1], events[|events| - 1];
      AtMostOnePiece(e, i);
      SendingsNotAfter(rest, i, now);
    }
  }

  /** No eviction since quadrant i entered the window removed a segment newer than its successor. */
  predicate HeadsKept(events: seq<Event>, i: Index) {
    events != [] && i != Opposite(CentreOf(events[|events| - 1])) ==>
      var rest := events[..|events| - 1];
      HeadsKept(rest, i) && PacketKeepsHead(ListAfter(rest, i), events[|events| - 1], i)
  }

  /** At every moment since quadrant i entered the window, its list remembered all that it was handed. */
  ghost predicate RememberedThroughout(events: seq<Event>, i: Index) {
    && Remembers(Sendings(events, i), ListAfter(events, i))
    && (events != [] && i != Opposite(CentreOf(events[|events| - 1])) ==> RememberedThroughout(events[..|events| - 1], i))
  }

  lemma NothingRemembered(events: seq<Event>, i: Index)
    requires events == [] || i == Opposite(CentreOf(events[|events| - 1]))
    ensures Sendings(events, i) == []
  {
  }

  /** The last event, and what comes before it. */
  lemma LastEvent(events: seq<Event>, rest: seq<Event>, e: Event, i: Index)
    requires AllUsable(events) && events != [] && rest == events[..|events| - 1] && e == events[|events| - 1]
    requires i != Opposite(CentreOf(e))
    ensures AllUsable(rest) && Usable(Run(rest), e)
    ensures Sendings(events, i) == Sendings(rest, i) + PiecesFor(e, i)
    ensures ListAfter(events, i) == Segs(Step(Run(rest), e).space, i)
  {
  }

  lemma LastIsLatest(events: seq<Event>, rest: seq<Event>, e: Event, i: Index)
    requires TimesOrdered(events) && events != [] && rest == events[..|events| - 1] && e == events[|events| - 1]
    ensures NoneAfter(Sendings(rest, i), e.time)
  {
    SendingsNotAfter(rest, i, e.time);
  }

  lemma MoreRemembered(events: seq<Event>, rest: seq<Event>, e: Event, i: Index)
    requires AllUsable(events) && TimesOrdered(events) && events != [] && rest == events[..|events| - 1] && e == events[|events| - 1]
    requires i != Opposite(CentreOf(e)) && Remembers(Sendings(rest, i), ListAfter(rest, i))
    ensures Remembers(Sendings(events, i), ListAfter(events, i)) <==> PacketKeepsHead(ListAfter(rest, i), e, i)
  {
    LastEvent(events, rest, e, i);
    LastIsLatest(events, rest, e, i);
    RunFrom(rest, i);
    RunOk(rest);
    StepRemembers(Run(rest), e, i, Sendings(rest, i), ListAfter(rest, i), Sendings(events, i), ListAfter(events, i));
  }

  lemma StepRemembers(d: Direction, e: Event, i: Index, h: seq<Sending>, s: seq<Seg>, next: seq<Sending>, t: seq<Seg>)
    requires SpaceOk(d.space) && Usable(d, e) && i != Opposite(CentreOf(e)) && s == Segs(d.space, i) && AllFrom(h, s)
    requires NoneAfter(h, e.time) && Remembers(h, s) && next == h + PiecesFor(e, i) && t == Segs(Step(d, e).space, i)
    ensures Remembers(next, t) <==> PacketKeepsHead(s, e, i)
  {
    StepCarried(d, e, i, h);
  }

  /**
   While time never goes back, the list of a quadrant remembers the time of every piece that it was handed, at or before the first
   byte of that piece, if and only if no eviction removes a segment newer than the one that takes over its bytes. Acks, their
   collapsing included, forget nothing.
   */
  lemma {:induction false} RunRemembers(events: seq<Event>, i: Index)
    requires AllUsable(events) && TimesOrdered(events)
    ensures RememberedThroughout(events, i) <==> HeadsKept(events, i)
    decreases |events|
  {
    if events != [] && i != Opposite(CentreOf(events[|events| - 1])) {
      RunRemembers(events[..|events| - 1], i);
      if RememberedThroughout(events[..|events| - 1], i) {
        MoreRemembered(events, events[..|events| - 1], events[|events| - 1], i);
      }
    } else {
      NothingRemembered(events, i);
    }
  }
}
