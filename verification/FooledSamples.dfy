/** Ways to fool Karn's algorithm. */
module FooledSamples {
  import opened SequenceNumbers
  import opened SegmentList
  import opened SegmentCoverage
  import opened SegmentHistory
  import opened SequenceSpace
  import opened SequenceSpaceRuns
  import opened SampleRuns
  import opened PacketRuns

  // ---- the wrap of the counter ----

  /** The list after f..l was sent once, at time t, and then n more times, a microsecond apart. */
  function ResentList(f: int, l: int, t: int, ip: int, n: nat): seq<Seg> {
    if n == 0 then AddSeg([], f, l, t, ip).list else AddSeg(ResentList(f, l, t, ip, n - 1), f, l, t + n, ip).list
  }

  lemma {:induction false} ResentListForm(f: int, l: int, t: int, ip: int, n: nat)
    requires f <= l
    ensures ResentList(f, l, t, ip, n) == [Seg(f, l, n % RETRANS_WRAP, 0, t + n, ip, n, t, f)]
    decreases n
  {
    if n == 0 {
      FirstSegment(f, l, t, ip);
    } else {
      ResentListForm(f, l, t, ip, n - 1);
      var p := Seg(f, l, (n - 1) % RETRANS_WRAP, 0, t + n - 1, ip, n - 1, t, f);
      ResendWhole(p, t + n, ip);
      ResendCounts(p, n - 1, t + n);
    }
  }

  /** The counter of a segment is the number of times it was sent again, wrapped around. */
  lemma ResendCounts(p: Seg, n: nat, now: int)
    requires p.retrans == n % RETRANS_WRAP && p.resent == n
    ensures Resend(p, false, now) == p.(retrans := (n + 1) % RETRANS_WRAP, resent := n + 1, time := now)
  {
  }

  lemma FirstSegment(f: int, l: int, now: int, ip: int)
    ensures AddSeg([], f, l, now, ip).list == [NewSeg(f, l, now, ip)]
  {
  }

  /** Sending a recorded segment again adds no segment: its counter goes up and its clock starts anew. */
  lemma ResendWhole(p: Seg, now: int, ip: int)
    requires p.first <= p.last
    ensures AddSeg([p], p.first, p.last, now, ip).list == [Resend(p, false, now)]
  {
    var r := Walk([p], p.first, p.last, false, now, ip);
    assert r == Hit(p, p.first, p.last, false, now, ip, Added([p][1..], 0, false, false));
    assert r.list == [Resend(p, false, now)];
  }

  /** The ack of a segment that was sent n more times yields a sample exactly if n is a multiple of 256. */
  lemma KarnIsFooled(f: int, l: int, t: int, ip: int, n: nat, now: int)
    requires f <= l && t >= 0 && now >= t + n
    ensures AckUpTo(ResentList(f, l, t, ip, n), l + 1, 0, now, 0).samples
         == if n % RETRANS_WRAP == 0 then [now - t - n] else []
  {
    ResentListForm(f, l, t, ip, n);
    var p := ResentList(f, l, t, ip, n)[0];
    assert AckUpTo([p][1..], l + 1, 0, now, Newest(p.time, 0)).samples == [];
  }

  // ---- one packet after the other ----

  lemma Appended(events: seq<Event>, e: Event)
    ensures Run(events + [e]) == Step(Run(events), e)
    ensures AllUsable(events) && Usable(Run(events), e) ==> AllUsable(events + [e])
  {
    var t := events + [e];
    assert t[..|events|] == events && t[|t| - 1] == e;
  }

  /** What a packet makes of the list of quadrant i. */
  function NextList(s: seq<Seg>, e: Event, i: Index): seq<Seg>
    requires e.Data?
  {
    if i == Opposite(CentreOf(e)) then []
    else if PiecesFor(e, i) == [] then s
    else AddSeg(s, PiecesFor(e, i)[0].first, PiecesFor(e, i)[0].last, e.time, e.ipId).list
  }

  /** The run leaves this list in quadrant i. */
  predicate Leaves(events: seq<Event>, i: Index, s: seq<Seg>) {
    AllUsable(events) && ListAfter(events, i) == s
  }

  predicate Plain(e: Event) {
    e.Data? && 1 <= e.len <= MAX_PACKET && WellCut(e.s, e.len)
  }

  lemma DataStep(events: seq<Event>, e: Event, i: Index, s: seq<Seg>)
    requires Leaves(events, i, s) && Plain(e)
    ensures Leaves(events + [e], i, NextList(s, e, i))
  {
    var c := CentreOf(e);
    Appended(events, e);
    CutForm(e.s, e.len);
    SegsAfterRecentre(Run(events).space, c, i);
    SegsAfterRecord(Recentre(Run(events).space, c), Cut(e.s, e.len), e.time, e.ipId, i);
  }

  /** One more packet, for any quadrant. */
  lemma OneMore(events: seq<Event>, e: Event, i: Index, s: seq<Seg>, more: seq<Event>, t: seq<Seg>)
    requires Leaves(events, i, s) && Plain(e) && more == events + [e] && t == NextList(s, e, i)
    ensures Leaves(more, i, t)
  {
    DataStep(events, e, i, s);
  }

  /** A packet of the bytes up to l, in one quadrant. */
  lemma StayingNext(e: Event, i: Index, s: seq<Seg>, l: int)
    requires e.Data? && 1 <= e.len <= MAX_PACKET && !Crosses(e.s, e.len) && l == e.s + e.len - 1
    ensures Plain(e)
    ensures NextList(s, e, i)
         == if i == QuadNumOf(e.s) - 1 then AddSeg(s, e.s, l, e.time, e.ipId).list
            else if i == Opposite(QuadNumOf(e.s) - 1) then [] else s
  {
    CutForm(e.s, e.len);
  }

  /** A packet that crosses. */
  lemma CrossingNext(e: Event, i: Index, s: seq<Seg>)
    requires e.Data? && 1 <= e.len <= MAX_PACKET && Crosses(e.s, e.len)
    ensures var q := QuadNumOf(e.s);
            NextList(s, e, i)
            == if i == q - 1 then AddSeg(s, e.s, LastSeq(q), e.time, e.ipId).list
               else if i == Next(q - 1) then AddSeg(s, StartAfter(q - 1), LastAcross(e.s, e.len) + q - 1, e.time, e.ipId).list
               else if i == Opposite(q - 1) then [] else s
  {
    PiecesAcross(e.s, e.len);
  }

  lemma NothingYet(i: Index)
    ensures Leaves([], i, [])
  {
    assert Run([]) == NEW_DIRECTION;
  }

  lemma TwoPackets(a: Event, b: Event, i: Index, s: seq<Seg>, t: seq<Seg>)
    requires Plain(a) && Plain(b) && s == NextList([], a, i) && t == NextList(s, b, i)
    ensures Leaves([a, b], i, t)
  {
    NothingYet(i);
    assert [] + [a] == [a] && [a] + [b] == [a, b];
    OneMore([], a, i, [], [a], s);
    OneMore([a], b, i, s, [a, b], t);
  }

  lemma ThreePackets(a: Event, b: Event, c: Event, i: Index, s: seq<Seg>, t: seq<Seg>)
    requires Plain(a) && Plain(b) && Plain(c) && s == NextList(NextList([], a, i), b, i) && t == NextList(s, c, i)
    ensures Leaves([a, b, c], i, t)
  {
    TwoPackets(a, b, i, NextList([], a, i), s);
    assert [a, b] + [c] == [a, b, c];
    OneMore([a, b], c, i, s, [a, b, c], t);
  }

  /** No segment lies before the quadrant of the ack. */
  lemma NoXmit(events: seq<Event>, ack: SeqNum)
    requires ListAfter(events, Prev(QuadNumOf(ack) - 1)) == []
    ensures XmitAt(events, ack) == 0
  {
    SegsAfterRecentre(Run(events).space, QuadNumOf(ack) - 1, Prev(QuadNumOf(ack) - 1));
  }

  /** The samples of an ack when no segment lies before its quadrant. */
  lemma SamplesFrom(events: seq<Event>, ack: SeqNum, i: Index, now: int, s: seq<Seg>)
    requires i == QuadNumOf(ack) - 1 && Leaves(events, i, s) && Leaves(events, Prev(i), [])
    ensures SamplesAt(events, ack, 0, now) == AckUpTo(s, ack, 0, now, 0).samples
  {
    NoXmit(events, ack);
    SamplesAtIs(events, ack, 0, now);
  }

  /** A packet beyond the end of the list. */
  lemma AtTheEnd(s: seq<Seg>, f: int, l: int, now: int)
    requires s != [] && f > s[|s| - 1].last
    ensures var t := AddSeg(s, f, l, now, 0).list;
            if |s| < MAX_SEG_PER_QUAD then t == s + [NewSeg(f, l, now, 0)]
            else |t| == |s| && t[0] == (s + [NewSeg(f, l, now, 0)])[1].(first := s[0].first) && t[1..] == (s + [NewSeg(f, l, now, 0)])[2..]
  {
    assert Insert(s, f, l, now, 0) == Added(s + [NewSeg(f, l, now, 0)], 0, false, true);
  }

  /** A packet inside the quadrant i, seen from there and from the quadrant before. */
  lemma Inside(a: Event, i: Index, l: int)
    requires a.Data? && 1 <= a.len <= MAX_PACKET && !Crosses(a.s, a.len) && QuadNumOf(a.s) - 1 == i && l == a.s + a.len - 1
    ensures Plain(a) && NextList([], a, Prev(i)) == [] && NextList([], a, i) == [NewSeg(a.s, l, a.time, a.ipId)]
  {
    StayingNext(a, Prev(i), [], l);
    StayingNext(a, i, [], l);
    FirstSegment(a.s, l, a.time, a.ipId);
  }

  // ---- the eviction ----

  /** Where packet n of the example starts: bytes 0..9, bytes 10..19, bytes 0..9 again, and then what follows. */
  function First(n: nat): nat {
    if n == 1 || n == 3 then 0 else if n == 2 then 10 else if n == 0 then 0 else 10 * (n - 2)
  }

  function TenBytes(n: nat): Event
    requires n <= 20
  {
    Data(First(n), 10, 0, n)
  }

  /** n packets of ten bytes, a microsecond apart. */
  function Evicting(n: nat): seq<Event>
    requires n <= 20
  {
    if n == 0 then [] else Evicting(n - 1) + [TenBytes(n)]
  }

  lemma {:induction false} EvictingEvents(n: nat)
    requires n <= 20
    ensures |Evicting(n)| == n && forall i :: 0 <= i < n ==> Evicting(n)[i] == TenBytes(i + 1)
  {
    if n > 0 { EvictingEvents(n - 1); }
  }

  lemma TenBytesNext(n: nat, s: seq<Seg>)
    requires 0 < n <= 20
    ensures Plain(TenBytes(n)) && NextList([], TenBytes(n), 3) == []
    ensures NextList(s, TenBytes(n), 0) == AddSeg(s, First(n), First(n) + 9, n, 0).list
  {
    CrossesInto(First(n), 10);
    StayingNext(TenBytes(n), 3, [], First(n) + 9);
    StayingNext(TenBytes(n), 0, s, First(n) + 9);
  }

  /** What the eviction leaves at the head of the list. */
  predicate Evicted(s: seq<Seg>) {
    |s| > 1 && s[0] == NewSeg(10, 19, 2, 0).(first := 0) && s[1].first == 20
  }

  /** The list after n packets: the third is a resend, and the last one evicts. */
  predicate RowIs(s: seq<Seg>, n: nat) {
    if n == 0 then s == []
    else if n == 1 then s == [NewSeg(0, 9, 1, 0)]
    else if n == 2 then s == [NewSeg(0, 9, 1, 0), NewSeg(10, 19, 2, 0)]
    else if n > MAX_SEG_PER_QUAD + 1 then Evicted(s)
    else
      && |s| == n - 1 && s[n - 2].last == 10 * (n - 2) + 9
      && s[0] == Resend(NewSeg(0, 9, 1, 0), false, 3) && s[1] == NewSeg(10, 19, 2, 0) && (n > 3 ==> s[2].first == 20)
  }

  lemma RowResent(s: seq<Seg>)
    requires RowIs(s, 2)
    ensures RowIs(AddSeg(s, 0, 9, 3, 0).list, 3)
  {
    assert s[1..] == [s[1]];
    HitList(s[0], 0, 9, false, 3, 0, Added([s[1]], 0, false, false));
  }

  lemma RowGrows(s: seq<Seg>, n: nat)
    requires 0 < n <= MAX_SEG_PER_QUAD + 2 && RowIs(s, n - 1)
    ensures RowIs(AddSeg(s, First(n), First(n) + 9, n, 0).list, n)
  {
    if n == 1 {
      FirstSegment(0, 9, 1, 0);
    } else if n == 3 {
      RowResent(s);
    } else {
      AtTheEnd(s, First(n), First(n) + 9, n);
    }
  }

  lemma NextRow(events: seq<Event>, before: seq<Seg>, n: nat, more: seq<Event>) returns (s: seq<Seg>)
    requires 0 < n <= MAX_SEG_PER_QUAD + 2 && RowIs(before, n - 1) && more == events + [TenBytes(n)]
    requires Leaves(events, 0, before) && Leaves(events, 3, [])
    ensures Leaves(more, 0, s) && Leaves(more, 3, []) && RowIs(s, n)
  {
    s := AddSeg(before, First(n), First(n) + 9, n, 0).list;
    TenBytesNext(n, before);
    OneMore(events, TenBytes(n), 0, before, more, s);
    OneMore(events, TenBytes(n), 3, [], more, []);
    RowGrows(before, n);
  }

  lemma {:induction false} EvictingRow(n: nat) returns (s: seq<Seg>)
    requires n <= MAX_SEG_PER_QUAD + 2
    ensures Leaves(Evicting(n), 0, s) && Leaves(Evicting(n), 3, []) && RowIs(s, n)
  {
    if n == 0 {
      s := [];
      NothingYet(0);
      NothingYet(3);
    } else {
      var before := EvictingRow(n - 1);
      s := NextRow(Evicting(n - 1), before, n, Evicting(n));
    }
  }

  lemma EvictedSample(s: seq<Seg>, now: int)
    requires Evicted(s)
    ensures AckUpTo(s, 20, 0, now, 0).samples == [Elapsed(2, now)]
  {
    assert AckUpTo(s[1..], 20, 0, now, Newest(2, 0)).samples == [];
  }

  lemma EvictionHides(events: seq<Event>)
    requires AllUsable(events) && Evicted(ListAfter(events, 0))
    ensures !CarriedAlone(events, 0, ListAfter(events, 0)[0])
  {
    SegmentsTellPackets(events, 0, 0);
    assert !Intact(ListAfter(events, 0), 0);
  }

  /** What such a run is an example of. */
  lemma EvictedFools(events: seq<Event>, s: seq<Seg>, ack: SeqNum, now: int)
    requires Leaves(events, 0, s) && Leaves(events, Prev(0), []) && Evicted(s) && ack == 20 && QuadNumOf(ack) == 1
    ensures SamplesAt(events, ack, 0, now) == [Elapsed(2, now)] && !CarriedAlone(events, 0, s[0])
  {
    SamplesFrom(events, ack, 0, now, s);
    EvictedSample(s, now);
    EvictionHides(events);
  }

  lemma BothCarryZero(events: seq<Event>)
    requires |events| > 2 && events[0] == TenBytes(1) && events[2] == TenBytes(3)
    ensures CarriesByte(events[0], 0) && CarriesByte(events[2], 0)
  {
    PacketBytes(0, 10, 0);
  }

  /**
   Seventeen well-cut packets: the eviction gives the bytes 0..9, which were sent twice, to the segment 10..19, which was sent
   once and before the resend. The ack of that segment yields a sample, although it is not the age of all its bytes.
   */
  lemma EvictionFoolsKarn(now: int) returns (s: seq<Seg>)
    ensures var events := Evicting(17);
            && Leaves(events, 0, s) && Evicted(s) && s[0].resent == 0 && SamplesAt(events, 20, 0, now) == [Elapsed(2, now)]
            && |events| == 17 && CarriesByte(events[0], 0) && CarriesByte(events[2], 0) && !CarriedAlone(events, 0, s[0])
  {
    s := EvictingRow(17);
    EvictingEvents(17);
    BothCarryZero(Evicting(17));
    EvictedFools(Evicting(17), s, 20, now);
  }

  // ---- the touch ----

  /** Packet b ends on the first byte, x, of packet a; both stay in quadrant q. */
  predicate Touching(a: Event, b: Event, q: QuadNum, x: SeqNum) {
    && a.Data? && b.Data? && a.len > 1 && b.len > 1 && a.ipId == 0 == b.ipId && 0 <= b.time
    && a.s == x == b.s + b.len - 1 && QuadNumOf(b.s) == q && x + a.len - 1 <= TrueLastSeq(q) && a.len + b.len <= MAX_PACKET
  }

  lemma TouchingLists(a: Event, b: Event, q: QuadNum, x: SeqNum, p: Seg, r: Seg)
    requires Touching(a, b, q, x) && p == NewSeg(b.s, x, b.time, 0) && r == NewSeg(x, x + a.len - 1, a.time, 0)
    ensures Leaves([a, b], q - 1, [p, r]) && Leaves([a, b], Prev(q - 1), [])
  {
    CrossesInto(a.s, a.len);
    CrossesInto(b.s, b.len);
    Inside(a, q - 1, r.last);
    StayingNext(b, Prev(q - 1), [], x);
    StayingNext(b, q - 1, [r], x);
    TouchBefore(r, b.s, b.time);
    TwoPackets(a, b, Prev(q - 1), [], []);
    TwoPackets(a, b, q - 1, [r], [p, r]);
  }

  lemma TouchingAck(a: Event, b: Event, q: QuadNum, x: SeqNum, ack: SeqNum)
    requires Touching(a, b, q, x) && ack == x + 1
    ensures QuadNumOf(ack) == q && CarriesByte(a, x) && CarriesByte(b, x)
  {
    PacketBytes(a.s, a.len, x);
    PacketBytes(b.s, b.len, x);
  }

  lemma TouchBefore(r: Seg, f: int, now: int)
    requires f < r.first <= r.last
    ensures AddSeg([r], f, r.first, now, 0).list == [NewSeg(f, r.first, now, 0), r]
  {
  }

  lemma TouchSampled(p: Seg, r: Seg, ack: int, now: int)
    requires p.acked == 0 == r.acked && p.retrans == 0 && p.first < p.last == r.first < r.last && ack == p.last + 1 && 0 <= p.time
    ensures AckUpTo([p, r], ack, 0, now, 0).samples == [Elapsed(p.time, now)]
  {
    assert [p, r][1..] == [r] && [r][1..] == [];
    assert AckUpTo([], ack, 0, now, Newest(r.time, Newest(p.time, 0))).samples == [];
    assert AckUpTo([r], ack, 0, now, Newest(p.time, 0)).samples == [];
  }

  /** Two packets that share byte x: an ack of that byte yields the age of the second one, although byte x was sent before. */
  lemma TouchFoolsKarn(a: Event, b: Event, q: QuadNum, x: SeqNum, ack: SeqNum, now: int)
    requires Touching(a, b, q, x) && ack == x + 1
    ensures AllUsable([a, b]) && SamplesAt([a, b], ack, 0, now) == [Elapsed(b.time, now)]
    ensures CarriesByte(a, x) && CarriesByte(b, x)
  {
    var p, r := NewSeg(b.s, x, b.time, 0), NewSeg(x, x + a.len - 1, a.time, 0);
    TouchingAck(a, b, q, x, ack);
    TouchingLists(a, b, q, x, p, r);
    SamplesFrom([a, b], ack, q - 1, now, [p, r]);
    TouchSampled(p, r, ack, now);
  }

  // ---- the lost byte ----

  /** An ack that ends on the last of two new segments. */
  lemma SecondSampled(p: Seg, r: Seg, ack: int, now: int)
    requires p.acked == 0 == r.acked && r.retrans == 0 && p.first <= p.last < r.first <= r.last && 0 <= p.time <= r.time
    requires ack == r.last + 1
    ensures AckUpTo([p, r], ack, 0, now, 0).samples == [Elapsed(r.time, now)]
  {
    assert [p, r][1..] == [r] && [r][1..] == [];
    assert AckUpTo([], ack, 0, now, Newest(r.time, Newest(p.time, 0))).samples == [];
    assert AckUpTo([r], ack, 0, now, Newest(p.time, 0)).samples == [Elapsed(r.time, now)];
  }

  /** The samples of an ack when no segment lies before its quadrant, from its list. */
  lemma SampledFrom(events: seq<Event>, ack: SeqNum, s: seq<Seg>, j: nat, now: int)
    requires Leaves(events, QuadNumOf(ack) - 1, s) && Leaves(events, Prev(QuadNumOf(ack) - 1), [])
    requires j < |s| && Intact(s, j) && s[j].resent == 0 && s[j].last + 1 == ack
    requires AckUpTo(s, ack, 0, now, 0).samples == [Elapsed(s[j].time, now)]
    ensures Sampled(events, ack, j, s[j], now)
  {
    SamplesFrom(events, ack, QuadNumOf(ack) - 1, now, s);
  }

  /** The run leaves segment p, intact and not counted as resent, and the ack that ends on it yields its age. */
  predicate Sampled(events: seq<Event>, ack: SeqNum, j: nat, p: Seg, now: int) {
    var s := ListAfter(events, QuadNumOf(ack) - 1);
    && AllUsable(events) && j < |s| && s[j] == p && Intact(s, j) && p.resent == 0 && p.last + 1 == ack
    && SamplesAt(events, ack, 0, now) == [Elapsed(p.time, now)]
  }

  lemma SecondIsSampled(events: seq<Event>, p: Seg, r: Seg, ack: SeqNum, now: int)
    requires Leaves(events, QuadNumOf(ack) - 1, [p, r]) && Leaves(events, Prev(QuadNumOf(ack) - 1), [])
    requires p.acked == 0 == r.acked && r.retrans == 0 == r.resent && r.origin == r.first && r.last + 1 == ack
    requires p.first <= p.last < r.first <= r.last && 0 <= p.time <= r.time
    ensures Sampled(events, ack, 1, r, now)
  {
    SecondSampled(p, r, ack, now);
    SampledFrom(events, ack, [p, r], 1, now);
  }

  lemma LoneSampled(p: Seg, ack: int, now: int)
    requires p.acked == 0 == p.retrans && p.first <= p.last && 0 <= p.time && ack == p.last + 1
    ensures AckUpTo([p], ack, 0, now, 0).samples == [Elapsed(p.time, now)]
  {
    assert [p][1..] == [];
    assert AckUpTo([], ack, 0, now, Newest(p.time, 0)).samples == [];
  }

  lemma LoneIn(events: seq<Event>, i: Index, p: Seg, ack: SeqNum, now: int)
    requires Leaves(events, i, [p]) && Leaves(events, Prev(i), []) && i == QuadNumOf(ack) - 1
    requires p == NewSeg(p.first, p.last, p.time, 0) && p.last + 1 == ack && p.first <= p.last && 0 <= p.time
    ensures Sampled(events, ack, 0, p, now)
  {
    LoneIsSampled(events, p, ack, now);
  }

  lemma LoneIsSampled(events: seq<Event>, p: Seg, ack: SeqNum, now: int)
    requires Leaves(events, QuadNumOf(ack) - 1, [p]) && Leaves(events, Prev(QuadNumOf(ack) - 1), [])
    requires p.acked == 0 == p.retrans == p.resent && p.origin == p.first && p.last + 1 == ack && p.first <= p.last && 0 <= p.time
    ensures Sampled(events, ack, 0, p, now)
  {
    LoneSampled(p, ack, now);
    SampledFrom(events, ack, [p], 0, now);
  }

  /** A packet that crosses out of quadrant q, seen from that quadrant and the one before. */
  lemma CrossingOut(a: Event, q: QuadNum)
    requires a.Data? && 1 <= a.len <= MAX_PACKET && QuadNumOf(a.s) == q && Crosses(a.s, a.len) && a.s <= LastSeq(q)
    ensures Plain(a) && NextList([], a, q - 1) == [NewSeg(a.s, LastSeq(q), a.time, a.ipId)] && NextList([], a, Prev(q - 1)) == []
  {
    CrossingNext(a, q - 1, []);
    FirstSegment(a.s, LastSeq(q), a.time, a.ipId);
    CrossingNext(a, Prev(q - 1), []);
  }

  /** A packet of one byte, seen from its quadrant. */
  lemma OneByte(e: Event, s: seq<Seg>)
    requires e.Data? && e.len == 1
    ensures Plain(e) && NextList(s, e, QuadNumOf(e.s) - 1) == AddSeg(s, e.s, e.s, e.time, e.ipId).list && CarriesByte(e, e.s)
    ensures forall i: Index :: i != QuadNumOf(e.s) - 1 ==> NextList([], e, i) == []
  {
    CrossesInto(e.s, 1);
    StayingNext(e, QuadNumOf(e.s) - 1, s, e.s);
    PacketBytes(e.s, 1, e.s);
    forall i: Index | i != QuadNumOf(e.s) - 1
      ensures NextList([], e, i) == []
    {
      StayingNext(e, i, [], e.s);
    }
  }

  /** Packet a crosses out of quadrant q and loses bytes there; packet b carries one of them. */
  predicate LostAndSent(a: Event, b: Event, q: QuadNum) {
    && a.Data? && 1 <= a.len <= MAX_PACKET && QuadNumOf(a.s) == q && Crosses(a.s, a.len) && a.s <= LastSeq(q) && a.ipId == 0
    && b.Data? && b.len == 1 && LastSeq(q) < b.s < TrueLastSeq(q) && b.ipId == 0
  }

  lemma LostByteLists(a: Event, b: Event, q: QuadNum, p: Seg, r: Seg)
    requires LostAndSent(a, b, q) && p == NewSeg(a.s, LastSeq(q), a.time, 0) && r == NewSeg(b.s, b.s, b.time, 0)
    ensures Leaves([a, b], Prev(q - 1), []) && Leaves([a, b], q - 1, [p, r])
  {
    CrossingOut(a, q);
    LastByteNext(b, q, p, r);
    TwoPackets(a, b, Prev(q - 1), [], []);
    TwoPackets(a, b, q - 1, [p], [p, r]);
  }

  lemma LastByteNext(b: Event, q: QuadNum, p: Seg, r: Seg)
    requires b.Data? && b.len == 1 && QuadNumOf(b.s) == q && p.last < b.s && b.ipId == 0 && r == NewSeg(b.s, b.s, b.time, 0)
    ensures Plain(b) && NextList([], b, Prev(q - 1)) == [] && NextList([p], b, q - 1) == [p, r]
  {
    OneByte(b, [p]);
    AtTheEnd([p], b.s, b.s, b.time);
  }

  lemma LostByteSampled(events: seq<Event>, q: QuadNum, p: Seg, r: Seg, ack: SeqNum, now: int)
    requires Leaves(events, Prev(q - 1), []) && Leaves(events, q - 1, [p, r]) && q == QuadNumOf(ack)
    requires p == NewSeg(p.first, p.last, p.time, 0) && r == NewSeg(r.first, r.last, r.time, 0)
    requires p.first <= p.last < r.first <= r.last && 0 <= p.time <= r.time && ack == r.last + 1
    ensures Sampled(events, ack, 1, r, now)
  {
    SecondIsSampled(events, p, r, ack, now);
  }

  lemma LostByteCarried(a: Event, b: Event, q: QuadNum)
    requires LostAndSent(a, b, q)
    ensures CarriesByte(a, b.s) && CarriesByte(b, b.s)
  {
    CrossesInto(a.s, a.len);
    PacketBytes(a.s, a.len, b.s);
    PacketBytes(b.s, 1, b.s);
  }

  /**
   A packet that crosses out of quadrant 3 or 4 loses one of the last bytes of the quadrant, and a second packet carries that
   byte alone. Both carry it, but the second is sampled as if it were the only one: bytes 0xbffffff0 to 0xc000000f, for
   instance, and then byte 0xbffffffe.
   */
  lemma LostByteFoolsKarn(a: Event, b: Event, q: QuadNum, ack: SeqNum, now: int)
    requires LostAndSent(a, b, q) && 0 <= a.time <= b.time && ack == b.s + 1
    ensures Sampled([a, b], ack, 1, NewSeg(b.s, b.s, b.time, 0), now) && CarriesByte(a, b.s) && CarriesByte(b, b.s)
  {
    var p, r := NewSeg(a.s, LastSeq(q), a.time, 0), NewSeg(b.s, b.s, b.time, 0);
    LostByteLists(a, b, q, p, r);
    LostByteSampled([a, b], q, p, r, ack, now);
    LostByteCarried(a, b, q);
  }

  // ---- the dropped quadrant ----

  lemma DroppedLists(a: Event, b: Event, c: Event, i: Index, p: Seg)
    requires a.Data? && b.Data? && c.Data? && a.len == b.len == c.len == 1 && c.ipId == 0
    requires QuadNumOf(a.s) - 1 == QuadNumOf(c.s) - 1 == i && QuadNumOf(b.s) - 1 == Opposite(i)
    requires p == NewSeg(c.s, c.s, c.time, 0)
    ensures Leaves([a, b, c], i, [p]) && Leaves([a, b, c], Prev(i), [])
  {
    OneByte(a, []);
    OneByte(b, []);
    OneByte(c, []);
    CrossesInto(b.s, 1);
    StayingNext(b, i, NextList([], a, i), b.s);
    FirstSegment(c.s, c.s, c.time, 0);
    ThreePackets(a, b, c, Prev(i), [], []);
    ThreePackets(a, b, c, i, [], [p]);
  }

  /**
   Byte x is sent twice, but in between a byte of the opposite quadrant pushes the quadrant of x out of the window, so that the
   second transmission is sampled as if it were the only one: byte 0, byte 0x80000000 and byte 0 again, for instance.
   */
  lemma DroppedQuadrantFoolsKarn(a: Event, b: Event, c: Event, x: SeqNum, ack: SeqNum, now: int)
    requires a.Data? && b.Data? && c.Data? && a.len == b.len == c.len == 1 && a.s == c.s == x && c.ipId == 0 && 0 <= c.time
    requires QuadNumOf(b.s) - 1 == Opposite(QuadNumOf(x) - 1) && x < TrueLastSeq(QuadNumOf(x)) && ack == x + 1
    ensures Sampled([a, b, c], ack, 0, NewSeg(x, x, c.time, 0), now) && CarriesByte(a, x) && CarriesByte(c, x)
  {
    var i: Index, p := QuadNumOf(x) - 1, NewSeg(x, x, c.time, 0);
    DroppedLists(a, b, c, i, p);
    LoneIn([a, b, c], i, p, ack, now);
    PacketBytes(x, 1, x);
  }

  // ---- the added bytes ----

  /** A piece that starts before a segment and ends with it. */
  lemma AddedBefore(p: Seg, f: int, now: int)
    requires f < p.first < p.last
    ensures AddSeg([p], f, p.last, now, 0).list == [NewSeg(f, p.first - 1, now, 0), Resend(p, false, now)]
  {
    var rest := Added([p][1..], 0, false, false);
    HitList(p, f, p.last, false, now, 0, rest);
    assert Walk([p], f, p.last, false, now, 0) == Hit(p, f, p.last, false, now, 0, rest);
  }

  /** A packet that crosses out of quadrant q into one that holds just the bytes that are added to it. */
  lemma CrossingInto(b: Event, q: QuadNum, p: Seg)
    requires b.Data? && 1 <= b.len <= MAX_PACKET && QuadNumOf(b.s) == q && Crosses(b.s, b.len) && b.s <= LastSeq(q) && b.ipId == 0
    requires p.first == LastAcross(b.s, b.len) + 1 < p.last == LastAcross(b.s, b.len) + q - 1
    ensures Plain(b) && NextList([], b, q - 1) == [NewSeg(b.s, LastSeq(q), b.time, 0)]
    ensures NextList([p], b, Next(q - 1)) == [NewSeg(StartAfter(q - 1), p.first - 1, b.time, 0), Resend(p, false, b.time)]
  {
    CrossingOut(b, q);
    PiecesAcross(b.s, b.len);
    CrossingNext(b, Next(q - 1), [p]);
    AddedBefore(p, StartAfter(q - 1), b.time);
  }

  lemma AddedByteLists(a: Event, b: Event, q: QuadNum, p: Seg)
    requires b.Data? && 1 <= b.len <= MAX_PACKET && QuadNumOf(b.s) == q && Crosses(b.s, b.len) && b.s <= LastSeq(q) && b.ipId == 0
    requires a.Data? && 1 <= a.len <= MAX_PACKET && !Crosses(a.s, a.len) && QuadNumOf(a.s) - 1 == Next(q - 1) && a.ipId == 0
    requires p == NewSeg(a.s, a.s + a.len - 1, a.time, 0)
    requires p.first == LastAcross(b.s, b.len) + 1 < p.last == LastAcross(b.s, b.len) + q - 1
    ensures Leaves([a, b], q - 1, [NewSeg(b.s, LastSeq(q), b.time, 0)])
    ensures Leaves([a, b], Next(q - 1), [NewSeg(StartAfter(q - 1), p.first - 1, b.time, 0), Resend(p, false, b.time)])
  {
    assert Prev(Next(q - 1)) == q - 1;
    Inside(a, Next(q - 1), p.last);
    CrossingInto(b, q, p);
    TwoPackets(a, b, q - 1, [], [NewSeg(b.s, LastSeq(q), b.time, 0)]);
    TwoPackets(a, b, Next(q - 1), [p], [NewSeg(StartAfter(q - 1), p.first - 1, b.time, 0), Resend(p, false, b.time)]);
  }

  /** The newest transmission that an ack finds in a quadrant with one segment. */
  lemma XmitOf(events: seq<Event>, ack: SeqNum, r: Seg)
    requires ListAfter(events, Prev(QuadNumOf(ack) - 1)) == [r] && r.acked == 0 && r.time >= 0
    ensures XmitAt(events, ack) == r.time
  {
    SegsAfterRecentre(Run(events).space, QuadNumOf(ack) - 1, Prev(QuadNumOf(ack) - 1));
    assert AckAll([r][1..], r.time).lastXmit == r.time;
  }

  /** The run leaves a segment that packet k alone carries, fit for a sample, but the ack that ends on it yields none. */
  ghost predicate Hidden(events: seq<Event>, ack: SeqNum, j: nat, k: nat, now: int) {
    && AllUsable(events) && Sampleable(events, ack, j) && CarriedOnceBy(events, k, ListAfter(events, QuadNumOf(ack) - 1)[j])
    && SamplesAt(events, ack, 0, now) == []
  }

  /** An ack that ends on the second of two segments, which was resent and is as new as those before it. */
  lemma SecondHidden(events: seq<Event>, ack: SeqNum, i: Index, r: Seg, p: Seg, q: Seg, k: nat, now: int)
    requires i == QuadNumOf(ack) - 1 && Leaves(events, Prev(i), [r]) && Leaves(events, i, [p, q])
    requires r.acked == 0 == q.acked && 0 <= r.time <= q.time && p.time <= q.time && q.retrans != 0
    requires q.origin == q.first > p.last && q.last + 1 == ack && CarriedOnceBy(events, k, q)
    ensures Hidden(events, ack, 1, k, now)
  {
    XmitOf(events, ack, r);
    SampledIfCounterZero(events, ack, 0, now, 1);
  }

  lemma AddedCarriedOnce(a: Event, b: Event, p: Seg)
    requires b.Data? && 1 <= b.len <= MAX_PACKET && Crosses(b.s, b.len) && p.last == LastAcross(b.s, b.len) + QuadNumOf(b.s) - 1
    requires a.Data? && 1 <= a.len <= MAX_PACKET && a.s == p.first == LastAcross(b.s, b.len) + 1 && p.last == a.s + a.len - 1
    ensures CarriedOnceBy([a, b], 0, p) && forall x :: p.first <= x <= p.last ==> Adds(b, x)
  {
    PiecesAcross(b.s, b.len);
    forall x | p.first <= x <= p.last
      ensures CarriesByte(a, x) && !CarriesByte(b, x)
    {
      PiecesEnd(b.s, b.len);
      PacketBytes(a.s, a.len, x);
      HandsByte(b, x);
    }
  }

  lemma PiecesEnd(s: SeqNum, len: nat)
    requires 1 <= len <= MAX_PACKET && Crosses(s, len)
    ensures 0 <= LastAcross(s, len) && LastAcross(s, len) + QuadNumOf(s) - 1 <= TrueLastSeq(Next(QuadNumOf(s) - 1) + 1)
  {
    CrossesInto(s, len);
  }

  /**
   Bytes that one packet carries, right behind those of a packet that comes later and crosses out of quadrant 3 or 4: they are
   added to it and count as resent, so that their ack yields no sample although they were sent once. For instance bytes
   0xc0000001 and 0xc0000002, and then 0xbffffffd to 0xc0000000.
   */
  lemma AddedBytesHideSample(a: Event, b: Event, q: QuadNum, ack: SeqNum, now: int)
    requires b.Data? && 1 <= b.len <= MAX_PACKET && QuadNumOf(b.s) == q > 2 && Crosses(b.s, b.len) && b.s <= LastSeq(q) && b.ipId == 0
    requires a.Data? && a.s == LastAcross(b.s, b.len) + 1 && a.len == q - 1 && a.ipId == 0 && 0 <= a.time <= b.time
    requires ack == a.s + q - 1
    ensures Hidden([a, b], ack, 1, 0, now) && forall y :: a.s <= y < ack ==> Adds(b, y)
  {
    var p, c := NewSeg(a.s, a.s + a.len - 1, a.time, 0), b.time;
    AckAfterAdded(a, b, q);
    AddedByteLists(a, b, q, p);
    AddedCarriedOnce(a, b, Resend(p, false, c));
    SecondHidden([a, b], ack, Next(q - 1), NewSeg(b.s, LastSeq(q), c, 0), NewSeg(StartAfter(q - 1), p.first - 1, c, 0),
                 Resend(p, false, c), 0, now);
  }

  lemma AckAfterAdded(a: Event, b: Event, q: QuadNum)
    requires b.Data? && 1 <= b.len <= MAX_PACKET && QuadNumOf(b.s) == q && Crosses(b.s, b.len)
    requires a.Data? && a.s == LastAcross(b.s, b.len) + 1 && a.len == q - 1 > 0
    ensures !Crosses(a.s, a.len) && a.s + q - 1 < SEQ_SPACE
    ensures QuadNumOf(a.s) - 1 == Next(q - 1) == QuadNumOf(a.s + q - 1) - 1
  {
    CrossesInto(b.s, b.len);
    PiecesAcross(b.s, b.len);
    CrossesInto(a.s, a.len);
  }}
