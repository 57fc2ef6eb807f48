/** When a sample is taken, over the packets of the run: nothing that the ack covers was sent after the segment it ends on. */
module NewestSamples {
  import opened SequenceNumbers
  import opened SegmentList
  import opened SegmentCoverage
  import opened SegmentAcks
  import opened SegmentHistory
  import opened SequenceSpace
  import opened SequenceSpaceRuns
  import opened SampleRuns
  import opened PacketRuns
  import opened Transmissions
  import AckAnswers
  import FooledSamples

  /** The packet carries a byte of quadrant i below the ack. */
  ghost predicate CarriesBelow(e: Event, i: Index, ack: int) {
    exists b: SeqNum :: QuadNumOf(b) - 1 == i && b < ack && CarriesByte(e, b)
  }

  /** No packet that carries a byte of quadrant i below the ack was sent after time t, since the quadrant entered the window. */
  ghost predicate NoneNewer(events: seq<Event>, i: Index, ack: int, t: int) {
    forall k :: Since(events, i) <= k < |events| && CarriesBelow(events[k], i, ack) ==> events[k].time <= t
  }

  /** Where the piece that a quadrant is handed starts. */
  lemma PieceStart(e: Event, i: Index)
    requires Proper(e) && PiecesFor(e, i) != []
    ensures var f := PiecesFor(e, i)[0].first; 0 <= f < SEQ_SPACE && QuadNumOf(f) - 1 == i && CarriesByte(e, f)
  {
    CutForm(e.s, e.len);
    if i == CentreOf(e) {
      PacketBytes(e.s, e.len, e.s);
    } else {
      PiecesAcross(e.s, e.len);
      CrossesInto(e.s, e.len);
      BoundaryAt(QuadNumOf(e.s));
      PacketBytes(e.s, e.len, StartAfter(CentreOf(e)));
    }
  }

  /** A packet that carries byte b of a quadrant hands it a piece that starts at or before b. */
  lemma CarriedStart(e: Event, i: Index, b: SeqNum)
    requires Proper(e) && CarriesByte(e, b) && QuadNumOf(b) - 1 == i
    ensures PiecesFor(e, i) != [] && PiecesFor(e, i)[0].first <= b
  {
    PacketBytes(e.s, e.len, b);
    if Crosses(e.s, e.len) {
      PiecesAcross(e.s, e.len);
      CrossesInto(e.s, e.len);
      BoundaryAt(QuadNumOf(e.s));
    } else {
      CutForm(e.s, e.len);
    }
  }

  lemma StartsBelow(e: Event, i: Index, ack: int)
    requires Proper(e)
    ensures CarriesBelow(e, i, ack) <==> PiecesFor(e, i) != [] && PiecesFor(e, i)[0].first < ack
  {
    if CarriesBelow(e, i, ack) {
      var b: SeqNum :| QuadNumOf(b) - 1 == i && b < ack && CarriesByte(e, b);
      CarriedStart(e, i, b);
    }
    if PiecesFor(e, i) != [] && PiecesFor(e, i)[0].first < ack {
      PieceStart(e, i);
    }
  }

  /** The segments before segment j are not newer. */
  predicate NewestUpTo(s: seq<Seg>, j: nat)
    requires j < |s|
  {
    forall m :: 0 <= m < j ==> s[m].time <= s[j].time
  }

  /** The packet that set the clock of a segment. */
  lemma SetByPacket(events: seq<Event>, i: Index, p: Seg) returns (k: nat)
    requires AllUsable(events) && From(Sendings(events, i), p)
    ensures Since(events, i) <= k < |events| && events[k].time == p.time
    ensures PiecesFor(events[k], i) != [] && PiecesFor(events[k], i)[0].first <= p.last
  {
    var h := Sendings(events, i);
    var n :| 0 <= n < |h| && SetBy(h[n], p);
    k := EventOf(events, i, n);
    AtMostOnePiece(events[k], i);
  }

  lemma NewestIfNone(events: seq<Event>, i: Index, s: seq<Seg>, j: nat)
    requires AllUsable(events) && s == ListAfter(events, i) && j < |s| && Sorted(s)
    requires NoneNewer(events, i, s[j].last + 1, s[j].time)
    ensures NewestUpTo(s, j)
  {
    RunFrom(events, i);
    UsableIsProper(events);
    forall m | 0 <= m < j ensures s[m].time <= s[j].time {
      SortedPairs(s, m, j);
      SortedAt(s, j);
      assert From(Sendings(events, i), s[m]);
      var k := SetByPacket(events, i, s[m]);
      StartsBelow(events[k], i, s[j].last + 1);
    }
  }

  /** A segment that starts below the end of an intact one is not behind it. */
  lemma NotBehind(s: seq<Seg>, j: nat, m: nat)
    requires Sorted(s) && j < |s| && m < |s| && Intact(s, j) && s[m].first <= s[j].last
    ensures m <= j
  {
    if m > j {
      SortedPairs(s, j, m);
      if m > j + 1 {
        SortedPairs(s, j, j + 1);
        SortedPairs(s, j + 1, m);
      }
    }
  }

  lemma NoneIfNewest(events: seq<Event>, i: Index, s: seq<Seg>, j: nat, k: nat)
    requires AllUsable(events) && s == ListAfter(events, i) && j < |s| && Sorted(s) && Intact(s, j) && NewestUpTo(s, j)
    requires Remembers(Sendings(events, i), s) && Since(events, i) <= k < |events| && CarriesBelow(events[k], i, s[j].last + 1)
    ensures events[k].time <= s[j].time
  {
    UsableIsProper(events);
    StartsBelow(events[k], i, s[j].last + 1);
    AtMostOnePiece(events[k], i);
    var n := PieceOf(events, i, k);
    var x := Sendings(events, i)[n];
    assert Holds(s, x.first, x.time);
    var m :| 0 <= m < |s| && HoldsAt(s, m, x.first, x.time);
    NotBehind(s, j, m);
  }

  /**
   An intact segment is as new as those before it, if and only if no packet that carries a byte of its quadrant up to its last one
   was sent after it.
   */
  lemma NewestMeansPackets(events: seq<Event>, i: Index, j: nat)
    requires AllUsable(events) && TimesOrdered(events) && HeadsKept(events, i)
    requires j < |ListAfter(events, i)| && Intact(ListAfter(events, i), j)
    ensures var s := ListAfter(events, i); NewestUpTo(s, j) <==> NoneNewer(events, i, s[j].last + 1, s[j].time)
  {
    var s := ListAfter(events, i);
    ListIsHonest(events, i, j);
    RunRemembers(events, i);
    if NoneNewer(events, i, s[j].last + 1, s[j].time) { NewestIfNone(events, i, s, j); }
    if NewestUpTo(s, j) {
      forall k | Since(events, i) <= k < |events| && CarriesBelow(events[k], i, s[j].last + 1)
        ensures events[k].time <= s[j].time
      {
        NoneIfNewest(events, i, s, j, k);
      }
    }
  }

  /** Nothing that is not acked in the quadrant before the ack's was sent after time t, which does not lie before the epoch. */
  predicate NonePending(events: seq<Event>, ack: SeqNum, t: int) {
    var s := ListAfter(events, Prev(QuadNumOf(ack) - 1));
    0 <= t && forall m :: 0 <= m < |s| && s[m].acked == 0 ==> s[m].time <= t
  }

  lemma XmitIsPending(events: seq<Event>, ack: SeqNum, t: int)
    ensures XmitAt(events, ack) <= t <==> NonePending(events, ack, t)
  {
    var i: Index := QuadNumOf(ack) - 1;
    SegsAfterRecentre(Run(events).space, i, Prev(i));
    AckAnswers.FirstWalkNewest(ListAfter(events, Prev(i)), 0);
  }

  /** A sample comes from the intact segment that the ack ends on, which is as new as all before it. */
  lemma SampleIsIntact(s: seq<Seg>, ack: int, dataLen: nat, now: int, xmit: int, j: nat)
    requires Sorted(s) && j < |s| && Intact(s, j) && s[j].last + 1 == ack && AckUpTo(s, ack, dataLen, now, xmit).samples != []
    ensures s[j].retrans == 0 && xmit <= s[j].time && NewestUpTo(s, j)
  {
    var m := SampleOrigin(s, ack, dataLen, now, xmit, 0);
    if m < j { SameEnd(s, m, j); } else if j < m { SameEnd(s, j, m); }
  }

  /**
   After any run in which time never goes back and no eviction removed a segment newer than its successor: an ack that ends on an
   intact segment, and acks it for the first time, yields a sample if and only if the segment is not counted as resent, nothing
   unacked in the quadrant before was sent after it, and no packet of the run since its quadrant entered the window that carries a
   byte below the ack was.
   */
  lemma SamplesAreNewest(events: seq<Event>, ack: SeqNum, dataLen: nat, now: int, j: nat)
    requires AllUsable(events) && TimesOrdered(events) && HeadsKept(events, QuadNumOf(ack) - 1)
    requires var s := ListAfter(events, QuadNumOf(ack) - 1); j < |s| && Intact(s, j) && s[j].acked == 0 && s[j].last + 1 == ack
    ensures var i, p := QuadNumOf(ack) - 1, ListAfter(events, QuadNumOf(ack) - 1)[j];
            SamplesAt(events, ack, dataLen, now) != [] <==>
            p.retrans == 0 && NonePending(events, ack, p.time) && NoneNewer(events, i, ack, p.time)
  {
    var i := QuadNumOf(ack) - 1;
    var s, xmit := ListAfter(events, i), XmitAt(events, ack);
    ListIsHonest(events, i, j);
    SamplesAtIs(events, ack, dataLen, now);
    NewestMeansPackets(events, i, j);
    XmitIsPending(events, ack, s[j].time);
    if SamplesAt(events, ack, dataLen, now) != [] {
      SampleIsIntact(s, ack, dataLen, now, xmit, j);
    } else if NewestUpTo(s, j) && xmit <= s[j].time {
      IntactSampled(s, ack, dataLen, now, xmit, j);
    }
  }

  /** What the quadrant before the ack's holds unacked was sent by a packet of the run. */
  lemma PendingWasSent(events: seq<Event>, ack: SeqNum, m: nat) returns (k: nat)
    requires AllUsable(events) && m < |ListAfter(events, Prev(QuadNumOf(ack) - 1))|
    ensures Since(events, Prev(QuadNumOf(ack) - 1)) <= k < |events|
    ensures events[k].time == ListAfter(events, Prev(QuadNumOf(ack) - 1))[m].time
  {
    var i: Index := Prev(QuadNumOf(ack) - 1);
    RunFrom(events, i);
    assert From(Sendings(events, i), ListAfter(events, i)[m]);
    k := SetByPacket(events, i, ListAfter(events, i)[m]);
  }

  /** A list whose head is older than a packet that starts before the second segment has forgotten that packet. */
  lemma ForgottenHead(events: seq<Event>, i: Index, s: seq<Seg>, k: nat, b: int)
    requires AllUsable(events) && TimesOrdered(events) && s == ListAfter(events, i) && Sorted(s) && |s| > 1 && b < s[1].first
    requires Since(events, i) <= k < |events| && PiecesFor(events[k], i) != [] && PiecesFor(events[k], i)[0].first == b
    requires s[0].time < events[k].time
    ensures !HeadsKept(events, i)
  {
    RunRemembers(events, i);
    AtMostOnePiece(events[k], i);
    var n := PieceOf(events, i, k);
    if HeadsKept(events, i) { HeadTooOld(s, b, events[k].time); }
  }

  lemma HeadTooOld(s: seq<Seg>, b: int, t: int)
    requires Sorted(s) && |s| > 1 && b < s[1].first && s[0].time < t
    ensures !Holds(s, b, t)
  {
    if Holds(s, b, t) {
      var m :| 0 <= m < |s| && HoldsAt(s, m, b, t);
      if m > 1 { SortedPairs(s, 1, m); }
    }
  }

  /** The packets of the example are all in quadrant 1, and never leave the window. */
  lemma {:induction false} NothingDropped(events: seq<Event>, i: Index)
    requires forall k :: 0 <= k < |events| ==> CentreOf(events[k]) == i
    ensures Since(events, i) == 0
  {
    if events != [] {
      NothingDropped(events[..|events| - 1], i);
    }
  }

  lemma TenBytesAre(events: seq<Event>, k: nat)
    requires 0 < k <= 17 && |events| == 17 && events[k - 1] == FooledSamples.TenBytes(k)
    ensures CentreOf(events[k - 1]) == 0 && events[k - 1].time == k
  {
  }

  lemma EvictingOrdered(events: seq<Event>)
    requires |events| == 17 && forall k :: 0 <= k < 17 ==> events[k] == FooledSamples.TenBytes(k + 1)
    ensures TimesOrdered(events) && Since(events, 0) == 0
  {
    forall k | 0 <= k < 17 ensures CentreOf(events[k]) == 0 && events[k].time == k + 1 { TenBytesAre(events, k + 1); }
    NothingDropped(events, 0);
  }

  lemma ThirdPacket(e: Event)
    requires e == FooledSamples.TenBytes(3)
    ensures e.time == 3 && CarriesBelow(e, 0, 20) && PiecesFor(e, 0) != [] && PiecesFor(e, 0)[0].first == 0
  {
    CutForm(0, 10);
    CrossesInto(0, 10);
    StartsBelow(e, 0, 20);
  }

  lemma EvictedForgets(events: seq<Event>, s: seq<Seg>)
    requires FooledSamples.Leaves(events, 0, s) && FooledSamples.Evicted(s)
    requires |events| == 17 && forall k :: 0 <= k < 17 ==> events[k] == FooledSamples.TenBytes(k + 1)
    ensures !HeadsKept(events, 0) && events[2].time == 3 && CarriesBelow(events[2], 0, 20)
  {
    EvictingOrdered(events);
    ThirdPacket(events[2]);
    RunOk(events);
    ForgottenHead(events, 0, s, 2, 0);
  }

  /**
   The run of seventeen packets in which an eviction removes a newer segment: the ack of byte 19 yields a sample of a segment sent
   at time 2, although a packet that carries bytes below it was sent at time 3.
   */
  lemma EvictionForgetsNewest(now: int) returns (events: seq<Event>)
    ensures AllUsable(events) && SamplesAt(events, 20, 0, now) == [Elapsed(2, now)]
    ensures |events| == 17 && events[2].time == 3 && CarriesBelow(events[2], 0, 20) && !HeadsKept(events, 0)
  {
    events := FooledSamples.Evicting(17);
    var s := FooledSamples.EvictionFoolsKarn(now);
    FooledSamples.EvictingEvents(17);
    EvictedForgets(events, s);
  }
}
