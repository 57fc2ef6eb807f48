/** What the segments of a run have to do with the pieces that its quadrants were handed, and the samples that an ack takes. */
module SampleRuns {
  import opened SequenceNumbers
  import opened SegmentList
  import opened SegmentCoverage
  import opened SegmentAcks
  import opened SegmentHistory
  import opened SequenceSpace
  import opened SequenceSpaceRuns

  // ---- what a run hands to a quadrant ----

  /** The quadrant that an event centres the window on. */
  function CentreOf(e: Event): Index {
    QuadNumOf(if e.Data? then e.s else e.ack) - 1
  }

  /** The pieces of a packet that quadrant i is handed. */
  function PiecesFor(e: Event, i: Index): seq<Sending> {
    if e.Ack? then [] else
      var c, cut := CentreOf(e), Cut(e.s, e.len);
      if i == c then [Sending(cut.first.0, cut.first.1, e.time)]
      else if i == Next(c) && cut.second.Some? then [Sending(cut.second.value.0, cut.second.value.1, e.time)]
      else []
  }

  /** All pieces that quadrant i was handed since it entered the window. */
  function Sendings(events: seq<Event>, i: Index): seq<Sending> {
    if events == [] then [] else
      var e := events[|events| - 1];
      if i == Opposite(CentreOf(e)) then [] else Sendings(events[..|events| - 1], i) + PiecesFor(e, i)
  }

  // ---- every list tells its history ----

  lemma SegsAfterRecentre(sp: Space, c: Index, i: Index)
    requires Window(sp)
    ensures Segs(Recentre(sp, c), i) == if i == Opposite(c) then [] else Segs(sp, i)
  {
  }

  lemma NothingTold(s: seq<Seg>)
    requires s == []
    ensures QuadTold([], s)
  {
  }

  lemma BackwardTold(h: seq<Sending>, s: seq<Seg>, x: Sending, ip: int)
    requires Sorted(s) && QuadTold(h, s) && x.last < x.first && Covers(s, x.first)
    ensures QuadTold(h + [x], AddSeg(s, x.first, x.last, x.time, ip).list)
  {
    InsertIsWalk(s, x.first, x.last, x.time, ip);
    TellBackward(h, x, s, false, ip);
    BackwardIsHit(s, x.first, x.last, x.time, ip);
    ShapeDecides(s, AddSeg(s, x.first, x.last, x.time, ip).list);
  }

  /** A piece that can be recorded. */
  lemma PieceTold(h: seq<Sending>, s: seq<Seg>, x: Sending, ip: int)
    requires Sorted(s) && QuadTold(h, s) && (x.first <= x.last || Covers(s, x.first))
    ensures QuadTold(h + [x], AddSeg(s, x.first, x.last, x.time, ip).list)
  {
    if x.first <= x.last {
      AddSegTold(h, s, x, ip);
    } else {
      BackwardTold(h, s, x, ip);
    }
  }

  /** Recording a packet in a centred window changes the lists of the centre and its successor. */
  lemma SegsAfterRecord(sp: Space, cut: Pieces, now: int, ip: int, i: Index)
    requires Window(sp) && sp.centre >= 0
    ensures Segs(Record(sp, cut, now, ip).space, i) ==
            if i == sp.centre then AddSeg(Segs(sp, i), cut.first.0, cut.first.1, now, ip).list
            else if i == Next(sp.centre) && cut.second.Some? then AddSeg(Segs(sp, i), cut.second.value.0, cut.second.value.1, now, ip).list
            else Segs(sp, i)
  {
  }

  lemma DataTold(sp: Space, e: Event, i: Index, h: seq<Sending>)
    requires e.Data? && SpaceOk(sp) && sp.centre == CentreOf(e) && 1 <= e.len <= MAX_PACKET && Recordable(sp, e.s, e.len)
    requires QuadTold(h, Segs(sp, i))
    ensures QuadTold(h + PiecesFor(e, i), Segs(Record(sp, Cut(e.s, e.len), e.time, e.ipId).space, i))
  {
    var cut := Cut(e.s, e.len);
    CutForm(e.s, e.len);
    SegsAfterRecord(sp, cut, e.time, e.ipId, i);
    assert h + [] == h;
    if i == sp.centre {
      PieceTold(h, Segs(sp, i), Sending(cut.first.0, cut.first.1, e.time), e.ipId);
    } else if i == Next(sp.centre) && cut.second.Some? {
      PieceTold(h, Segs(sp, i), Sending(cut.second.value.0, cut.second.value.1, e.time), e.ipId);
    }
  }

  lemma WalkTold(h: seq<Sending>, q: Quad, a: Acked)
    requires Sorted(q.segs) && QuadTold(h, q.segs) && Raised(q.segs, a.list)
    ensures QuadTold(h, AfterWalk(q, a).segs)
  {
    RaisedTold(h, q.segs, a.list, false);
    ShapeDecides(q.segs, a.list);
    if a.changed {
      CollapseTold(h, a.list, false);
      CollapsePreserves(a.list);
    }
  }

  lemma PreviousTold(h: seq<Sending>, q: Quad)
    requires Sorted(q.segs) && QuadTold(h, q.segs)
    ensures QuadTold(h, AfterWalk(q, AckAll(q.segs, 0)).segs)
  {
    AckAllAcks(q.segs, 0);
    WalkTold(h, q, AckAll(q.segs, 0));
  }

  lemma CurrentTold(h: seq<Sending>, q: Quad, ack: int, dataLen: nat, now: int, lastXmit: int)
    requires Sorted(q.segs) && QuadTold(h, q.segs)
    ensures QuadTold(h, AfterWalk(q, AckUpTo(q.segs, ack, dataLen, now, lastXmit)).segs)
  {
    AckUpToAcks(q.segs, ack, dataLen, now, lastXmit);
    WalkTold(h, q, AckUpTo(q.segs, ack, dataLen, now, lastXmit));
  }

  /** Acking changes the lists of the centre and of the quadrant before it. */
  lemma SegsAfterAck(sp: Space, ack: SeqNum, dataLen: nat, now: int, i: Index)
    requires Window(sp) && sp.centre >= 0
    ensures Segs(Acknowledge(sp, ack, dataLen, now), i) ==
            if i == Prev(sp.centre) then AfterWalk(sp.slots[i].value, AckAll(sp.slots[i].value.segs, 0)).segs
            else if i == sp.centre then
              AfterWalk(sp.slots[i].value, AckUpTo(sp.slots[i].value.segs, ack, dataLen, now, FirstWalk(sp).lastXmit)).segs
            else Segs(sp, i)
  {
  }

  lemma AckTold(sp: Space, e: Event, i: Index, h: seq<Sending>)
    requires e.Ack? && SpaceOk(sp) && sp.centre == CentreOf(e) && QuadTold(h, Segs(sp, i))
    ensures QuadTold(h, Segs(Acknowledge(sp, e.ack, e.dataLen, e.time), i))
  {
    SegsAfterAck(sp, e.ack, e.dataLen, e.time, i);
    if i == Prev(sp.centre) {
      PreviousTold(h, sp.slots[i].value);
    } else if i == sp.centre {
      CurrentTold(h, sp.slots[i].value, e.ack, e.dataLen, e.time, FirstWalk(sp).lastXmit);
    }
  }

  /** One event, after the window has moved. */
  lemma CentredTold(sp: Space, d: Direction, e: Event, i: Index, g: seq<Sending>)
    requires SpaceOk(d.space) && Usable(d, e) && sp == Recentre(d.space, CentreOf(e)) && SpaceOk(sp)
    requires QuadTold(g, Segs(sp, i))
    ensures QuadTold(g + PiecesFor(e, i), Segs(Step(d, e).space, i))
  {
    if e.Data? {
      DataTold(sp, e, i, g);
    } else {
      AckTold(sp, e, i, g);
      assert g + [] == g;
    }
  }

  lemma StepTold(d: Direction, e: Event, i: Index, h: seq<Sending>, next: seq<Sending>)
    requires SpaceOk(d.space) && Usable(d, e) && QuadTold(h, Segs(d.space, i))
    requires next == if i == Opposite(CentreOf(e)) then [] else h + PiecesFor(e, i)
    ensures QuadTold(next, Segs(Step(d, e).space, i))
  {
    var c := CentreOf(e);
    var sp := Recentre(d.space, c);
    RecentreOk(d.space, c);
    SegsAfterRecentre(d.space, c, i);
    if i == Opposite(c) {
      NothingTold(Segs(sp, i));
      CentredTold(sp, d, e, i, []);
      assert PiecesFor(e, i) == [] && [] + PiecesFor(e, i) == next;
    } else {
      CentredTold(sp, d, e, i, h);
    }
  }

  /** After any run, every list tells what the packets of the run did to it. */
  lemma {:induction false} RunTold(events: seq<Event>, i: Index)
    requires AllUsable(events)
    ensures QuadTold(Sendings(events, i), Segs(Run(events).space, i))
    decreases |events|
  {
    if events != [] {
      var rest := events[..|events| - 1];
      RunTold(rest, i);
      RunOk(rest);
      StepTold(Run(rest), events[|events| - 1], i, Sendings(rest, i), Sendings(events, i));
    } else {
      NothingTold(Segs(Run(events).space, i));
    }
  }

  // ---- what the segments of a run tell ----

  lemma {:induction false} SortedAt(s: seq<Seg>, i: nat)
    requires Sorted(s) && i < |s|
    ensures s[i].first <= s[i].last
  {
    if i > 0 { SortedAt(s[1..], i - 1); }
  }

  /** The list of quadrant i after a run. */
  function ListAfter(events: seq<Event>, i: Index): seq<Seg> {
    Segs(Run(events).space, i)
  }

  lemma ListIsHonest(events: seq<Event>, i: Index, j: nat)
    requires AllUsable(events) && j < |ListAfter(events, i)|
    ensures Sorted(ListAfter(events, i)) && Honest(ListAfter(events, i)[j], FirstSeq(i + 1), TrueLastSeq(i + 1))
  {
    RunOk(events);
    HonestAt(ListAfter(events, i), FirstSeq(i + 1), TrueLastSeq(i + 1), j);
  }

  /**
   What segment j of a list tells about the pieces h. All its bytes were sent once, by one packet, exactly if it is intact and
   its history counts no resend; its time is then that of the packet. If it is intact, its 8-bit counter is the number of
   pieces after the first that carried a byte of it, wrapped around.
   */
  ghost predicate TellsHistory(h: seq<Sending>, s: seq<Seg>, j: nat)
    requires j < |s|
  {
    && (SentOnce(h, s[j]) <==> Intact(s, j) && s[j].resent == 0)
    && (forall k: nat :: SentOnceBy(h, k, s[j]) ==> h[k].time == s[j].time)
    && (Intact(s, j) ==> Hits(h, s[j].first, s[j].last) == 1 + s[j].resent)
    && s[j].retrans == s[j].resent % RETRANS_WRAP
  }

  lemma ListTells(h: seq<Sending>, s: seq<Seg>, j: nat, lo: int, hi: int)
    requires Sorted(s) && Told(h, s, false) && j < |s| && s[j].acked == 0 && Honest(s[j], lo, hi)
    ensures TellsHistory(h, s, j)
  {
    SortedAt(s, j);
    OnceIffIntact(h, s, j);
    forall k: nat | SentOnceBy(h, k, s[j]) ensures h[k].time == s[j].time {
      assert SentOnce(h, s[j]);
    }
  }

  /** After any run, every segment that is not acked tells the history of its bytes. */
  lemma SegmentsOfRun(events: seq<Event>, i: Index, j: nat)
    requires AllUsable(events) && j < |ListAfter(events, i)| && ListAfter(events, i)[j].acked == 0
    ensures TellsHistory(Sendings(events, i), ListAfter(events, i), j)
  {
    RunTold(events, i);
    ListIsHonest(events, i, j);
    ListTells(Sendings(events, i), ListAfter(events, i), j, FirstSeq(i + 1), TrueLastSeq(i + 1));
  }

  // ---- samples ----

  /** The window that ack_in looks at after a run. */
  function WindowAt(events: seq<Event>, ack: SeqNum): Space {
    Recentre(Run(events).space, QuadNumOf(ack) - 1)
  }

  /** The samples that an ack takes after a run. */
  function SamplesAt(events: seq<Event>, ack: SeqNum, dataLen: nat, now: int): seq<int> {
    SecondWalk(WindowAt(events, ack), ack, dataLen, now).samples
  }

  /** They are what ack_in adds to the samples of the direction. */
  lemma SamplesAreAdded(events: seq<Event>, ack: SeqNum, dataLen: nat, now: int)
    ensures Run(events + [Ack(ack, dataLen, now)]).samples == Run(events).samples + SamplesAt(events, ack, dataLen, now)
  {
    assert (events + [Ack(ack, dataLen, now)])[..|events|] == events;
  }

  /** The newest transmission that an ack finds in the quadrant before its own. */
  function XmitAt(events: seq<Event>, ack: SeqNum): int {
    FirstWalk(WindowAt(events, ack)).lastXmit
  }

  lemma SamplesAtIs(events: seq<Event>, ack: SeqNum, dataLen: nat, now: int)
    ensures SamplesAt(events, ack, dataLen, now)
         == AckUpTo(ListAfter(events, QuadNumOf(ack) - 1), ack, dataLen, now, XmitAt(events, ack)).samples
  {
    SegsAfterRecentre(Run(events).space, QuadNumOf(ack) - 1, QuadNumOf(ack) - 1);
  }

  /** Two segments that end on the same byte share it. */
  lemma SameEnd(s: seq<Seg>, i: nat, j: nat)
    requires Sorted(s) && i < j < |s| && s[i].last == s[j].last
    ensures j == i + 1 && s[i].last == s[j].first
  {
    SortedPairs(s, i, j);
    SortedAt(s, j);
    if i + 1 < j {
      SortedPairs(s, i, i + 1);
      SortedPairs(s, i + 1, j);
    }
  }

  /** Of an intact segment that an ack ends on, and that is not older than any before it. */
  lemma IntactSampled(s: seq<Seg>, ack: int, dataLen: nat, now: int, xmit: int, j: nat)
    requires Sorted(s) && j < |s| && Intact(s, j) && s[j].acked == 0 && s[j].last + 1 == ack
    requires xmit <= s[j].time && forall m | 0 <= m < j :: s[m].time <= s[j].time
    ensures AckUpTo(s, ack, dataLen, now, xmit).samples != [] <==> s[j].retrans == 0
  {
    SortedAt(s, j);
    if s[j].retrans == 0 {
      SampleTaken(s, ack, dataLen, now, xmit, j);
    } else if AckUpTo(s, ack, dataLen, now, xmit).samples != [] {
      var m := SampleOrigin(s, ack, dataLen, now, xmit, 0);
      if m < j { SameEnd(s, m, j); } else if j < m { SameEnd(s, j, m); }
    }
  }
}
