/** What a call of rexmit answers and records, as a whole: the window is moved first. */
module RexmitAnswers {
  import opened SequenceNumbers
  import opened SegmentList
  import opened SegmentCoverage
  import opened SequenceSpace
  import opened SequenceSpaceRuns
  import opened SequenceSpaceResults

  // ---- out of order ----

  lemma {:induction false} BackwardInOrder(s: seq<Seg>, f: int, l: int, split: bool, now: int, ip: int)
    requires Sorted(s) && l < f && Covers(s, f)
    ensures !Walk(s, f, l, split, now, ip).outOfOrder
    decreases |s|
  {
    CoversWithin(s, f);
    if f > s[0].last {
      BackwardInOrder(s[1..], f, l, split, now, ip);
    }
  }

  /** One piece that can be recorded. */
  lemma PieceOrder(s: seq<Seg>, f: int, l: int, now: int, ip: int)
    requires Sorted(s) && (f <= l || Covers(s, f))
    ensures AddSeg(s, f, l, now, ip).outOfOrder <==> FillsHole(s, f, l)
  {
    if f <= l {
      OutOfOrderMeansHole(s, f, l, now, ip);
    } else {
      InsertIsWalk(s, f, l, now, ip);
      BackwardInOrder(s, f, l, false, now, ip);
    }
  }

  /** One of the pieces fills a hole of its quadrant, in a window that is centred. */
  ghost predicate PiecesFillHole(sp: Space, cut: Pieces)
    requires Window(sp) && sp.centre >= 0
  {
    || FillsHole(Segs(sp, sp.centre), cut.first.0, cut.first.1)
    || (cut.second.Some? && FillsHole(Segs(sp, Next(sp.centre)), cut.second.value.0, cut.second.value.1))
  }

  lemma RecordOrder(sp: Space, cut: Pieces, now: int, ip: int)
    requires SpaceOk(sp) && sp.centre >= 0 && (cut.first.0 <= cut.first.1 || Covers(Segs(sp, sp.centre), cut.first.0))
    requires cut.second.Some? ==> cut.second.value.0 <= cut.second.value.1
    ensures Record(sp, cut, now, ip).outOfOrder <==> PiecesFillHole(sp, cut)
  {
    PieceOrder(Segs(sp, sp.centre), cut.first.0, cut.first.1, now, ip);
    if cut.second.Some? {
      var r := AddPiece(Recorded(sp, 0, false), sp.centre, cut.first, now, ip);
      assert r.space.slots[Next(sp.centre)] == sp.slots[Next(sp.centre)];
      PieceOrder(Segs(sp, Next(sp.centre)), cut.second.value.0, cut.second.value.1, now, ip);
    }
  }

  /**
   A new byte of the packet lies right before a recorded segment of its quadrant that reaches beyond the packet. No other
   segment lies in between.
   */
  ghost predicate NewByteBeforeSegment(sp: Space, s: SeqNum, len: nat)
    requires |sp.slots| == 4
  {
    var segs := Segs(sp, QuadNumOf(s) - 1);
    exists i, b :: 0 <= i < |segs| && b in SegmentBytes(s, len) && !SpaceCovers(sp, b) && ByteBefore(segs, i, b)
                   && s + len - 1 < segs[i].last
  }

  /** Segment i is the first one beyond byte b. */
  predicate ByteBefore(segs: seq<Seg>, i: int, b: int)
    requires 0 <= i < |segs|
  {
    b < segs[i].first && (i == 0 || segs[i - 1].last < b)
  }

  /** Between two segments nothing is recorded. */
  lemma BetweenIsNew(s: seq<Seg>, i: int, b: int)
    requires Sorted(s) && 0 <= i < |s| && ByteBefore(s, i, b)
    ensures !Covers(s, b)
  {
    if Covers(s, b) {
      var j := CoversWitness(s, b);
      if i > 0 { SortedPairs(s, i - 1, i); }
      if j < i - 1 { SortedPairs(s, j, i - 1); }
      if j > i { SortedPairs(s, i, j); }
    }
  }

  /** The form over packet bytes, for a packet that stays in its quadrant. */
  lemma HoleOfPacket(sp: Space, s: SeqNum, len: nat)
    requires SpaceOk(sp) && 1 <= len <= MAX_PACKET && !Crosses(s, len)
    ensures FillsHole(Segs(sp, QuadNumOf(s) - 1), s, s + len - 1) <==> NewByteBeforeSegment(sp, s, len)
  {
    var segs := Segs(sp, QuadNumOf(s) - 1);
    CutForm(s, len);
    if FillsHole(segs, s, s + len - 1) {
      var i, b :| NewBefore(segs, s, s + len - 1, i, b);
      PacketBytes(s, len, b);
      BetweenIsNew(segs, i, b);
      assert QuadNumOf(b) == QuadNumOf(s);
      assert !SpaceCovers(sp, b) && ByteBefore(segs, i, b);
    }
    if NewByteBeforeSegment(sp, s, len) {
      var i, b :| 0 <= i < |segs| && b in SegmentBytes(s, len) && !SpaceCovers(sp, b) && ByteBefore(segs, i, b)
                  && s + len - 1 < segs[i].last;
      PacketBytes(s, len, b);
      assert NewBefore(segs, s, s + len - 1, i, b);
    }
  }

  lemma HoleOfPieces(t: Space, s: SeqNum, len: nat)
    requires SpaceOk(t) && t.centre == QuadNumOf(s) - 1 && 1 <= len <= MAX_PACKET && !Crosses(s, len)
    ensures PiecesFillHole(t, Cut(s, len)) <==> NewByteBeforeSegment(t, s, len)
  {
    CutForm(s, len);
    HoleOfPacket(t, s, len);
  }

  /**
   rexmit reports a packet out of order if and only if one of its pieces brings a new byte right before a segment of its
   quadrant that reaches beyond that piece.
   */
  lemma RexmitOutOfOrder(sp: Space, s: SeqNum, len: nat, now: int, ip: int)
    requires SpaceOk(sp) && 1 <= len <= MAX_PACKET && Recordable(Recentre(sp, QuadNumOf(s) - 1), s, len)
    ensures var t := Recentre(sp, QuadNumOf(s) - 1);
            && (Rexmit(sp, s, len, now, ip).outOfOrder <==> PiecesFillHole(t, Cut(s, len)))
            && (!Crosses(s, len) ==> (Rexmit(sp, s, len, now, ip).outOfOrder <==> NewByteBeforeSegment(t, s, len)))
  {
    var t := Recentre(sp, QuadNumOf(s) - 1);
    RecentreOk(sp, QuadNumOf(s) - 1);
    PiecesInQuadrants(s, len, s);
    RecordOrder(t, Cut(s, len), now, ip);
    if !Crosses(s, len) { HoleOfPieces(t, s, len); }
  }

  // ---- the count and the recorded bytes ----

  /**
   What rexmit returns for every packet that it can record: the number of bytes of the packet that were recorded before,
   less those hidden by a touch, less the lost and plus the extra bytes. The count is right if and only if as many are lost
   as are extra, which is so for every packet that stays in its quadrant or leaves quadrant 1.
   */
  lemma RexmitAccounts(sp: Space, s: SeqNum, len: nat, now: int, ip: int)
    requires SpaceOk(sp) && 1 <= len <= MAX_PACKET && Recordable(Recentre(sp, QuadNumOf(s) - 1), s, len)
    ensures var t := Recentre(sp, QuadNumOf(s) - 1);
            var bytes, right := Rexmit(sp, s, len, now, ip).bytes, PacketKnown(t, s, len) - HiddenByTouch(t, Cut(s, len));
            && bytes == right - LostBytes(t, s, len) + ExtraBytes(t, s, len)
            && (bytes == right <==> LostBytes(t, s, len) == ExtraBytes(t, s, len))
            && (!Crosses(s, len) || QuadNumOf(s) == 1 ==> LostBytes(t, s, len) == ExtraBytes(t, s, len) == 0)
  {
    RecentreOk(sp, QuadNumOf(s) - 1);
    RecordAccounts(Recentre(sp, QuadNumOf(s) - 1), s, len, now, ip);
  }

  /**
   After every packet that can be recorded, the recorded bytes are those from before that the move of the window keeps, the
   pieces of the packet and the gaps that evictions swallow.
   */
  lemma RexmitRecords(sp: Space, s: SeqNum, len: nat, now: int, ip: int, b: SeqNum)
    requires SpaceOk(sp) && 1 <= len <= MAX_PACKET && Recordable(Recentre(sp, QuadNumOf(s) - 1), s, len)
    ensures var cut, c, t := Cut(s, len), QuadNumOf(s) - 1, Recentre(sp, QuadNumOf(s) - 1);
            SpaceCovers(Rexmit(sp, s, len, now, ip).space, b) <==>
            || (SpaceCovers(sp, b) && QuadNumOf(b) - 1 != Opposite(c))
            || b in CutBytes(s, len)
            || Swallowed(t, c, cut.first, now, ip, b)
            || (cut.second.Some? && Swallowed(t, Next(c), cut.second.value, now, ip, b))
  {
    RecentreOk(sp, QuadNumOf(s) - 1);
    RecentreKeeps(sp, QuadNumOf(s) - 1, b);
    RecordRecords(Recentre(sp, QuadNumOf(s) - 1), s, len, now, ip, b);
  }
}
