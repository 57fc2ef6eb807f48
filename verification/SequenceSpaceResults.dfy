/** Byte accounting, acked bytes and RTT samples over whole calls and whole runs of rexmit and ack_in. */
module SequenceSpaceResults {
  import opened Common
  import opened SequenceNumbers
  import opened SegmentList
  import opened SegmentCoverage
  import opened SegmentAcks
  import opened SequenceSpace
  import opened SequenceSpaceRuns
  import opened Statistics

  /** Byte b is recorded in the quadrant that owns it. */
  predicate SpaceCovers(sp: Space, b: SeqNum)
    requires |sp.slots| == 4
  {
    Covers(Segs(sp, QuadNumOf(b) - 1), b)
  }

  predicate SpaceAcked(sp: Space, b: SeqNum)
    requires |sp.slots| == 4
  {
    AckedCovers(Segs(sp, QuadNumOf(b) - 1), b)
  }

  /** The sequence number after s. */
  function After(s: SeqNum): SeqNum {
    if s + 1 == SEQ_SPACE then 0 else s + 1
  }

  /** How many of the len numbers from s on satisfy p, across the end of the sequence space. */
  function HowMany(p: SeqNum -> bool, s: SeqNum, len: nat): nat
    decreases len
  {
    if len == 0 then 0 else (if p(s) then 1 else 0) + HowMany(p, After(s), len - 1)
  }

  function RecordedIn(sp: Space): SeqNum -> bool
    requires |sp.slots| == 4
  {
    (b: SeqNum) => SpaceCovers(sp, b)
  }

  /** How many of the len bytes from s on are recorded, byte by byte. */
  function PacketKnown(sp: Space, s: SeqNum, len: nat): nat
    requires |sp.slots| == 4
  {
    HowMany(RecordedIn(sp), s, len)
  }

  // ---- whichquad ----

  /** Moving the window keeps what is recorded, except in the quadrant opposite to the new centre. */
  lemma RecentreKeeps(sp: Space, q: Index, b: SeqNum)
    requires Window(sp)
    ensures SpaceCovers(Recentre(sp, q), b) <==> SpaceCovers(sp, b) && QuadNumOf(b) - 1 != Opposite(q)
    ensures SpaceAcked(Recentre(sp, q), b) <==> SpaceAcked(sp, b) && QuadNumOf(b) - 1 != Opposite(q)
    ensures sp.centre == q ==> Recentre(sp, q) == sp
  {
  }

  // ---- byte accounting of rexmit ----

  /** Within one quadrant, counting packet bytes is counting list bytes. */
  lemma {:induction false} PacketInQuadrant(sp: Space, s: SeqNum, len: nat)
    requires |sp.slots| == 4 && s + len - 1 <= TrueLastSeq(QuadNumOf(s))
    ensures PacketKnown(sp, s, len) == Known(Segs(sp, QuadNumOf(s) - 1), s, s + len - 1)
    decreases len
  {
    if len > 1 {
      assert QuadNumOf(s + 1) == QuadNumOf(s);
      PacketInQuadrant(sp, s + 1, len - 1);
    } else if len == 1 {
      assert Known(Segs(sp, QuadNumOf(s) - 1), s + 1, s) == 0;
    }
  }

  /** The count of a stretch that does not reach the end of the sequence space, up to byte m and from there on. */
  lemma {:induction false} PacketSplit(p: SeqNum -> bool, s: SeqNum, m: SeqNum, a: nat, rest: nat)
    requires s + a == m
    ensures HowMany(p, s, a + rest) == HowMany(p, s, a) + HowMany(p, m, rest)
    decreases a
  {
    if a > 0 {
      PacketSplit(p, s + 1, m, a - 1, rest);
    }
  }

  /** The same where the stretch reaches the end and goes on at byte 0. */
  lemma PacketWraps(p: SeqNum -> bool, s: SeqNum, a: nat, rest: nat)
    requires s + a == SEQ_SPACE
    ensures HowMany(p, s, a + rest) == HowMany(p, s, a) + HowMany(p, 0, rest)
  {
    var end: SeqNum := SEQ_SPACE - 1;
    PacketSplit(p, s, end, a - 1, 1 + rest);
    PacketSplit(p, s, end, a - 1, 1);
    assert After(end) == 0 && HowMany(p, 0, 0) == 0;
  }

  /** What addseg counts in a piece, but for a touch: the recorded bytes, or a negative number for a backward piece. */
  function Counted(s: seq<Seg>, f: int, l: int): int {
    if l < f then l - f + 1 else Known(s, f, l)
  }

  lemma PieceCounts(s: seq<Seg>, f: int, l: int, now: int, ip: int)
    requires Sorted(s) && (f <= l || Covers(s, f))
    ensures AddSeg(s, f, l, now, ip).bytes == Counted(s, f, l) - Touch(s, f, l)
  {
    if f <= l {
      AddSegCounts(s, f, l, now, ip);
    } else {
      BackwardPiece(s, f, l, now, ip);
    }
  }

  /** The bytes that a touch hides from the count, in each of the pieces of the packet. */
  function HiddenByTouch(sp: Space, cut: Pieces): nat
    requires Window(sp) && sp.centre >= 0
  {
    Touch(Segs(sp, sp.centre), cut.first.0, cut.first.1) +
    if cut.second.None? then 0 else Touch(Segs(sp, Next(sp.centre)), cut.second.value.0, cut.second.value.1)
  }

  /** What rexmit returns, in terms of the pieces, for all pieces that can be recorded. */
  lemma RecordCounts(sp: Space, cut: Pieces, now: int, ip: int)
    requires SpaceOk(sp) && sp.centre >= 0 && (cut.first.0 <= cut.first.1 || Covers(Segs(sp, sp.centre), cut.first.0))
    requires cut.second.Some? ==> cut.second.value.0 <= cut.second.value.1
    ensures Record(sp, cut, now, ip).bytes
         == Counted(Segs(sp, sp.centre), cut.first.0, cut.first.1) - HiddenByTouch(sp, cut) +
            if cut.second.None? then 0 else Known(Segs(sp, Next(sp.centre)), cut.second.value.0, cut.second.value.1)
  {
    PieceCounts(Segs(sp, sp.centre), cut.first.0, cut.first.1, now, ip);
    if cut.second.Some? {
      AddSegCounts(Segs(sp, Next(sp.centre)), cut.second.value.0, cut.second.value.1, now, ip);
    }
  }

  /** Where a packet that crosses is cut by the boundary: a bytes before it, and the rest from start on. */
  lemma AcrossBoundary(s: SeqNum, len: nat) returns (start: SeqNum, a: nat)
    requires 1 <= len <= MAX_PACKET && Crosses(s, len)
    ensures var q := QuadNumOf(s);
            && start == StartAfter(q - 1) && QuadNumOf(start) == Next(q - 1) + 1
            && 1 <= a < len && s + a - 1 == TrueLastSeq(q)
            && s + a <= SEQ_SPACE && start == (if s + a == SEQ_SPACE then 0 else s + a)
            && start + (len - a) - 1 == LastAcross(s, len) <= TrueLastSeq(QuadNumOf(start))
  {
    var c: Index := QuadNumOf(s) - 1;
    CrossesInto(s, len);
    start, a := StartAfter(c), TrueLastSeq(c + 1) + 1 - s;
  }

  /** The n bytes from f to l lie in quadrant i. */
  lemma StretchIn(sp: Space, f: SeqNum, l: int, i: Index, n: nat)
    requires |sp.slots| == 4 && i == QuadNumOf(f) - 1 && l == f + n - 1 && l <= TrueLastSeq(QuadNumOf(f))
    ensures PacketKnown(sp, f, n) == Known(Segs(sp, i), f, l)
  {
    PacketInQuadrant(sp, f, n);
  }

  lemma PacketInTwo(sp: Space, s: SeqNum, start: SeqNum, len: nat, a: nat, rest: nat)
    requires |sp.slots| == 4 && s + a <= SEQ_SPACE && start == (if s + a == SEQ_SPACE then 0 else s + a) && len == a + rest
    ensures PacketKnown(sp, s, len) == PacketKnown(sp, s, a) + PacketKnown(sp, start, rest)
  {
    if s + a == SEQ_SPACE {
      PacketWraps(RecordedIn(sp), s, a, rest);
    } else {
      PacketSplit(RecordedIn(sp), s, start, a, rest);
    }
  }

  /** The packet is a bytes up to l in quadrant i, and the rest from start to m in quadrant j. */
  lemma TwoStretches(sp: Space, s: SeqNum, l: int, i: Index, start: SeqNum, m: int, j: Index, len: nat, a: nat, rest: nat)
    requires |sp.slots| == 4 && s + a <= SEQ_SPACE && start == (if s + a == SEQ_SPACE then 0 else s + a) && len == a + rest
    requires i == QuadNumOf(s) - 1 && l == s + a - 1 && l <= TrueLastSeq(QuadNumOf(s))
    requires j == QuadNumOf(start) - 1 && m == start + rest - 1 && m <= TrueLastSeq(QuadNumOf(start))
    ensures PacketKnown(sp, s, len) == Known(Segs(sp, i), s, l) + Known(Segs(sp, j), start, m)
  {
    PacketInTwo(sp, s, start, len, a, rest);
    StretchIn(sp, s, l, i, a);
    StretchIn(sp, start, m, j, rest);
  }

  lemma StretchesAcross(sp: Space, s: SeqNum, l: int, i: Index, start: SeqNum, m: int, j: Index, len: nat)
    requires |sp.slots| == 4 && 1 <= len <= MAX_PACKET && Crosses(s, len) && i == QuadNumOf(s) - 1 && l == TrueLastSeq(QuadNumOf(s))
    requires start == StartAfter(i) && m == LastAcross(s, len) && j == Next(i)
    ensures PacketKnown(sp, s, len) == Known(Segs(sp, i), s, l) + Known(Segs(sp, j), start, m)
  {
    var begin, a := AcrossBoundary(s, len);
    TwoStretches(sp, s, l, i, start, m, j, len, a, len - a);
  }

  /** A packet that crosses, in its two quadrants. */
  lemma PacketAcross(sp: Space, s: SeqNum, len: nat)
    requires |sp.slots| == 4 && 1 <= len <= MAX_PACKET && Crosses(s, len)
    ensures var q := QuadNumOf(s);
            PacketKnown(sp, s, len) == Known(Segs(sp, q - 1), s, TrueLastSeq(q)) +
                                       Known(Segs(sp, Next(q - 1)), StartAfter(q - 1), LastAcross(s, len))
  {
    var i: Index := QuadNumOf(s) - 1;
    StretchesAcross(sp, s, TrueLastSeq(QuadNumOf(s)), i, StartAfter(i), LastAcross(s, len), Next(i), len);
  }

  /** The recorded ones of the bytes from s to last that lie beyond cut, and, if s does too, the number of those before s. */
  function Lost(here: seq<Seg>, s: int, cut: int, last: int): nat {
    if s <= cut then Known(here, cut + 1, last) else Known(here, s, last) + (s - cut - 1)
  }

  /**
   What the count misses of a packet that crosses out of quadrant q: its recorded bytes among the last q - 1 of the
   quadrant, and, if it starts beyond the first of these, the number of those before it.
   */
  function LostBytes(sp: Space, s: SeqNum, len: nat): nat
    requires |sp.slots| == 4
  {
    var q := QuadNumOf(s);
    if Crosses(s, len) then Lost(Segs(sp, q - 1), s, LastSeq(q), TrueLastSeq(q)) else 0
  }

  /** What it counts in addition: the recorded bytes among the q - 1 that follow the packet. */
  function ExtraBytes(sp: Space, s: SeqNum, len: nat): nat
    requires |sp.slots| == 4
  {
    var q := QuadNumOf(s);
    if !Crosses(s, len) then 0 else Known(Segs(sp, Next(q - 1)), LastAcross(s, len) + 1, LastAcross(s, len) + q - 1)
  }

  lemma CrossingCounts(sp: Space, s: SeqNum, len: nat, now: int, ip: int)
    requires SpaceOk(sp) && sp.centre == QuadNumOf(s) - 1 && 1 <= len <= MAX_PACKET && Recordable(sp, s, len) && Crosses(s, len)
    ensures var q := QuadNumOf(s);
            && StartAfter(q - 1) <= LastAcross(s, len) && s <= TrueLastSeq(q) && LastSeq(q) <= TrueLastSeq(q)
            && Record(sp, Cut(s, len), now, ip).bytes
               == Counted(Segs(sp, q - 1), s, LastSeq(q)) - HiddenByTouch(sp, Cut(s, len))
                  + Known(Segs(sp, Next(q - 1)), StartAfter(q - 1), LastAcross(s, len) + q - 1)
  {
    PiecesAcross(s, len);
    RecordCounts(sp, Cut(s, len), now, ip);
  }

  lemma CrossingAccounts(sp: Space, s: SeqNum, len: nat, now: int, ip: int)
    requires SpaceOk(sp) && sp.centre == QuadNumOf(s) - 1 && 1 <= len <= MAX_PACKET && Recordable(sp, s, len) && Crosses(s, len)
    ensures Record(sp, Cut(s, len), now, ip).bytes
         == PacketKnown(sp, s, len) - HiddenByTouch(sp, Cut(s, len)) - LostBytes(sp, s, len) + ExtraBytes(sp, s, len)
  {
    CrossingCounts(sp, s, len, now, ip);
    CrossingSums(sp, s, len, Record(sp, Cut(s, len), now, ip).bytes + HiddenByTouch(sp, Cut(s, len)));
  }

  lemma CrossingSums(sp: Space, s: SeqNum, len: nat, bytes: int)
    requires |sp.slots| == 4 && 1 <= len <= MAX_PACKET && Crosses(s, len)
    requires var q := QuadNumOf(s);
             && StartAfter(q - 1) <= LastAcross(s, len) && s <= TrueLastSeq(q) && LastSeq(q) <= TrueLastSeq(q)
             && bytes == Counted(Segs(sp, q - 1), s, LastSeq(q))
                         + Known(Segs(sp, Next(q - 1)), StartAfter(q - 1), LastAcross(s, len) + q - 1)
    ensures bytes == PacketKnown(sp, s, len) - LostBytes(sp, s, len) + ExtraBytes(sp, s, len)
  {
    var q: int := QuadNumOf(s);
    PacketAcross(sp, s, len);
    LostAndExtra(sp, s, len);
    BothCounted(Segs(sp, q - 1), s, LastSeq(q), TrueLastSeq(q), Segs(sp, Next(q - 1)), StartAfter(q - 1), LastAcross(s, len), q - 1);
  }

  lemma LostAndExtra(sp: Space, s: SeqNum, len: nat)
    requires |sp.slots| == 4 && Crosses(s, len)
    ensures var q := QuadNumOf(s);
            && LostBytes(sp, s, len) == Lost(Segs(sp, q - 1), s, LastSeq(q), TrueLastSeq(q))
            && ExtraBytes(sp, s, len) == Known(Segs(sp, Next(q - 1)), LastAcross(s, len) + 1, LastAcross(s, len) + q - 1)
  {
  }

  lemma BothCounted(here: seq<Seg>, s: int, cut: int, last: int, there: seq<Seg>, start: int, across: int, extra: nat)
    requires s <= last && cut <= last && start <= across
    ensures Counted(here, s, cut) + Known(there, start, across + extra)
         == Known(here, s, last) + Known(there, start, across) - Lost(here, s, cut, last) + Known(there, across + 1, across + extra)
  {
    if s <= cut < last {
      KnownSplit(here, s, cut, last);
    }
    KnownSplit(there, start, across, across + extra);
  }

  lemma StayingAccounts(sp: Space, s: SeqNum, len: nat, now: int, ip: int)
    requires SpaceOk(sp) && sp.centre == QuadNumOf(s) - 1 && 1 <= len <= MAX_PACKET && !Crosses(s, len)
    ensures Record(sp, Cut(s, len), now, ip).bytes == PacketKnown(sp, s, len) - HiddenByTouch(sp, Cut(s, len))
  {
    CutForm(s, len);
    RecordCounts(sp, Cut(s, len), now, ip);
    PacketInQuadrant(sp, s, len);
  }

  /** The count for every packet that can be recorded in a centred window. */
  lemma RecordAccounts(sp: Space, s: SeqNum, len: nat, now: int, ip: int)
    requires SpaceOk(sp) && sp.centre == QuadNumOf(s) - 1 && 1 <= len <= MAX_PACKET && Recordable(sp, s, len)
    ensures var bytes, right := Record(sp, Cut(s, len), now, ip).bytes, PacketKnown(sp, s, len) - HiddenByTouch(sp, Cut(s, len));
            && bytes == right - LostBytes(sp, s, len) + ExtraBytes(sp, s, len)
            && (bytes == right <==> LostBytes(sp, s, len) == ExtraBytes(sp, s, len))
    ensures !Crosses(s, len) || QuadNumOf(s) == 1 ==> LostBytes(sp, s, len) == ExtraBytes(sp, s, len) == 0
  {
    if Crosses(s, len) {
      CrossingAccounts(sp, s, len, now, ip);
    } else {
      StayingAccounts(sp, s, len, now, ip);
    }
  }

  /** The last byte of the sequence space, alone in its quadrant. */
  lemma LastByteAlone(now: int, ip: int)
    ensures var sp := Rexmit(EMPTY_SPACE, 0xffff_ffff, 1, now, ip).space;
            SpaceOk(sp) && sp.centre == 3 && Segs(sp, 3) == [NewSeg(0xffff_ffff, 0xffff_ffff, now, ip)] && Segs(sp, 0) == []
  {
    var sp := Recentre(EMPTY_SPACE, 3);
    CutForm(0xffff_ffff, 1);
    RecentreOk(EMPTY_SPACE, 3);
    RecordOk(sp, 0xffff_ffff, 1, now, ip);
    assert Segs(sp, 3) == [] && Segs(sp, 0) == [];
  }

  /** That byte and the next one: one of the two was sent before, and rexmit returns -2. */
  lemma RexmitMiscounts(t0: int, t1: int, ip: int)
    ensures var sp := Rexmit(EMPTY_SPACE, 0xffff_ffff, 1, t0, ip).space;
            PacketKnown(sp, 0xffff_ffff, 2) == 1 && Rexmit(sp, 0xffff_ffff, 2, t1, ip).bytes == -2
  {
    var sp := Rexmit(EMPTY_SPACE, 0xffff_ffff, 1, t0, ip).space;
    LastByteAlone(t0, ip);
    MiscountAt(sp, t0, t1, ip);
  }

  /** The pieces that the packet is cut into: one that ends three bytes before it starts, and four bytes for one. */
  lemma MiscutPieces()
    ensures Cut(0xffff_ffff, 2) == Pieces((0xffff_ffff, 0xffff_fffc), Some((0, 3)))
  {
    CutForm(0xffff_ffff, 2);
  }

  lemma MiscountAt(sp: Space, t0: int, t1: int, ip: int)
    requires SpaceOk(sp) && sp.centre == 3 && Segs(sp, 3) == [NewSeg(0xffff_ffff, 0xffff_ffff, t0, ip)] && Segs(sp, 0) == []
    ensures PacketKnown(sp, 0xffff_ffff, 2) == 1 && Rexmit(sp, 0xffff_ffff, 2, t1, ip).bytes == -2
  {
    var cut := Cut(0xffff_ffff, 2);
    MiscutPieces();
    RecentreKeeps(sp, 3, 0);
    RecordCounts(sp, cut, t1, ip);
    KnownNothing(0, 3);
    assert !Touches([], 0, 3);
    TwoBytesKnown(sp, t0, ip);
  }

  lemma TwoBytesKnown(sp: Space, t0: int, ip: int)
    requires |sp.slots| == 4 && Segs(sp, 3) == [NewSeg(0xffff_ffff, 0xffff_ffff, t0, ip)] && Segs(sp, 0) == []
    ensures PacketKnown(sp, 0xffff_ffff, 2) == 1
  {
    assert After(0xffff_ffff) == 0 && PacketKnown(sp, 1, 0) == 0;
    assert SpaceCovers(sp, 0xffff_ffff) && !SpaceCovers(sp, 0);
  }

  /** Byte b is swallowed by an eviction when a piece is added to quadrant i. */
  predicate Swallowed(sp: Space, i: Index, piece: (SeqNum, SeqNum), now: int, ip: int, b: SeqNum)
    requires |sp.slots| == 4
  {
    QuadNumOf(b) - 1 == i && InGap(Segs(sp, i), piece.0, piece.1, now, ip, b)
  }

  lemma PieceCovers(s: seq<Seg>, f: int, l: int, now: int, ip: int, b: int)
    requires Sorted(s) && (f <= l || Covers(s, f))
    ensures Covers(AddSeg(s, f, l, now, ip).list, b) <==> Covers(s, b) || f <= b <= l || InGap(s, f, l, now, ip, b)
  {
    if f <= l {
      AddSegCovers(s, f, l, now, ip, b);
    } else {
      BackwardPiece(s, f, l, now, ip);
      ShapeDecides(s, AddSeg(s, f, l, now, ip).list);
      InsertIsWalk(s, f, l, now, ip);
      BackwardIsHit(s, f, l, now, ip);
    }
  }

  lemma AddPieceCovers(r: Recorded, i: Index, piece: (SeqNum, SeqNum), now: int, ip: int, b: SeqNum)
    requires Window(r.space) && r.space.slots[i].Some? && Sorted(Segs(r.space, i))
    requires piece.0 <= piece.1 || Covers(Segs(r.space, i), piece.0)
    requires piece.0 <= b <= piece.1 ==> QuadNumOf(b) - 1 == i
    ensures SpaceCovers(AddPiece(r, i, piece, now, ip).space, b) <==>
            || SpaceCovers(r.space, b)
            || piece.0 <= b <= piece.1
            || Swallowed(r.space, i, piece, now, ip, b)
  {
    if QuadNumOf(b) - 1 == i {
      PieceCovers(Segs(r.space, i), piece.0, piece.1, now, ip, b);
    }
  }

  /** The pieces of a packet go to the quadrant of its first byte and to the one after it. */
  lemma PiecesInQuadrants(s: SeqNum, len: nat, b: SeqNum)
    requires 1 <= len <= MAX_PACKET
    ensures var cut, c := Cut(s, len), QuadNumOf(s) - 1;
            && (cut.first.0 <= b <= cut.first.1 ==> QuadNumOf(b) - 1 == c)
            && (cut.second.Some? ==>
                  cut.second.value.0 <= cut.second.value.1
                  && (cut.second.value.0 <= b <= cut.second.value.1 ==> QuadNumOf(b) - 1 == Next(c)))
            && (cut.first.0 > cut.first.1 ==> cut.first.0 == s && !WellCut(s, len))
  {
    CutForm(s, len);
  }

  /** The recorded bytes after every packet that can be recorded in a centred window. */
  lemma RecordRecords(sp: Space, s: SeqNum, len: nat, now: int, ip: int, b: SeqNum)
    requires SpaceOk(sp) && sp.centre == QuadNumOf(s) - 1 && 1 <= len <= MAX_PACKET && Recordable(sp, s, len)
    ensures var cut := Cut(s, len);
            SpaceCovers(Record(sp, cut, now, ip).space, b) <==>
            || SpaceCovers(sp, b)
            || b in CutBytes(s, len)
            || Swallowed(sp, sp.centre, cut.first, now, ip, b)
            || (cut.second.Some? && Swallowed(sp, Next(sp.centre), cut.second.value, now, ip, b))
  {
    PiecesInQuadrants(s, len, b);
    RecordCovers(sp, Cut(s, len), now, ip, b);
  }

  lemma RecordCovers(sp: Space, cut: Pieces, now: int, ip: int, b: SeqNum)
    requires SpaceOk(sp) && sp.centre >= 0
    requires cut.first.0 <= cut.first.1 || Covers(Segs(sp, sp.centre), cut.first.0)
    requires cut.first.0 <= b <= cut.first.1 ==> QuadNumOf(b) - 1 == sp.centre
    requires cut.second.Some? ==>
               cut.second.value.0 <= cut.second.value.1
               && (cut.second.value.0 <= b <= cut.second.value.1 ==> QuadNumOf(b) - 1 == Next(sp.centre))
    ensures SpaceCovers(Record(sp, cut, now, ip).space, b) <==>
            || SpaceCovers(sp, b)
            || cut.first.0 <= b <= cut.first.1
            || (cut.second.Some? && cut.second.value.0 <= b <= cut.second.value.1)
            || Swallowed(sp, sp.centre, cut.first, now, ip, b)
            || (cut.second.Some? && Swallowed(sp, Next(sp.centre), cut.second.value, now, ip, b))
  {
    var r0 := Recorded(sp, 0, false);
    AddPieceCovers(r0, sp.centre, cut.first, now, ip, b);
    if cut.second.Some? {
      var r := AddPiece(r0, sp.centre, cut.first, now, ip);
      assert r.space.slots[Next(sp.centre)] == sp.slots[Next(sp.centre)];
      AddPieceCovers(r, Next(sp.centre), cut.second.value, now, ip, b);
    }
  }

  // ---- acked bytes ----

  /** ack_in neither records nor forgets a byte of the window; all recorded bytes before the ack are acked afterwards. */
  lemma AcknowledgeAcks(sp: Space, ack: SeqNum, dataLen: nat, now: int, b: SeqNum)
    requires SpaceOk(sp) && sp.centre == QuadNumOf(ack) - 1
    ensures var t := Acknowledge(sp, ack, dataLen, now);
            var i := QuadNumOf(b) - 1;
            && SpaceCovers(t, b) == SpaceCovers(sp, b)
            && (SpaceCovers(sp, b) && (i == Prev(sp.centre) || (i == sp.centre && b < ack)) ==> SpaceAcked(t, b))
            && (i == Next(sp.centre) ==> SpaceAcked(t, b) == SpaceAcked(sp, b))
  {
    if QuadNumOf(b) - 1 == Prev(sp.centre) {
      PreviousAcked(Segs(sp, Prev(sp.centre)), b);
    } else if QuadNumOf(b) - 1 == sp.centre {
      CurrentAcked(Segs(sp, sp.centre), ack, dataLen, now, FirstWalk(sp).lastXmit, b);
    }
  }

  lemma {:induction false} NoneUnacked(s: seq<Seg>)
    requires forall i | 0 <= i < |s| :: s[i].acked > 0
    ensures Unacked(s) == []
  {
    if s != [] { NoneUnacked(s[1..]); }
  }

  lemma {:induction false} AckAllOnlyCumulative(s: seq<Seg>, lastXmit: int)
    ensures var r := AckAll(s, lastXmit);
            r.nosample == 0 && r.ambig == 0 && r.dupack == 0 && r.triple == 0 && r.samples == [] && r.ret == Unset
    decreases |s|
  {
    if s != [] {
      AckAllOnlyCumulative(s[1..], if s[0].acked > 0 then lastXmit else Newest(s[0].time, lastXmit));
    }
  }

  lemma PreviousCountsOnce(s: seq<Seg>)
    requires Sorted(s)
    ensures AckAll(s, 0).cumack == |Unacked(s)| && Unacked(AckedPrevious(s)) == []
  {
    AckAllAcks(s, 0);
    NoneUnacked(AckAll(s, 0).list);
    ShapeDecides(s, AckAll(s, 0).list);
    CollapsePreserves(AckAll(s, 0).list);
  }

  lemma CurrentCountsOnce(s: seq<Seg>, ack: int, dataLen: nat, now: int, lastXmit: int)
    requires Sorted(s)
    ensures var r := AckUpTo(s, ack, dataLen, now, lastXmit);
            r.cumack + r.nosample + r.ambig + |r.samples|
            == |Unacked(s)| - |Unacked(AckedCurrent(s, ack, dataLen, now, lastXmit))|
  {
    var r := AckUpTo(s, ack, dataLen, now, lastXmit);
    AckUpToAcks(s, ack, dataLen, now, lastXmit);
    AckUpToCountsOnce(s, ack, dataLen, now, lastXmit);
    ShapeDecides(s, r.list);
    CollapsePreserves(r.list);
  }

  function UnackedAt(sp: Space, i: Index): nat
    requires |sp.slots| == 4
  {
    |Unacked(Segs(sp, i))|
  }

  /** Every segment acked for the first time is counted once: as cumulative, without sample, with a sample or as ambiguous. */
  lemma AcknowledgeCountsOnce(sp: Space, c: RttCounters, ack: SeqNum, dataLen: nat, now: int)
    requires SpaceOk(sp) && sp.centre == QuadNumOf(ack) - 1
    ensures var t := Acknowledge(sp, ack, dataLen, now);
            var after := Count(Count(c, FirstWalk(sp)), SecondWalk(sp, ack, dataLen, now));
            UnackedAt(sp, Prev(sp.centre)) + UnackedAt(sp, sp.centre)
            - UnackedAt(t, Prev(sp.centre)) - UnackedAt(t, sp.centre)
            == (after.cumack - c.cumack) + (after.nosample - c.nosample) + (after.count - c.count)
               + SecondWalk(sp, ack, dataLen, now).ambig
  {
    PreviousCountsOnce(Segs(sp, Prev(sp.centre)));
    AckAllOnlyCumulative(Segs(sp, Prev(sp.centre)), 0);
    CurrentCountsOnce(Segs(sp, sp.centre), ack, dataLen, now, FirstWalk(sp).lastXmit);
  }

  // ---- RTT counters ----

  lemma AckInCountsSamples(sp: Space, c: RttCounters, ack: SeqNum, dataLen: nat, now: int)
    requires Window(sp)
    ensures var r := AckIn(sp, c, ack, dataLen, now);
            && r.counters.count == c.count + |r.samples|
            && r.counters.sum == c.sum + Sum(r.samples)
            && r.counters.sum2 == c.sum2 + SumOfSquares(r.samples)
  {
    var sp1 := Recentre(sp, QuadNumOf(ack) - 1);
    AckAllOnlyCumulative(Segs(sp1, Prev(sp1.centre)), 0);
  }

  /** The counters are the count, the sum and the sum of squares of the samples taken. */
  predicate CountersOk(d: Direction) {
    && d.counters.count == |d.samples|
    && d.counters.sum == Sum(d.samples)
    && d.counters.sum2 == SumOfSquares(d.samples)
  }

  lemma StepCounters(d: Direction, e: Event)
    requires Window(d.space) && CountersOk(d)
    ensures CountersOk(Step(d, e))
  {
    if e.Ack? {
      AckInCountsSamples(d.space, d.counters, e.ack, e.dataLen, e.time);
      SumConcat(d.samples, AckIn(d.space, d.counters, e.ack, e.dataLen, e.time).samples);
    }
  }

  /** They are so after every run. */
  lemma {:induction false} RunCounters(events: seq<Event>)
    ensures CountersOk(Run(events))
    decreases |events|
  {
    if events != [] {
      RunCounters(events[..|events| - 1]);
      StepCounters(Run(events[..|events| - 1]), events[|events| - 1]);
    }
  }

  ghost predicate AfterSomeRun(d: Direction) {
    exists events: seq<Event> :: d == Run(events)
  }

  lemma AfterRunCounters(d: Direction)
    requires AfterSomeRun(d)
    ensures CountersOk(d)
  {
    var events: seq<Event> :| d == Run(events);
    RunCounters(events);
  }

  /** Whatever the two directions of a flow went through, the timeout estimate never takes the root of a negative number. */
  lemma TimeoutEstimateIsReal(a: Direction, b: Direction)
    requires AfterSomeRun(a) && AfterSomeRun(b) && a.counters.count + b.counters.count > 2
    ensures Radicand(a.counters.sum + b.counters.sum, a.counters.sum2 + b.counters.sum2,
                     a.counters.count + b.counters.count) >= 0.0
  {
    AfterRunCounters(a);
    AfterRunCounters(b);
    MergedRadicand(a, b);
  }

  lemma MergedRadicand(a: Direction, b: Direction)
    requires CountersOk(a) && CountersOk(b) && a.counters.count + b.counters.count > 2
    ensures Radicand(a.counters.sum + b.counters.sum, a.counters.sum2 + b.counters.sum2,
                     a.counters.count + b.counters.count) >= 0.0
  {
    UnionOfSamples(a.samples, b.samples, a.counters.sum + b.counters.sum, a.counters.sum2 + b.counters.sum2);
  }
}
