/** What holds after every run of rexmit and ack_in, and when rexmit records exactly the packet it is given. */
module SequenceSpaceRuns {
  import opened Common
  import opened SequenceNumbers
  import opened SegmentList
  import opened SegmentCoverage
  import opened SegmentAcks
  import opened SequenceSpace

  /** Packets are far shorter than a quadrant: rexmit relies on it when it looks at two quadrants at most. */
  const MAX_PACKET := QUADSIZE - 3

  // ---- cutting a packet at a quadrant boundary ----

  predicate Crosses(s: SeqNum, len: nat) {
    Boundary(s, LastByte(s, len))
  }

  /** The bytes handed to addseg. */
  function CutBytes(s: SeqNum, len: nat): set<int> {
    var cut := Cut(s, len);
    Range(cut.first.0, cut.first.1) + if cut.second.None? then {} else Range(cut.second.value.0, cut.second.value.1)
  }

  lemma LastByteIs(s: SeqNum, len: nat)
    requires 1 <= len <= MAX_PACKET
    ensures LastByte(s, len) == if s + len - 1 < SEQ_SPACE then s + len - 1 else s + len - 1 - SEQ_SPACE
  {
  }

  /** A packet crosses exactly when it reaches beyond its quadrant, and then it ends in the next one. */
  lemma CrossesInto(s: SeqNum, len: nat)
    requires 1 <= len <= MAX_PACKET
    ensures Crosses(s, len) <==> s + len - 1 > TrueLastSeq(QuadNumOf(s))
    ensures Crosses(s, len) ==> Next(QuadNumOf(s) - 1) == QuadNumOf(LastByte(s, len)) - 1
  {
    LastByteIs(s, len);
  }

  /** The pieces in closed form: in quadrant q the first ends q - 1 bytes early and the second q - 1 bytes late. */
  lemma CutForm(s: SeqNum, len: nat)
    requires 1 <= len <= MAX_PACKET
    ensures var q := QuadNumOf(s);
            if Crosses(s, len) then
              && Next(q - 1) == QuadNumOf(LastByte(s, len)) - 1
              && var start := FirstSeq(Next(q - 1) + 1);
                 Cut(s, len) == Pieces((s, LastSeq(q)), Some((start, start + s + len - TrueLastSeq(q) - 2 + (q - 1))))
            else Cut(s, len) == Pieces((s, s + len - 1), None) && s + len - 1 <= TrueLastSeq(q)
  {
    CrossesInto(s, len);
    if Crosses(s, len) {
      CutAcross(s, len);
    } else {
      LastByteIs(s, len);
    }
  }

  /** The first byte of the quadrant after quadrant c. */
  function StartAfter(c: Index): SeqNum {
    FirstSeq(Next(c) + 1)
  }

  /** The last byte, in the next quadrant, of a packet that crosses. */
  function LastAcross(s: SeqNum, len: nat): int {
    StartAfter(QuadNumOf(s) - 1) + s + len - TrueLastSeq(QuadNumOf(s)) - 2
  }

  /** The pieces of a packet that crosses. */
  lemma PiecesAcross(s: SeqNum, len: nat)
    requires 1 <= len <= MAX_PACKET && Crosses(s, len)
    ensures var q := QuadNumOf(s);
            && Cut(s, len).first == (s, LastSeq(q)) && Cut(s, len).second.Some?
            && Cut(s, len).second.value == (StartAfter(q - 1), LastAcross(s, len) + q - 1)
            && StartAfter(q - 1) <= LastAcross(s, len)
            && s <= TrueLastSeq(q) && LastSeq(q) <= TrueLastSeq(q)
  {
    CutForm(s, len);
    CrossesInto(s, len);
  }

  lemma CutAcross(s: SeqNum, len: nat)
    requires 1 <= len <= MAX_PACKET && Crosses(s, len)
    requires s + len - 1 > TrueLastSeq(QuadNumOf(s)) && Next(QuadNumOf(s) - 1) == QuadNumOf(LastByte(s, len)) - 1
    ensures var q := QuadNumOf(s);
            var start := FirstSeq(Next(q - 1) + 1);
            Cut(s, len) == Pieces((s, LastSeq(q)), Some((start, start + s + len - TrueLastSeq(q) - 2 + (q - 1))))
  {
    var q: QuadNum := QuadNumOf(s);
    var start: int := FirstSeq(QuadNumOf(LastByte(s, len)));
    var n: int := LastSeq(q) - s + 1;
    LastSeqShortfall(q);
    WrapOnce(s - 1, n);
    SecondPieceEnds(start + len - 1, n, start + len - 1 - n);
  }

  /** Wrapping a part of a sum first makes no difference. */
  lemma WrapOnce(a: int, b: int)
    ensures Wrap(a + Wrap(b)) == Wrap(a + b)
  {
  }

  /** The last byte of the second piece, whose length is computed from the wrapped length of the first. */
  lemma SecondPieceEnds(a: int, n: int, last: int)
    requires last == a - n && 0 <= last < SEQ_SPACE
    ensures Wrap(a - Wrap(n)) == last
  {
    WrapOnce(a - n, n - Wrap(n));
    assert (n - Wrap(n)) % SEQ_SPACE == 0;
  }

  /** The bytes of a packet, in closed form. */
  lemma PacketBytes(s: SeqNum, len: nat, b: int)
    requires 1 <= len <= MAX_PACKET
    ensures b in SegmentBytes(s, len) <==>
            0 <= b < SEQ_SPACE && (s <= b < s + len || s <= b + SEQ_SPACE < s + len)
  {
  }

  /** Byte by byte, the pieces and the packet agree, unless the packet crosses out of quadrant 2, 3 or 4. */
  lemma CutByte(s: SeqNum, len: nat, b: int)
    requires 1 <= len <= MAX_PACKET
    requires !Crosses(s, len) || QuadNumOf(s) == 1
    ensures b in CutBytes(s, len) <==> b in SegmentBytes(s, len)
  {
    CutForm(s, len);
    PacketBytes(s, len, b);
  }

  /** The last byte of quadrant 2, 3 or 4 is lost when a packet crosses it. */
  lemma CutLoses(s: SeqNum, len: nat)
    requires 1 <= len <= MAX_PACKET
    requires Crosses(s, len) && QuadNumOf(s) > 1
    ensures TrueLastSeq(QuadNumOf(s)) in SegmentBytes(s, len) && TrueLastSeq(QuadNumOf(s)) !in CutBytes(s, len)
  {
    CutForm(s, len);
    PacketBytes(s, len, TrueLastSeq(QuadNumOf(s)));
  }

  /** rexmit hands exactly the bytes of the packet to addseg, unless it crosses out of quadrant 2, 3 or 4. */
  lemma CutIsExact(s: SeqNum, len: nat)
    requires 1 <= len <= MAX_PACKET
    ensures CutBytes(s, len) == SegmentBytes(s, len) <==> !Crosses(s, len) || QuadNumOf(s) == 1
  {
    if Crosses(s, len) && QuadNumOf(s) > 1 {
      CutLoses(s, len);
    } else {
      forall b ensures b in CutBytes(s, len) <==> b in SegmentBytes(s, len) { CutByte(s, len, b); }
    }
  }

  /** Two bytes sent at the end of quadrant 2 are recorded as an empty piece followed by the two bytes after it. */
  lemma CutGoesWrong()
    ensures Cut(0x7fff_ffff, 2) == Pieces((0x7fff_ffff, 0x7fff_fffe), Some((0x8000_0000, 0x8000_0001)))
    ensures !Sorted(AddSeg([], 0x7fff_ffff, 0x7fff_fffe, 0, 0).list)
  {
    CutForm(0x7fff_ffff, 2);
  }

  /** No piece of the packet is empty. */
  predicate WellCut(s: SeqNum, len: nat) {
    Crosses(s, len) ==> s <= LastSeq(QuadNumOf(s))
  }

  // ---- the invariant of one list ----

  /** The segment lies in lo..hi, its 8-bit counter follows its history, and its clock was only touched by a resend or a merge. */
  predicate Honest(p: Seg, lo: int, hi: int) {
    && lo <= p.first && p.last <= hi
    && p.retrans == p.resent % RETRANS_WRAP
    && (p.acked == 0 && p.resent == 0 ==> p.time == p.created)
  }

  predicate AllHonest(s: seq<Seg>, lo: int, hi: int) {
    s != [] ==> Honest(s[0], lo, hi) && AllHonest(s[1..], lo, hi)
  }

  lemma {:induction false} HonestAt(s: seq<Seg>, lo: int, hi: int, i: nat)
    requires AllHonest(s, lo, hi) && i < |s|
    ensures Honest(s[i], lo, hi)
  {
    if i > 0 { HonestAt(s[1..], lo, hi, i - 1); }
  }

  lemma {:induction false} HonestFromAll(s: seq<Seg>, lo: int, hi: int)
    requires forall i | 0 <= i < |s| :: Honest(s[i], lo, hi)
    ensures AllHonest(s, lo, hi)
  {
    if s != [] { HonestFromAll(s[1..], lo, hi); }
  }

  lemma ConsHonest(p: Seg, t: seq<Seg>, lo: int, hi: int)
    requires Honest(p, lo, hi) && AllHonest(t, lo, hi)
    ensures AllHonest([p] + t, lo, hi)
  {
    assert ([p] + t)[1..] == t;
  }

  lemma ResendHonest(p: Seg, split: bool, now: int, lo: int, hi: int)
    requires Honest(p, lo, hi)
    ensures Honest(Resend(p, split, now), lo, hi)
  {
  }

  lemma HitHonest(p: Seg, f: int, l: int, split: bool, now: int, ip: int, rest: Added, lo: int, hi: int)
    requires Honest(p, lo, hi) && AllHonest(rest.list, lo, hi) && lo <= f && f <= hi && p.first <= p.last
    ensures AllHonest(Hit(p, f, l, split, now, ip, rest).list, lo, hi)
  {
    var tail := [Resend(p, split, now)] + rest.list;
    ResendHonest(p, split, now, lo, hi);
    ConsHonest(Resend(p, split, now), rest.list, lo, hi);
    assert Hit(p, f, l, split, now, ip, rest).list == Before(p, f, now, ip) + tail;
    if f < p.first {
      ConsHonest(NewSeg(f, p.first - 1, now, ip), tail, lo, hi);
    } else {
      assert Before(p, f, now, ip) + tail == tail;
    }
  }

  lemma {:induction false} WalkHonest(s: seq<Seg>, f: int, l: int, split: bool, now: int, ip: int, lo: int, hi: int)
    requires Sorted(s) && AllHonest(s, lo, hi) && lo <= f <= l <= hi
    ensures AllHonest(Walk(s, f, l, split, now, ip).list, lo, hi)
    decreases |s|
  {
    if s == [] {
    } else if f > s[0].last {
      WalkHonest(s[1..], f, l, split, now, ip, lo, hi);
      ConsHonest(s[0], Walk(s[1..], f, l, split, now, ip).list, lo, hi);
    } else if f < s[0].first && l <= s[0].first {
      ConsHonest(NewSeg(f, l, now, ip), s, lo, hi);
    } else if l <= s[0].last {
      HitHonest(s[0], f, l, split, now, ip, Added(s[1..], 0, false, false), lo, hi);
    } else {
      WalkHonest(s[1..], s[0].last + 1, l, true, now, ip, lo, hi);
      HitHonest(s[0], f, l, split, now, ip, Walk(s[1..], s[0].last + 1, l, true, now, ip), lo, hi);
    }
  }

  lemma EvictHonest(s: seq<Seg>, lo: int, hi: int)
    requires |s| >= 2 && AllHonest(s, lo, hi)
    ensures AllHonest(Evict(s), lo, hi)
  {
    assert s[1..][1..] == s[2..];
    ConsHonest(s[1].(first := s[0].first), s[2..], lo, hi);
  }

  lemma AddSegHonest(s: seq<Seg>, f: int, l: int, now: int, ip: int, lo: int, hi: int)
    requires Sorted(s) && AllHonest(s, lo, hi) && lo <= f <= l <= hi
    ensures AllHonest(AddSeg(s, f, l, now, ip).list, lo, hi)
  {
    InsertIsWalk(s, f, l, now, ip);
    WalkHonest(s, f, l, false, now, ip, lo, hi);
    var r := Insert(s, f, l, now, ip);
    if MustEvict(r) { EvictHonest(r.list, lo, hi); }
  }

  lemma {:induction false} CollapseHonest(s: seq<Seg>, lo: int, hi: int)
    requires AllHonest(s, lo, hi)
    ensures AllHonest(Collapse(s), lo, hi)
    decreases |s|
  {
    if |s| <= 1 || s[0].acked == 0 {
    } else if Mergeable(s[0], s[1]) {
      assert s[1..][1..] == s[2..];
      ConsHonest(Merge(s[0], s[1]), s[2..], lo, hi);
      CollapseHonest([Merge(s[0], s[1])] + s[2..], lo, hi);
    } else {
      CollapseHonest(s[1..], lo, hi);
      ConsHonest(s[0], Collapse(s[1..]), lo, hi);
    }
  }

  // ---- a piece that ends before it starts ----

  /** A segment that ends before it starts. */
  ghost predicate HasBackward(s: seq<Seg>) {
    exists i :: 0 <= i < |s| && s[i].first > s[i].last
  }

  lemma {:induction false} BackwardIsUnsorted(s: seq<Seg>)
    requires HasBackward(s)
    ensures !Sorted(s)
  {
    var i :| 0 <= i < |s| && s[i].first > s[i].last;
    if i > 0 {
      assert s[1..][i - 1] == s[i];
      BackwardIsUnsorted(s[1..]);
    }
  }

  lemma ConsBackward(p: Seg, t: seq<Seg>)
    requires HasBackward(t)
    ensures HasBackward([p] + t)
  {
    var i :| 0 <= i < |t| && t[i].first > t[i].last;
    assert ([p] + t)[i + 1] == t[i];
  }

  lemma NewBackward(s: seq<Seg>, f: int, l: int, now: int, ip: int)
    requires l < f
    ensures HasBackward([NewSeg(f, l, now, ip)] + s)
  {
    assert ([NewSeg(f, l, now, ip)] + s)[0] == NewSeg(f, l, now, ip);
  }

  /** Without a recorded byte at f, the backward piece f..l becomes a segment. */
  lemma {:induction false} BackwardStays(s: seq<Seg>, f: int, l: int, now: int, ip: int)
    requires Sorted(s) && l < f && !Covers(s, f)
    ensures var r := Walk(s, f, l, false, now, ip);
            HasBackward(r.list) && (r.appended ==> r.list == s + [NewSeg(f, l, now, ip)])
    decreases |s|
  {
    if s == [] {
      NewBackward([], f, l, now, ip);
    } else if f > s[0].last {
      var rest := Walk(s[1..], f, l, false, now, ip);
      BackwardStays(s[1..], f, l, now, ip);
      ConsBackward(s[0], rest.list);
      assert rest.appended ==> [s[0]] + (s[1..] + [NewSeg(f, l, now, ip)]) == s + [NewSeg(f, l, now, ip)];
    } else {
      assert f < s[0].first;
      NewBackward(s, f, l, now, ip);
    }
  }

  /** A recorded byte at f takes the backward piece for a hit: no segment is added, and the count it returns is not positive. */
  lemma {:induction false} BackwardIsHit(s: seq<Seg>, f: int, l: int, now: int, ip: int)
    requires Sorted(s) && l < f && Covers(s, f)
    ensures var r := Walk(s, f, l, false, now, ip);
            SameShape(s, r.list) && !r.appended && r.bytes == l - f + 1
    decreases |s|
  {
    CoversWithin(s, f);
    if f > s[0].last {
      BackwardIsHit(s[1..], f, l, now, ip);
    }
  }

  lemma {:induction false} BackwardHonest(s: seq<Seg>, f: int, l: int, now: int, ip: int, lo: int, hi: int)
    requires Sorted(s) && l < f && Covers(s, f) && AllHonest(s, lo, hi)
    ensures AllHonest(Walk(s, f, l, false, now, ip).list, lo, hi)
    decreases |s|
  {
    CoversWithin(s, f);
    if f > s[0].last {
      BackwardHonest(s[1..], f, l, now, ip, lo, hi);
      ConsHonest(s[0], Walk(s[1..], f, l, false, now, ip).list, lo, hi);
    } else {
      HonestAt(s, lo, hi, 0);
      HitHonest(s[0], f, l, false, now, ip, Added(s[1..], 0, false, false), lo, hi);
    }
  }

  /** addseg keeps the order of the list for a backward piece exactly when its first byte is recorded. */
  lemma BackwardPiece(s: seq<Seg>, f: int, l: int, now: int, ip: int)
    requires Sorted(s) && l < f
    ensures Sorted(AddSeg(s, f, l, now, ip).list) <==> Covers(s, f)
    ensures Covers(s, f) ==> SameShape(s, AddSeg(s, f, l, now, ip).list) && AddSeg(s, f, l, now, ip).bytes == l - f + 1
  {
    InsertIsWalk(s, f, l, now, ip);
    if Covers(s, f) {
      BackwardIsHit(s, f, l, now, ip);
      ShapeDecides(s, AddSeg(s, f, l, now, ip).list);
    } else {
      BackwardStays(s, f, l, now, ip);
      var r := Insert(s, f, l, now, ip);
      if MustEvict(r) {
        var t := Evict(r.list);
        assert r.list[|s|] == NewSeg(f, l, now, ip) && t[|s| - 1] == r.list[|s|];
        BackwardIsUnsorted(t);
      } else {
        BackwardIsUnsorted(r.list);
      }
    }
  }

  // ---- the invariant of a quadrant and of the whole space ----

  /** What every run keeps of a quadrant that covers the bytes lo..hi. */
  ghost predicate QuadOk(q: Quad, lo: int, hi: int) {
    && Sorted(q.segs)
    && AllHonest(q.segs, lo, hi)
    && (q.full ==> forall b | lo <= b <= hi :: Covers(q.segs, b))
  }

  ghost predicate SpaceOk(sp: Space) {
    && Window(sp)
    && forall i: Index :: sp.slots[i].Some? ==> QuadOk(sp.slots[i].value, FirstSeq(i + 1), TrueLastSeq(i + 1))
  }

  lemma AddSegKeepsQuad(q: Quad, lo: int, hi: int, f: int, l: int, now: int, ip: int)
    requires QuadOk(q, lo, hi) && lo <= f <= l <= hi
    ensures QuadOk(q.(segs := AddSeg(q.segs, f, l, now, ip).list), lo, hi)
  {
    AddSegKeepsOrder(q.segs, f, l, now, ip);
    AddSegHonest(q.segs, f, l, now, ip, lo, hi);
    forall b | q.full && lo <= b <= hi ensures Covers(AddSeg(q.segs, f, l, now, ip).list, b) {
      AddSegCovers(q.segs, f, l, now, ip, b);
    }
  }

  /** A backward piece on a recorded byte changes no byte of the quadrant. */
  lemma BackwardKeepsQuad(q: Quad, lo: int, hi: int, f: int, l: int, now: int, ip: int)
    requires QuadOk(q, lo, hi) && l < f && Covers(q.segs, f)
    ensures QuadOk(q.(segs := AddSeg(q.segs, f, l, now, ip).list), lo, hi)
  {
    InsertIsWalk(q.segs, f, l, now, ip);
    BackwardPiece(q.segs, f, l, now, ip);
    BackwardIsHit(q.segs, f, l, now, ip);
    BackwardHonest(q.segs, f, l, now, ip, lo, hi);
    ShapeDecides(q.segs, AddSeg(q.segs, f, l, now, ip).list);
  }

  lemma CollapseKeepsQuad(q: Quad, lo: int, hi: int)
    requires QuadOk(q, lo, hi) && hi - lo + 1 == QUADSIZE
    ensures QuadOk(CollapseQuad(q), lo, hi)
  {
    CollapsePreserves(q.segs);
    CollapseHonest(q.segs, lo, hi);
    var c := Collapse(q.segs);
    if SpansQuadrant(c) {
      HonestAt(c, lo, hi, 0);
      forall b | lo <= b <= hi ensures Covers(c, b) { CoversIndex(c, 0, b); }
    }
  }

  /** collapse_quad reports a quadrant full only when all its bytes are recorded. */
  lemma FullMeansAllBytes(q: Quad, lo: int, hi: int)
    requires QuadOk(q, lo, hi) && hi - lo + 1 == QUADSIZE && CollapseQuad(q).full
    ensures Known(q.segs, lo, hi) == QUADSIZE
  {
    CollapseKeepsQuad(q, lo, hi);
    CollapsePreserves(q.segs);
    KnownAll(q.segs, lo, hi);
  }

  lemma AfterWalkKeepsQuad(q: Quad, a: Acked, lo: int, hi: int)
    requires QuadOk(q, lo, hi) && hi - lo + 1 == QUADSIZE
    requires Raised(q.segs, a.list)
    ensures QuadOk(AfterWalk(q, a), lo, hi)
  {
    ShapeDecides(q.segs, a.list);
    forall i | 0 <= i < |a.list| ensures Honest(a.list[i], lo, hi) { HonestAt(q.segs, lo, hi, i); }
    HonestFromAll(a.list, lo, hi);
    if a.changed { CollapseKeepsQuad(q.(segs := a.list), lo, hi); }
  }

  /** The first walk of ack_in and its collapse keep the previous quadrant in order. */
  lemma PreviousKeepsQuad(q: Quad, lo: int, hi: int)
    requires QuadOk(q, lo, hi) && hi - lo + 1 == QUADSIZE
    ensures QuadOk(AfterWalk(q, AckAll(q.segs, 0)), lo, hi)
  {
    AckAllAcks(q.segs, 0);
    AfterWalkKeepsQuad(q, AckAll(q.segs, 0), lo, hi);
  }

  /** So do its second walk and collapse for the current quadrant. */
  lemma CurrentKeepsQuad(q: Quad, lo: int, hi: int, ack: int, dataLen: nat, now: int, lastXmit: int)
    requires QuadOk(q, lo, hi) && hi - lo + 1 == QUADSIZE
    ensures QuadOk(AfterWalk(q, AckUpTo(q.segs, ack, dataLen, now, lastXmit)), lo, hi)
  {
    AckUpToAcks(q.segs, ack, dataLen, now, lastXmit);
    AfterWalkKeepsQuad(q, AckUpTo(q.segs, ack, dataLen, now, lastXmit), lo, hi);
  }

  lemma RecentreOk(sp: Space, q: Index)
    requires SpaceOk(sp)
    ensures SpaceOk(Recentre(sp, q))
  {
  }

  lemma AddPieceOk(r: Recorded, i: Index, piece: (SeqNum, SeqNum), now: int, ip: int)
    requires SpaceOk(r.space) && r.space.slots[i].Some?
    requires FirstSeq(i + 1) <= piece.0 <= piece.1 <= TrueLastSeq(i + 1)
    ensures SpaceOk(AddPiece(r, i, piece, now, ip).space)
  {
    AddSegKeepsQuad(r.space.slots[i].value, FirstSeq(i + 1), TrueLastSeq(i + 1), piece.0, piece.1, now, ip);
  }

  /** What rexmit needs of a packet: no piece of it is backward, or the packet starts on a recorded byte. */
  predicate Recordable(sp: Space, s: SeqNum, len: nat)
    requires |sp.slots| == 4
  {
    WellCut(s, len) || Covers(Segs(sp, QuadNumOf(s) - 1), s)
  }

  lemma FirstPieceOk(sp: Space, s: SeqNum, len: nat, now: int, ip: int)
    requires SpaceOk(sp) && sp.centre == QuadNumOf(s) - 1 && 1 <= len <= MAX_PACKET
    ensures SpaceOk(AddPiece(Recorded(sp, 0, false), sp.centre, Cut(s, len).first, now, ip).space) <==> Recordable(sp, s, len)
  {
    var piece := Cut(s, len).first;
    CutForm(s, len);
    var q := sp.slots[sp.centre].value;
    if WellCut(s, len) {
      AddPieceOk(Recorded(sp, 0, false), sp.centre, piece, now, ip);
    } else {
      BackwardPiece(q.segs, s, piece.1, now, ip);
      if Covers(q.segs, s) {
        BackwardKeepsQuad(q, FirstSeq(sp.centre + 1), TrueLastSeq(sp.centre + 1), s, piece.1, now, ip);
      }
    }
  }

  /** Nothing that rexmit does afterwards repairs the order of the first quadrant. */
  lemma SecondPieceOk(r: Recorded, i: Index, j: Index, piece: (SeqNum, SeqNum), now: int, ip: int)
    requires Window(r.space) && r.space.slots[i].Some? && i != j
    requires FirstSeq(i + 1) <= piece.0 <= piece.1 <= TrueLastSeq(i + 1)
    requires forall k: Index :: k != j && r.space.slots[k].Some? ==> QuadOk(r.space.slots[k].value, FirstSeq(k + 1), TrueLastSeq(k + 1))
    ensures SpaceOk(AddPiece(r, i, piece, now, ip).space) <==> SpaceOk(r.space)
  {
    AddSegKeepsQuad(r.space.slots[i].value, FirstSeq(i + 1), TrueLastSeq(i + 1), piece.0, piece.1, now, ip);
    var t := AddPiece(r, i, piece, now, ip).space;
    assert t.slots[j] == r.space.slots[j];
  }

  /** rexmit keeps all lists in order exactly for the recordable packets. */
  lemma RecordOk(sp: Space, s: SeqNum, len: nat, now: int, ip: int)
    requires SpaceOk(sp) && sp.centre == QuadNumOf(s) - 1 && 1 <= len <= MAX_PACKET
    ensures SpaceOk(Record(sp, Cut(s, len), now, ip).space) <==> Recordable(sp, s, len)
  {
    var cut := Cut(s, len);
    CutForm(s, len);
    FirstPieceOk(sp, s, len, now, ip);
    if cut.second.Some? {
      var r := AddPiece(Recorded(sp, 0, false), sp.centre, cut.first, now, ip);
      SecondPieceOk(r, Next(sp.centre), sp.centre, cut.second.value, now, ip);
    }
  }

  lemma AcknowledgeOk(sp: Space, ack: SeqNum, dataLen: nat, now: int)
    requires SpaceOk(sp) && sp.centre == QuadNumOf(ack) - 1
    ensures SpaceOk(Acknowledge(sp, ack, dataLen, now))
  {
    var q: Index := sp.centre;
    PreviousKeepsQuad(sp.slots[Prev(q)].value, FirstSeq(Prev(q) + 1), TrueLastSeq(Prev(q) + 1));
    CurrentKeepsQuad(sp.slots[q].value, FirstSeq(q + 1), TrueLastSeq(q + 1), ack, dataLen, now, FirstWalk(sp).lastXmit);
  }

  // ---- runs ----

  /** What the callers of rexmit and the cutting of packets leave: every packet can be recorded when it comes. */
  predicate Usable(d: Direction, e: Event)
    requires Window(d.space)
  {
    e.Data? ==> 1 <= e.len <= MAX_PACKET && Recordable(Recentre(d.space, QuadNumOf(e.s) - 1), e.s, e.len)
  }

  predicate AllUsable(events: seq<Event>) {
    events != [] ==> AllUsable(events[..|events| - 1]) && Usable(Run(events[..|events| - 1]), events[|events| - 1])
  }

  lemma StepOk(d: Direction, e: Event)
    requires SpaceOk(d.space) && (e.Data? ==> 1 <= e.len <= MAX_PACKET)
    ensures SpaceOk(Step(d, e).space) <==> Usable(d, e)
  {
    match e {
      case Data(s, len, ip, now) =>
        RecentreOk(d.space, QuadNumOf(s) - 1);
        RecordOk(Recentre(d.space, QuadNumOf(s) - 1), s, len, now, ip);
      case Ack(ack, dataLen, now) =>
        RecentreOk(d.space, QuadNumOf(ack) - 1);
        AcknowledgeOk(Recentre(d.space, QuadNumOf(ack) - 1), ack, dataLen, now);
    }
  }

  /** Every run of rexmit and ack_in keeps every list in order, in its quadrant and honest about its history. */
  lemma {:induction false} RunOk(events: seq<Event>)
    requires AllUsable(events)
    ensures SpaceOk(Run(events).space)
    decreases |events|
  {
    if events != [] {
      RunOk(events[..|events| - 1]);
      StepOk(Run(events[..|events| - 1]), events[|events| - 1]);
    }
  }

  /** Packets none of whose pieces is backward can always be recorded. */
  lemma {:induction false} WellCutIsUsable(events: seq<Event>)
    requires forall i | 0 <= i < |events| && events[i].Data? :: 1 <= events[i].len <= MAX_PACKET && WellCut(events[i].s, events[i].len)
    ensures AllUsable(events)
    decreases |events|
  {
    if events != [] {
      WellCutIsUsable(events[..|events| - 1]);
    }
  }
}
