/**
 What the segments of a run, and the RTT samples taken from them, have to do with the packets of the whole run: not with the
 pieces that rexmit cuts them into, and not only with those since a quadrant entered the window.
 */
module PacketRuns {
  import opened SequenceNumbers
  import opened SegmentList
  import opened SegmentCoverage
  import opened SegmentAcks
  import opened SegmentHistory
  import opened SequenceSpace
  import opened SequenceSpaceRuns
  import opened SampleRuns

  // ---- packets, byte by byte ----

  /** The packet carries byte b. */
  predicate CarriesByte(e: Event, b: int) {
    e.Data? && b in SegmentBytes(e.s, e.len)
  }

  /** The packet carries byte b, but rexmit hands it to no quadrant: one of the last q - 1 of quadrant q when it crosses out. */
  predicate Loses(e: Event, b: int) {
    e.Data? && Crosses(e.s, e.len) && e.s < b && LastSeq(QuadNumOf(e.s)) < b <= TrueLastSeq(QuadNumOf(e.s))
  }

  /** rexmit hands byte b to a quadrant for the packet, which does not carry it: one of the q - 1 that follow it. */
  predicate Adds(e: Event, b: int) {
    e.Data? && Crosses(e.s, e.len) && LastAcross(e.s, e.len) < b < LastAcross(e.s, e.len) + QuadNumOf(e.s)
  }

  /** The piece of the packet that quadrant i is handed carries byte b. */
  predicate Hands(e: Event, i: Index, b: int) {
    PiecesFor(e, i) != [] && Carries(PiecesFor(e, i)[0], b)
  }

  /** The packet is one that the callers of rexmit pass. */
  predicate Proper(e: Event) {
    e.Data? ==> 1 <= e.len <= MAX_PACKET
  }

  lemma AtMostOnePiece(e: Event, i: Index)
    ensures |PiecesFor(e, i)| <= 1 && (PiecesFor(e, i) != [] ==> e.Data? && PiecesFor(e, i)[0].time == e.time)
  {
  }

  /** What a quadrant is handed of a packet are the bytes that the packet carries, but for those it loses and adds. */
  lemma HandsByte(e: Event, b: SeqNum)
    requires Proper(e)
    ensures Hands(e, QuadNumOf(b) - 1, b) <==> (CarriesByte(e, b) && !Loses(e, b)) || Adds(e, b)
    ensures (Loses(e, b) ==> CarriesByte(e, b)) && (Adds(e, b) ==> !CarriesByte(e, b))
  {
    if e.Data? {
      PacketBytes(e.s, e.len, b);
      if Crosses(e.s, e.len) {
        HandsAcross(e, b);
      } else {
        CutForm(e.s, e.len);
      }
    }
  }

  /** Where the two pieces of a packet that crosses lie. */
  lemma HandsAcross(e: Event, b: SeqNum)
    requires e.Data? && 1 <= e.len <= MAX_PACKET && Crosses(e.s, e.len)
    requires CarriesByte(e, b) <==> (e.s <= b < e.s + e.len || e.s <= b + SEQ_SPACE < e.s + e.len)
    ensures Hands(e, QuadNumOf(b) - 1, b) <==> (CarriesByte(e, b) && !Loses(e, b)) || Adds(e, b)
    ensures (Loses(e, b) ==> CarriesByte(e, b)) && (Adds(e, b) ==> !CarriesByte(e, b))
  {
    PiecesAcross(e.s, e.len);
    CrossesInto(e.s, e.len);
    BoundaryAt(QuadNumOf(e.s));
    if QuadNumOf(b) == QuadNumOf(e.s) {
      assert !(e.s <= b + SEQ_SPACE < e.s + e.len);
    }
  }

  /** The next quadrant starts after the last byte of this one, or at 0. */
  lemma BoundaryAt(q: QuadNum)
    ensures StartAfter(q - 1) == if q == 4 then 0 else TrueLastSeq(q) + 1
    ensures TrueLastSeq(4) + 1 == SEQ_SPACE
  {
  }

  // ---- counting events ----

  /** How many of the events satisfy f. */
  function Tally(events: seq<Event>, f: Event -> bool): nat {
    if events == [] then 0 else Tally(events[..|events| - 1], f) + if f(events[|events| - 1]) then 1 else 0
  }

  /** Events that satisfy f and not g. */
  function Only(f: Event -> bool, g: Event -> bool): Event -> bool {
    e => f(e) && !g(e)
  }

  lemma TallyAppend(events: seq<Event>, e: Event, f: Event -> bool)
    ensures Tally(events + [e], f) == Tally(events, f) + if f(e) then 1 else 0
  {
    assert (events + [e])[..|events|] == events;
  }

  lemma {:induction false} TallyConcat(left: seq<Event>, right: seq<Event>, f: Event -> bool)
    ensures Tally(left + right, f) == Tally(left, f) + Tally(right, f)
  {
    if right == [] {
      assert left + right == left;
    } else {
      var n := |right| - 1;
      TallyConcat(left, right[..n], f);
      assert left + right == (left + right[..n]) + [right[n]];
      TallyAppend(left + right[..n], right[n], f);
    }
  }

  lemma TallySplit(events: seq<Event>, n: nat, f: Event -> bool)
    requires n <= |events|
    ensures Tally(events, f) == Tally(events[..n], f) + Tally(events[n..], f)
  {
    assert events[..n] + events[n..] == events;
    TallyConcat(events[..n], events[n..], f);
  }

  /** Two ways of counting differ by what only one of them counts. */
  lemma {:induction false} TallyDiffers(events: seq<Event>, f: Event -> bool, g: Event -> bool)
    ensures Tally(events, f) + Tally(events, Only(g, f)) == Tally(events, g) + Tally(events, Only(f, g))
  {
    if events != [] {
      TallyDiffers(events[..|events| - 1], f, g);
    }
  }

  lemma {:induction false} TallyNone(events: seq<Event>, f: Event -> bool)
    ensures Tally(events, f) == 0 <==> forall k :: 0 <= k < |events| ==> !f(events[k])
  {
    if events != [] {
      var n := |events| - 1;
      TallyNone(events[..n], f);
      assert forall k :: 0 <= k < n ==> events[..n][k] == events[k];
    }
  }

  /** One event that counts leaves one fewer to the others. */
  lemma {:induction false} TallyOne(events: seq<Event>, f: Event -> bool, k: nat)
    requires k < |events| && f(events[k])
    ensures Tally(events, f) == 1 <==> forall j :: 0 <= j < |events| && j != k ==> !f(events[j])
    ensures Tally(events, f) >= 1
  {
    var n := |events| - 1;
    assert forall j :: 0 <= j < n ==> events[..n][j] == events[j];
    if k == n {
      TallyNone(events[..n], f);
    } else {
      TallyOne(events[..n], f, k);
    }
  }

  // ---- the packets since a quadrant entered the window ----

  /** How many events there are up to the last one that pushed quadrant i out of the window. */
  function Since(events: seq<Event>, i: Index): (n: nat)
    ensures n <= |events|
  {
    if events == [] then 0
    else if i == Opposite(CentreOf(events[|events| - 1])) then |events|
    else Since(events[..|events| - 1], i)
  }

  /** The events after that. */
  function Recent(events: seq<Event>, i: Index): seq<Event> {
    events[Since(events, i)..]
  }

  lemma RecentStep(events: seq<Event>, i: Index)
    requires events != []
    ensures var n, e := |events| - 1, events[|events| - 1];
            Recent(events, i) == if i == Opposite(CentreOf(e)) then [] else Recent(events[..n], i) + [e]
  {
    var n := |events| - 1;
    if i != Opposite(CentreOf(events[n])) {
      var k := Since(events[..n], i);
      assert events[k..] == events[..n][k..] + [events[n]];
    }
  }

  lemma RecentAt(events: seq<Event>, i: Index, k: nat)
    requires Since(events, i) <= k < |events|
    ensures k - Since(events, i) < |Recent(events, i)| && Recent(events, i)[k - Since(events, i)] == events[k]
  {
  }

  /** Quadrant i is handed some of the bytes lo..hi for the packet. */
  predicate HandsSome(e: Event, i: Index, lo: int, hi: int) {
    PiecesFor(e, i) != [] && Overlaps(PiecesFor(e, i)[0], lo, hi)
  }

  function Handing(i: Index, lo: int, hi: int): Event -> bool {
    e => HandsSome(e, i, lo, hi)
  }

  lemma HandsSomeByte(e: Event, i: Index, lo: int, hi: int) returns (b: int)
    requires HandsSome(e, i, lo, hi) && lo <= hi
    ensures lo <= b <= hi && Hands(e, i, b)
  {
    var x := PiecesFor(e, i)[0];
    b := if x.first < lo then lo else x.first;
  }

  lemma HitsPiece(h: seq<Sending>, e: Event, i: Index, lo: int, hi: int)
    ensures Hits(h + PiecesFor(e, i), lo, hi) == Hits(h, lo, hi) + if HandsSome(e, i, lo, hi) then 1 else 0
  {
    AtMostOnePiece(e, i);
    if PiecesFor(e, i) == [] {
      assert h + PiecesFor(e, i) == h;
    } else {
      HitsAppend(h, PiecesFor(e, i)[0], lo, hi);
      assert PiecesFor(e, i) == [PiecesFor(e, i)[0]];
    }
  }

  lemma {:induction false} HitsAreHandings(events: seq<Event>, i: Index, lo: int, hi: int)
    ensures Hits(Sendings(events, i), lo, hi) == Tally(Recent(events, i), Handing(i, lo, hi))
  {
    if events != [] {
      var rest, e := events[..|events| - 1], events[|events| - 1];
      RecentStep(events, i);
      if i != Opposite(CentreOf(e)) {
        HitsAreHandings(rest, i, lo, hi);
        HitsPiece(Sendings(rest, i), e, i, lo, hi);
        TallyAppend(Recent(rest, i), e, Handing(i, lo, hi));
      }
    }
  }

  /** The event that a piece is from. */
  lemma {:induction false} EventOf(events: seq<Event>, i: Index, n: nat) returns (k: nat)
    requires n < |Sendings(events, i)|
    ensures Since(events, i) <= k < |events| && PiecesFor(events[k], i) == [Sendings(events, i)[n]]
    decreases |events|
  {
    var rest, e := events[..|events| - 1], events[|events| - 1];
    AtMostOnePiece(e, i);
    if n < |Sendings(rest, i)| {
      k := EventOf(rest, i, n);
    } else {
      k := |events| - 1;
    }
  }

  /** The piece of an event since the quadrant entered the window. */
  lemma {:induction false} PieceOf(events: seq<Event>, i: Index, k: nat) returns (n: nat)
    requires Since(events, i) <= k < |events| && PiecesFor(events[k], i) != []
    ensures n < |Sendings(events, i)| && Sendings(events, i)[n] == PiecesFor(events[k], i)[0]
    decreases |events|
  {
    var rest, e := events[..|events| - 1], events[|events| - 1];
    if k == |events| - 1 {
      n := |Sendings(rest, i)|;
    } else {
      n := PieceOf(rest, i, k);
    }
  }

  /** The packet carries some of the bytes lo..hi. */
  predicate CarriesSome(e: Event, lo: int, hi: int) {
    exists b :: lo <= b <= hi && CarriesByte(e, b)
  }

  function Carrying(lo: int, hi: int): Event -> bool {
    e => CarriesSome(e, lo, hi)
  }

  /** How many packets of the whole run carry some of the bytes. */
  function Carriers(events: seq<Event>, lo: int, hi: int): nat {
    Tally(events, Carrying(lo, hi))
  }

  /** Those that quadrant i does not know of: sent before it last entered the window, or with all these bytes lost. */
  function Unseen(events: seq<Event>, i: Index, lo: int, hi: int): nat {
    Tally(events[..Since(events, i)], Carrying(lo, hi)) + Tally(Recent(events, i), Only(Carrying(lo, hi), Handing(i, lo, hi)))
  }

  /** Packets that carry none of the bytes, and for which the quadrant is handed some. */
  function Phantoms(events: seq<Event>, i: Index, lo: int, hi: int): nat {
    Tally(Recent(events, i), Only(Handing(i, lo, hi), Carrying(lo, hi)))
  }

  /** The pieces that a quadrant knows of are the packets of the run, but for the unseen ones and the phantoms. */
  lemma HitsAccount(events: seq<Event>, i: Index, lo: int, hi: int)
    ensures Hits(Sendings(events, i), lo, hi) + Unseen(events, i, lo, hi) == Carriers(events, lo, hi) + Phantoms(events, i, lo, hi)
  {
    HitsAreHandings(events, i, lo, hi);
    TallySplit(events, Since(events, i), Carrying(lo, hi));
    TallyDiffers(Recent(events, i), Handing(i, lo, hi), Carrying(lo, hi));
  }

  // ---- the guard ----

  /** No packet before quadrant i last entered the window carries a byte of the segment. */
  predicate NeverDropped(events: seq<Event>, i: Index, p: Seg) {
    forall k, b :: 0 <= k < Since(events, i) && p.first <= b <= p.last ==> !CarriesByte(events[k], b)
  }

  /** No packet since then loses a byte of it. */
  predicate NoneLost(events: seq<Event>, i: Index, p: Seg) {
    forall k, b :: Since(events, i) <= k < |events| && p.first <= b <= p.last ==> !Loses(events[k], b)
  }

  /** To no packet since then a byte of it was added. */
  predicate NoneAdded(events: seq<Event>, i: Index, p: Seg) {
    forall k, b :: Since(events, i) <= k < |events| && p.first <= b <= p.last ==> !Adds(events[k], b)
  }

  /** What quadrant i was handed of the segment is all that the packets of the run carry of it, and no more. */
  predicate Undistorted(events: seq<Event>, i: Index, p: Seg) {
    NeverDropped(events, i, p) && NoneLost(events, i, p) && NoneAdded(events, i, p)
  }

  predicate AllProper(events: seq<Event>) {
    forall k :: 0 <= k < |events| ==> Proper(events[k])
  }

  lemma LastIsProper(d: Direction, e: Event)
    requires Window(d.space) && Usable(d, e)
    ensures Proper(e)
  {
  }

  lemma {:induction false} UsableIsProper(events: seq<Event>)
    requires AllUsable(events)
    ensures AllProper(events)
  {
    if events != [] {
      var n := |events| - 1;
      UsableIsProper(events[..n]);
      LastIsProper(Run(events[..n]), events[n]);
      AppendProper(events);
    }
  }

  lemma AppendProper(events: seq<Event>)
    requires events != [] && AllProper(events[..|events| - 1]) && Proper(events[|events| - 1])
    ensures AllProper(events)
  {
    assert forall k :: 0 <= k < |events| - 1 ==> events[..|events| - 1][k] == events[k];
  }

  predicate Within(p: Seg, i: Index) {
    FirstSeq(i + 1) <= p.first <= p.last <= TrueLastSeq(i + 1)
  }

  lemma HandsWithin(e: Event, i: Index, p: Seg, b: int)
    requires Proper(e) && Within(p, i) && p.first <= b <= p.last
    ensures Hands(e, i, b) <==> (CarriesByte(e, b) && !Loses(e, b)) || Adds(e, b)
    ensures (Loses(e, b) ==> CarriesByte(e, b)) && (Adds(e, b) ==> !CarriesByte(e, b))
  {
    assert QuadNumOf(b) - 1 == i;
    HandsByte(e, b);
  }

  /** The packet loses no byte of the segment. */
  predicate LosesNone(e: Event, p: Seg) {
    forall b :: p.first <= b <= p.last ==> !Loses(e, b)
  }

  predicate AddsNone(e: Event, p: Seg) {
    forall b :: p.first <= b <= p.last ==> !Adds(e, b)
  }

  predicate CarriesNone(e: Event, p: Seg) {
    forall b :: p.first <= b <= p.last ==> !CarriesByte(e, b)
  }

  lemma CarriedIsHanded(e: Event, i: Index, p: Seg)
    requires Proper(e) && Within(p, i) && LosesNone(e, p) && CarriesSome(e, p.first, p.last)
    ensures HandsSome(e, i, p.first, p.last)
  {
    var b :| p.first <= b <= p.last && CarriesByte(e, b);
    HandsWithin(e, i, p, b);
  }

  lemma HandedIsCarried(e: Event, i: Index, p: Seg)
    requires Proper(e) && Within(p, i) && AddsNone(e, p) && HandsSome(e, i, p.first, p.last)
    ensures CarriesSome(e, p.first, p.last)
  {
    var b := HandsSomeByte(e, i, p.first, p.last);
    HandsWithin(e, i, p, b);
  }

  lemma NoneUnseen(events: seq<Event>, i: Index, p: Seg)
    requires AllProper(events) && Within(p, i) && NeverDropped(events, i, p) && NoneLost(events, i, p)
    ensures Unseen(events, i, p.first, p.last) == 0
  {
    var n := Since(events, i);
    NoneCarry(events, i, p);
    NoneUnseenSince(events[n..], i, p);
  }

  lemma NoneCarry(events: seq<Event>, i: Index, p: Seg)
    requires NeverDropped(events, i, p)
    ensures Tally(events[..Since(events, i)], Carrying(p.first, p.last)) == 0
  {
    var before := events[..Since(events, i)];
    TallyNone(before, Carrying(p.first, p.last));
    forall k | 0 <= k < |before|
      ensures !Carrying(p.first, p.last)(before[k])
    {
      assert before[k] == events[k] && CarriesNone(events[k], p);
    }
  }

  lemma NoneUnseenSince(events: seq<Event>, i: Index, p: Seg)
    requires Within(p, i) && forall k :: 0 <= k < |events| ==> Proper(events[k]) && LosesNone(events[k], p)
    ensures Tally(events, Only(Carrying(p.first, p.last), Handing(i, p.first, p.last))) == 0
  {
    TallyNone(events, Only(Carrying(p.first, p.last), Handing(i, p.first, p.last)));
    forall k | 0 <= k < |events| && CarriesSome(events[k], p.first, p.last)
      ensures HandsSome(events[k], i, p.first, p.last)
    {
      CarriedIsHanded(events[k], i, p);
    }
  }

  lemma NoPhantoms(events: seq<Event>, i: Index, p: Seg)
    requires AllProper(events) && Within(p, i) && NoneAdded(events, i, p)
    ensures Phantoms(events, i, p.first, p.last) == 0
  {
    var recent := Recent(events, i);
    TallyNone(recent, Only(Handing(i, p.first, p.last), Carrying(p.first, p.last)));
    forall k | 0 <= k < |recent| && HandsSome(recent[k], i, p.first, p.last)
      ensures CarriesSome(recent[k], p.first, p.last)
    {
      assert recent[k] == events[Since(events, i) + k];
      HandedIsCarried(recent[k], i, p);
    }
  }

  // ---- segments that one packet carried alone ----

  /** Packet k carries all bytes of the segment, and no other packet of the run carries any of them. */
  ghost predicate CarriedOnceBy(events: seq<Event>, k: nat, p: Seg) {
    && k < |events|
    && (forall b :: p.first <= b <= p.last ==> CarriesByte(events[k], b))
    && (forall j, b :: 0 <= j < |events| && j != k && p.first <= b <= p.last ==> !CarriesByte(events[j], b))
  }

  /** One packet of the run carries all bytes of the segment, and no other one carries any or had any added to it. */
  ghost predicate CarriedAlone(events: seq<Event>, i: Index, p: Seg) {
    NoneAdded(events, i, p) && exists k: nat :: CarriedOnceBy(events, k, p)
  }

  /** Quadrant i knows some bytes of the segment from packet k. */
  predicate KnownFrom(events: seq<Event>, i: Index, k: nat, p: Seg) {
    Since(events, i) <= k < |events| && HandsSome(events[k], i, p.first, p.last)
  }

  /** A packet that the quadrant knows some bytes of the segment from carries the whole of it, and no other packet any. */
  ghost predicate KnownAndCarriedOnce(events: seq<Event>, i: Index, p: Seg) {
    exists k: nat :: CarriedOnceBy(events, k, p) && KnownFrom(events, i, k, p)
  }

  /** An event by which the quadrant was handed byte b. */
  lemma HandedByte(events: seq<Event>, i: Index, b: int) returns (k: nat)
    requires Hits(Sendings(events, i), b, b) >= 1
    ensures Since(events, i) <= k < |events| && Hands(events[k], i, b)
  {
    var n := Since(events, i);
    HitsAreHandings(events, i, b, b);
    TallyNone(events[n..], Handing(i, b, b));
    var m :| 0 <= m < |events[n..]| && HandsSome(events[n..][m], i, b, b);
    k := n + m;
    var b' := HandsSomeByte(events[k], i, b, b);
  }

  /** The packet that carried an end of the segment is the one that carried it alone. */
  lemma AloneHanded(events: seq<Event>, i: Index, k: nat, p: Seg, b: int)
    requires AllProper(events) && Within(p, i) && NoneAdded(events, i, p) && CarriedOnceBy(events, k, p)
    requires p.first <= b <= p.last && Hits(Sendings(events, i), b, b) >= 1
    ensures Since(events, i) <= k && Hands(events[k], i, b)
  {
    var m := HandedByte(events, i, b);
    HandsWithin(events[m], i, p, b);
  }

  lemma OnlyOneHands(events: seq<Event>, i: Index, p: Seg, k: nat)
    requires Within(p, i) && k < |events| && Hands(events[k], i, p.first)
    requires forall j :: 0 <= j < |events| ==> Proper(events[j]) && AddsNone(events[j], p)
    requires forall j :: 0 <= j < |events| && j != k ==> CarriesNone(events[j], p)
    ensures Tally(events, Handing(i, p.first, p.last)) == 1
  {
    TallyOne(events, Handing(i, p.first, p.last), k);
    forall j | 0 <= j < |events| && j != k
      ensures !HandsSome(events[j], i, p.first, p.last)
    {
      if HandsSome(events[j], i, p.first, p.last) {
        HandedIsCarried(events[j], i, p);
      }
    }
  }

  lemma OthersCarryNone(events: seq<Event>, i: Index, k: nat, p: Seg, j: nat)
    requires AllProper(events) && NoneAdded(events, i, p) && CarriedOnceBy(events, k, p) && j < |Recent(events, i)|
    ensures Proper(Recent(events, i)[j]) && AddsNone(Recent(events, i)[j], p)
    ensures j + Since(events, i) != k ==> CarriesNone(Recent(events, i)[j], p)
  {
    var m := j + Since(events, i);
    RecentAt(events, i, m);
    assert AddsNone(events[m], p) && (m != k ==> CarriesNone(events[m], p));
  }

  /** The quadrant was handed some of the segment for it, and nothing of it for any other packet. */
  lemma AloneHanding(events: seq<Event>, i: Index, k: nat, p: Seg)
    requires AllProper(events) && Within(p, i) && NoneAdded(events, i, p) && CarriedOnceBy(events, k, p)
    requires Since(events, i) <= k && Hands(events[k], i, p.first)
    ensures Tally(Recent(events, i), Handing(i, p.first, p.last)) == 1
  {
    RecentAt(events, i, k);
    forall j | 0 <= j < |Recent(events, i)|
      ensures Proper(Recent(events, i)[j]) && AddsNone(Recent(events, i)[j], p)
      ensures j != k - Since(events, i) ==> CarriesNone(Recent(events, i)[j], p)
    {
      OthersCarryNone(events, i, k, p, j);
    }
    OnlyOneHands(Recent(events, i), i, p, k - Since(events, i));
  }

  /** No packet lost any of it. */
  lemma AloneKept(events: seq<Event>, i: Index, k: nat, p: Seg)
    requires AllProper(events) && Within(p, i) && NoneAdded(events, i, p) && CarriedOnceBy(events, k, p)
    requires Since(events, i) <= k && Hands(events[k], i, p.first) && Hands(events[k], i, p.last)
    ensures NeverDropped(events, i, p) && NoneLost(events, i, p)
  {
    forall j, b | Since(events, i) <= j < |events| && p.first <= b <= p.last
      ensures !Loses(events[j], b)
    {
      HandsWithin(events[j], i, p, b);
      assert Hands(events[k], i, b);
    }
  }

  /** The pieces tell the same story. */
  lemma AloneIsSentOnce(events: seq<Event>, i: Index, k: nat, p: Seg)
    requires AllProper(events) && Within(p, i) && NoneAdded(events, i, p) && CarriedOnceBy(events, k, p)
    requires Hits(Sendings(events, i), p.first, p.first) >= 1 && Hits(Sendings(events, i), p.last, p.last) >= 1
    ensures NeverDropped(events, i, p) && NoneLost(events, i, p) && SentOnce(Sendings(events, i), p)
    ensures exists n: nat :: SentOnceBy(Sendings(events, i), n, p) && Sendings(events, i)[n].time == events[k].time
  {
    AloneHanded(events, i, k, p, p.first);
    AloneHanded(events, i, k, p, p.last);
    AloneHanding(events, i, k, p);
    HitsAreHandings(events, i, p.first, p.last);
    AloneKept(events, i, k, p);
    var n := PieceOf(events, i, k);
    AtMostOnePiece(events[k], i);
    OneHitMeansOnce(Sendings(events, i), n, p);
  }

  lemma HandsOneMeansSome(e: Event, i: Index, lo: int, hi: int, b: int)
    requires Hands(e, i, b) && lo <= b <= hi
    ensures HandsSome(e, i, lo, hi)
  {
  }

  lemma OneHandingOnly(events: seq<Event>, i: Index, p: Seg, k: nat, j: nat, e: Event)
    requires k < |events| && HandsSome(events[k], i, p.first, p.last) && Tally(events, Handing(i, p.first, p.last)) == 1
    requires j < |events| && j != k && e == events[j]
    ensures !HandsSome(e, i, p.first, p.last)
  {
    TallyOne(events, Handing(i, p.first, p.last), k);
    assert !Handing(i, p.first, p.last)(events[j]);
  }

  /** A packet for which the quadrant is handed nothing of the segment carries nothing of it, unless it loses that. */
  lemma NotHanded(e: Event, i: Index, p: Seg, b: int)
    requires Proper(e) && Within(p, i) && p.first <= b <= p.last && !HandsSome(e, i, p.first, p.last)
    ensures !CarriesByte(e, b) || Loses(e, b)
  {
    HandsWithin(e, i, p, b);
  }

  lemma PieceHandsAll(e: Event, i: Index, x: Sending, p: Seg)
    requires PiecesFor(e, i) == [x] && p.first <= p.last && forall b :: p.first <= b <= p.last ==> Carries(x, b)
    ensures HandsSome(e, i, p.first, p.last) && forall b :: p.first <= b <= p.last ==> Hands(e, i, b)
  {
    HandsOneMeansSome(e, i, p.first, p.last, p.first);
  }

  /** Of the packets from number n on, no other than m hands the quadrant anything of the segment. */
  lemma OthersHandNothing(events: seq<Event>, n: nat, i: Index, p: Seg, m: nat, j: nat, recent: seq<Event>)
    requires n <= m < |events| && n <= j < |events| && j != m && recent == events[n..]
    requires HandsSome(events[m], i, p.first, p.last) && Tally(recent, Handing(i, p.first, p.last)) == 1
    ensures !HandsSome(events[j], i, p.first, p.last)
  {
    var k, l := m - n, j - n;
    assert recent[k] == events[m] && recent[l] == events[j];
    OneHandingOnly(recent, i, p, k, l, recent[l]);
  }

  /** The packet of the only piece that a segment came in. */
  lemma PieceEvent(events: seq<Event>, i: Index, n: nat, p: Seg) returns (m: nat)
    requires Within(p, i) && SentOnceBy(Sendings(events, i), n, p)
    ensures KnownFrom(events, i, m, p) && events[m].time == Sendings(events, i)[n].time
    ensures forall b :: p.first <= b <= p.last ==> Hands(events[m], i, b)
    ensures forall j :: Since(events, i) <= j < |events| && j != m ==> !HandsSome(events[j], i, p.first, p.last)
  {
    m := EventOf(events, i, n);
    AtMostOnePiece(events[m], i);
    PieceHandsAll(events[m], i, Sendings(events, i)[n], p);
    OnceMeansOneHit(Sendings(events, i), n, p);
    HitsAreHandings(events, i, p.first, p.last);
    forall j | Since(events, i) <= j < |events| && j != m
      ensures !HandsSome(events[j], i, p.first, p.last)
    {
      OthersHandNothing(events, Since(events, i), i, p, m, j, Recent(events, i));
    }
  }

  /** Conversely, a segment whose bytes came in one piece was carried by one packet, if the guard holds. */
  lemma SentOnceIsAlone(events: seq<Event>, i: Index, n: nat, p: Seg)
    requires AllProper(events) && Within(p, i) && SentOnceBy(Sendings(events, i), n, p) && Undistorted(events, i, p)
    ensures exists k: nat :: CarriedOnceBy(events, k, p) && KnownFrom(events, i, k, p)
  {
    var m := PieceEvent(events, i, n, p);
    forall b | p.first <= b <= p.last
      ensures CarriesByte(events[m], b)
    {
      HandsWithin(events[m], i, p, b);
    }
    forall j, b | 0 <= j < |events| && j != m && p.first <= b <= p.last
      ensures !CarriesByte(events[j], b)
    {
      if Since(events, i) <= j {
        NotHanded(events[j], i, p, b);
      }
    }
    assert CarriedOnceBy(events, m, p) && KnownFrom(events, i, m, p);
  }

  /** Whether the packet that the quadrant knows such a segment from carries it once, is what the guard says. */
  lemma KnownIsUndistorted(events: seq<Event>, i: Index, n: nat, p: Seg)
    requires AllProper(events) && Within(p, i) && SentOnceBy(Sendings(events, i), n, p) && KnownAndCarriedOnce(events, i, p)
    ensures Undistorted(events, i, p)
  {
    var m := PieceEvent(events, i, n, p);
    assert CarriedOnceBy(events, m, p);
    forall j, b | Since(events, i) <= j < |events| && p.first <= b <= p.last
      ensures !Loses(events[j], b) && !Adds(events[j], b)
    {
      HandsWithin(events[j], i, p, b);
      assert Hands(events[j], i, b) ==> HandsSome(events[j], i, p.first, p.last);
    }
  }

  // ---- what the segments of a run tell about its packets ----

  /**
   What segment j tells about the packets of the run. One packet carried it alone exactly if it is intact, its history counts
   no resend and the guard holds; its time is then that of the packet. If it is intact, its 8-bit counter is the number of
   packets after the first that carried a byte of it, less the unseen ones, plus the phantoms, wrapped around.
   */
  ghost predicate TellsPackets(events: seq<Event>, i: Index, s: seq<Seg>, j: nat)
    requires j < |s|
  {
    var p := s[j];
    && (CarriedAlone(events, i, p) <==> Intact(s, j) && p.resent == 0 && Undistorted(events, i, p))
    && (CarriedAlone(events, i, p) ==> forall k: nat :: CarriedOnceBy(events, k, p) ==> events[k].time == p.time)
    && (Intact(s, j) && p.resent == 0 ==> (KnownAndCarriedOnce(events, i, p) <==> Undistorted(events, i, p)))
    && (Intact(s, j) ==> 1 + p.resent == Carriers(events, p.first, p.last) - Unseen(events, i, p.first, p.last)
                                         + Phantoms(events, i, p.first, p.last))
    && p.retrans == p.resent % RETRANS_WRAP
  }

  lemma AloneIffIntact(events: seq<Event>, s: seq<Seg>, i: Index, j: nat)
    requires AllProper(events) && j < |s| && Within(s[j], i) && s[j].acked == 0
    requires Sorted(s) && Told(Sendings(events, i), s, false)
    ensures CarriedAlone(events, i, s[j]) <==> Intact(s, j) && s[j].resent == 0 && Undistorted(events, i, s[j])
    ensures CarriedAlone(events, i, s[j]) ==> forall k: nat :: CarriedOnceBy(events, k, s[j]) ==> events[k].time == s[j].created
  {
    var h, p := Sendings(events, i), s[j];
    OnceIffIntact(h, s, j);
    ToldAt(h, s, false, j);
    if NoneAdded(events, i, p) {
      forall k: nat | CarriedOnceBy(events, k, p)
        ensures SentOnce(h, p) && Undistorted(events, i, p) && events[k].time == p.created
      {
        AloneIsSentOnce(events, i, k, p);
      }
    }
    if Intact(s, j) && p.resent == 0 && Undistorted(events, i, p) {
      var n: nat :| SentOnceBy(h, n, p);
      SentOnceIsAlone(events, i, n, p);
    }
  }

  lemma KnownIffUndistorted(events: seq<Event>, s: seq<Seg>, i: Index, j: nat)
    requires AllProper(events) && j < |s| && Within(s[j], i) && s[j].acked == 0 && Intact(s, j) && s[j].resent == 0
    requires Sorted(s) && Told(Sendings(events, i), s, false)
    ensures KnownAndCarriedOnce(events, i, s[j]) <==> Undistorted(events, i, s[j])
  {
    OnceIffIntact(Sendings(events, i), s, j);
    var n: nat :| SentOnceBy(Sendings(events, i), n, s[j]);
    if Undistorted(events, i, s[j]) {
      SentOnceIsAlone(events, i, n, s[j]);
    } else if KnownAndCarriedOnce(events, i, s[j]) {
      KnownIsUndistorted(events, i, n, s[j]);
    }
  }

  /** After any run, every segment that is not acked tells about the packets of the run. */
  lemma SegmentsTellPackets(events: seq<Event>, i: Index, j: nat)
    requires AllUsable(events) && j < |ListAfter(events, i)| && ListAfter(events, i)[j].acked == 0
    ensures TellsPackets(events, i, ListAfter(events, i), j)
  {
    var s := ListAfter(events, i);
    UsableIsProper(events);
    RunTold(events, i);
    ListIsHonest(events, i, j);
    SortedAt(s, j);
    OnceIffIntact(Sendings(events, i), s, j);
    AloneIffIntact(events, s, i, j);
    HitsAccount(events, i, s[j].first, s[j].last);
    if Intact(s, j) && s[j].resent == 0 {
      KnownIffUndistorted(events, s, i, j);
    }
  }

  // ---- samples ----

  /** The time since t, zero if that is still to come. */
  function Age(t: int, now: int): int {
    if t <= now then now - t else 0
  }

  /** What a sample taken from segment j of quadrant i tells about the packets of the run. */
  ghost predicate KarnsRule(events: seq<Event>, i: Index, s: seq<Seg>, j: nat, sample: int, now: int)
    requires j < |s|
  {
    var p := s[j];
    && sample == Age(p.time, now)
    && (CarriedAlone(events, i, p) <==> Intact(s, j) && p.resent < RETRANS_WRAP && Undistorted(events, i, p))
    && (CarriedAlone(events, i, p) ==> forall k: nat :: CarriedOnceBy(events, k, p) ==> sample == Age(events[k].time, now))
    && (Intact(s, j) && p.resent < RETRANS_WRAP ==> (KnownAndCarriedOnce(events, i, p) <==> Undistorted(events, i, p)))
  }

  lemma RuleFromPackets(events: seq<Event>, i: Index, s: seq<Seg>, j: nat, sample: int, now: int)
    requires j < |s| && TellsPackets(events, i, s, j) && s[j].retrans == 0 && sample == Elapsed(s[j].time, now)
    ensures KarnsRule(events, i, s, j, sample, now)
  {
  }

  /**
   Karn's algorithm as the program has it, after any run: a sample is the age of a segment that the ack ends on and acks for
   the first time, and that is not older than any before it. One packet of the whole run carried the segment alone exactly if
   it is intact, its history counts fewer than 256 resends and the guard holds; then the sample is the time since that packet.
   */
  lemma SamplesAreKarns(events: seq<Event>, ack: SeqNum, dataLen: nat, now: int, n: nat) returns (j: nat)
    requires AllUsable(events) && n < |SamplesAt(events, ack, dataLen, now)|
    ensures IsSample(ListAfter(events, QuadNumOf(ack) - 1), j, ack, XmitAt(events, ack))
    ensures KarnsRule(events, QuadNumOf(ack) - 1, ListAfter(events, QuadNumOf(ack) - 1), j,
                      SamplesAt(events, ack, dataLen, now)[n], now)
  {
    var i := QuadNumOf(ack) - 1;
    SamplesAtIs(events, ack, dataLen, now);
    j := SampleOrigin(ListAfter(events, i), ack, dataLen, now, XmitAt(events, ack), n);
    SegmentsTellPackets(events, i, j);
    RuleFromPackets(events, i, ListAfter(events, i), j, SamplesAt(events, ack, dataLen, now)[n], now);
  }

  /** An intact segment that the ack ends on and acks for the first time, and that is not older than any before it. */
  predicate Sampleable(events: seq<Event>, ack: SeqNum, j: nat) {
    var s := ListAfter(events, QuadNumOf(ack) - 1);
    && j < |s| && Intact(s, j) && s[j].acked == 0 && s[j].last + 1 == ack
    && XmitAt(events, ack) <= s[j].time && forall m | 0 <= m < j :: s[m].time <= s[j].time
  }

  /** Such a segment yields a sample exactly if its counter is zero. */
  lemma SampledIfCounterZero(events: seq<Event>, ack: SeqNum, dataLen: nat, now: int, j: nat)
    requires AllUsable(events) && Sampleable(events, ack, j)
    ensures SamplesAt(events, ack, dataLen, now) != [] <==> ListAfter(events, QuadNumOf(ack) - 1)[j].retrans == 0
  {
    ListIsHonest(events, QuadNumOf(ack) - 1, j);
    SamplesAtIs(events, ack, dataLen, now);
    IntactSampled(ListAfter(events, QuadNumOf(ack) - 1), ack, dataLen, now, XmitAt(events, ack), j);
  }

  /**
   Segment j is sampled exactly if 1, 257, 513.. packets of the run carried a byte of it, not counting the unseen ones, but the
   phantoms. Under the guard there are none of either kind.
   */
  predicate SampledByCount(events: seq<Event>, i: Index, p: Seg, sampled: bool) {
    var unseen, phantoms := Unseen(events, i, p.first, p.last), Phantoms(events, i, p.first, p.last);
    && (sampled <==> (Carriers(events, p.first, p.last) - unseen + phantoms - 1) % RETRANS_WRAP == 0)
    && (Undistorted(events, i, p) ==> unseen == 0 && phantoms == 0)
  }

  lemma CounterCounts(events: seq<Event>, i: Index, s: seq<Seg>, j: nat)
    requires AllProper(events) && j < |s| && Within(s[j], i) && Intact(s, j) && TellsPackets(events, i, s, j)
    ensures SampledByCount(events, i, s[j], s[j].retrans == 0)
  {
    if Undistorted(events, i, s[j]) {
      NoneUnseen(events, i, s[j]);
      NoPhantoms(events, i, s[j]);
    }
  }

  lemma SegmentsAreWithin(events: seq<Event>, i: Index, j: nat)
    requires AllUsable(events) && j < |ListAfter(events, i)|
    ensures Within(ListAfter(events, i)[j], i)
  {
    ListIsHonest(events, i, j);
    SortedAt(ListAfter(events, i), j);
  }

  /** Conversely, such a segment is sampled as its packets demand. */
  lemma IntactIsSampled(events: seq<Event>, ack: SeqNum, dataLen: nat, now: int, j: nat)
    requires AllUsable(events) && Sampleable(events, ack, j)
    ensures SampledByCount(events, QuadNumOf(ack) - 1, ListAfter(events, QuadNumOf(ack) - 1)[j],
                           SamplesAt(events, ack, dataLen, now) != [])
  {
    var i := QuadNumOf(ack) - 1;
    SampledIfCounterZero(events, ack, dataLen, now, j);
    SegmentsTellPackets(events, i, j);
    UsableIsProper(events);
    SegmentsAreWithin(events, i, j);
    CounterCounts(events, i, ListAfter(events, i), j);
  }
}
