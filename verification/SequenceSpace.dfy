/**
 The sequence space of one direction of a flow, as a value: four quadrants of which at most three
 neighbours exist, what whichquad, rexmit and ack_in do to them, and the RTT counters.
 */
module SequenceSpace {
  import opened Common
  import opened SequenceNumbers
  import opened SegmentList
  import opened Statistics

  /** A quadrant: its segment list and whether it was ever seen to be full. */
  datatype Quad = Quad(segs: seq<Seg>, full: bool)

  const EMPTY_QUAD := Quad([], false)

  /** The four quadrants, by number minus one, and the index the window is centred on, -1 before its first use. */
  datatype Space = Space(slots: seq<Option<Quad>>, centre: int)

  const EMPTY_SPACE := Space([None, None, None, None], -1)

  type Index = i: int | 0 <= i < 4

  function Next(i: Index): Index { if i == 3 then 0 else i + 1 }

  function Opposite(i: Index): Index { if i < 2 then i + 2 else i - 2 }

  function Prev(i: Index): Index { if i == 0 then 3 else i - 1 }

  /** Either nothing exists yet, or exactly the centre and its two neighbours do. */
  predicate Window(sp: Space) {
    && |sp.slots| == 4 && -1 <= sp.centre < 4
    && (sp.centre == -1 ==> sp == EMPTY_SPACE)
    && (sp.centre >= 0 ==>
      && sp.slots[sp.centre].Some? && sp.slots[Next(sp.centre)].Some? && sp.slots[Prev(sp.centre)].Some?
      && sp.slots[Opposite(sp.centre)].None?)
  }

  function Kept(slot: Option<Quad>): Option<Quad> {
    if slot.None? then Some(EMPTY_QUAD) else slot
  }

  /** whichquad: missing quadrants are created, the one opposite to q is dropped. */
  function Recentre(sp: Space, q: Index): (r: Space)
    requires Window(sp)
    ensures Window(r) && r.centre == q
  {
    Space(seq(4, i requires 0 <= i < 4 => if i == Opposite(q) then None else Kept(sp.slots[i])), q)
  }

  function Segs(sp: Space, i: Index): seq<Seg>
    requires |sp.slots| == 4
  {
    if sp.slots[i].None? then [] else sp.slots[i].value.segs
  }

  function SetSegs(sp: Space, i: Index, segs: seq<Seg>): Space
    requires |sp.slots| == 4 && sp.slots[i].Some?
  {
    sp.(slots := sp.slots[i := Some(sp.slots[i].value.(segs := segs))])
  }

  // ---- rexmit ----

  /** The pieces that rexmit hands to addseg for the bytes of one packet; the second one is None inside a quadrant. */
  datatype Pieces = Pieces(first: (SeqNum, SeqNum), second: Option<(SeqNum, SeqNum)>)

  function Cut(s: SeqNum, len: nat): Pieces {
    var last := LastByte(s, len);
    if Boundary(s, last) then
      var len1 := Wrap(LastSeq(QuadNumOf(s)) - s + 1);
      var s2 := FirstSeq(QuadNumOf(last));
      Pieces((s, LastByte(s, len1)), Some((s2, LastByte(s2, len - len1))))
    else
      Pieces((s, last), None)
  }

  datatype Recorded = Recorded(space: Space, bytes: int, outOfOrder: bool)

  function AddPiece(r: Recorded, i: Index, piece: (SeqNum, SeqNum), now: int, ip: int): (t: Recorded)
    requires Window(r.space) && r.space.slots[i].Some?
    ensures Window(t.space) && t.space.centre == r.space.centre
  {
    var a := AddSeg(Segs(r.space, i), piece.0, piece.1, now, ip);
    Recorded(SetSegs(r.space, i, a.list), r.bytes + a.bytes, r.outOfOrder || a.outOfOrder)
  }

  /** The pieces of the packet go to the quadrant at the centre of the window and to its successor. */
  function Record(sp: Space, cut: Pieces, now: int, ip: int): (r: Recorded)
    requires Window(sp) && sp.centre >= 0
    ensures Window(r.space) && r.space.centre == sp.centre
  {
    var r1 := AddPiece(Recorded(sp, 0, false), sp.centre, cut.first, now, ip);
    if cut.second.None? then r1 else AddPiece(r1, Next(sp.centre), cut.second.value, now, ip)
  }

  /** rexmit: record the packet and report how many of its bytes were sent before. */
  function Rexmit(sp: Space, s: SeqNum, len: nat, now: int, ip: int): (r: Recorded)
    requires Window(sp)
    ensures Window(r.space)
  {
    Record(Recentre(sp, QuadNumOf(s) - 1), Cut(s, len), now, ip)
  }

  // ---- ack_in ----

  /** collapse_quad also notices that the first segment spans the quadrant. */
  function CollapseQuad(q: Quad): Quad {
    var c := Collapse(q.segs);
    Quad(c, q.full || SpansQuadrant(c))
  }

  function AfterWalk(q: Quad, a: Acked): Quad {
    if a.changed then CollapseQuad(q.(segs := a.list)) else q.(segs := a.list)
  }

  /** The RTT counters of a direction that ack_in adds to. */
  datatype RttCounters = RttCounters(cumack: nat, nosample: nat, dupack: nat, triple: nat,
                                     count: nat, sum: int, sum2: int)

  const NO_RTT := RttCounters(0, 0, 0, 0, 0, 0, 0)

  function Count(c: RttCounters, a: Acked): RttCounters {
    RttCounters(c.cumack + a.cumack, c.nosample + a.nosample, c.dupack + a.dupack, c.triple + a.triple,
                c.count + |a.samples|, c.sum + Sum(a.samples), c.sum2 + SumOfSquares(a.samples))
  }

  datatype AckOutcome = AckOutcome(space: Space, ret: AckType, counters: RttCounters, samples: seq<int>)

  /** The first walk of ack_in, over the quadrant before the centre. */
  function FirstWalk(sp: Space): Acked
    requires Window(sp) && sp.centre >= 0
  {
    AckAll(Segs(sp, Prev(sp.centre)), 0)
  }

  /** The second walk, over the quadrant at the centre. */
  function SecondWalk(sp: Space, ack: SeqNum, dataLen: nat, now: int): Acked
    requires Window(sp) && sp.centre >= 0
  {
    AckUpTo(Segs(sp, sp.centre), ack, dataLen, now, FirstWalk(sp).lastXmit)
  }

  function Acknowledge(sp: Space, ack: SeqNum, dataLen: nat, now: int): (r: Space)
    requires Window(sp) && sp.centre >= 0
    ensures Window(r) && r.centre == sp.centre
  {
    var prev := AfterWalk(sp.slots[Prev(sp.centre)].value, FirstWalk(sp));
    var cur := AfterWalk(sp.slots[sp.centre].value, SecondWalk(sp, ack, dataLen, now));
    sp.(slots := sp.slots[Prev(sp.centre) := Some(prev)][sp.centre := Some(cur)])
  }

  /** ack_in: the quadrant before the ack is acked as a whole, its own as far as the ack reaches. */
  function AckIn(sp: Space, c: RttCounters, ack: SeqNum, dataLen: nat, now: int): (r: AckOutcome)
    requires Window(sp)
    ensures Window(r.space)
  {
    var sp1 := Recentre(sp, QuadNumOf(ack) - 1);
    var a, b := FirstWalk(sp1), SecondWalk(sp1, ack, dataLen, now);
    AckOutcome(Acknowledge(sp1, ack, dataLen, now), b.ret, Count(Count(c, a), b), b.samples)
  }

  // ---- runs ----

  datatype Event =
    | Data(s: SeqNum, len: nat, ipId: int, time: int)
    | Ack(ack: SeqNum, dataLen: nat, time: int)

  /** One direction of a flow: its sequence space, its RTT counters and, as history, all samples taken so far. */
  datatype Direction = Direction(space: Space, counters: RttCounters, samples: seq<int>)

  const NEW_DIRECTION := Direction(EMPTY_SPACE, NO_RTT, [])

  function Step(d: Direction, e: Event): (r: Direction)
    requires Window(d.space)
    ensures Window(r.space)
  {
    match e
    case Data(s, len, ip, now) => d.(space := Rexmit(d.space, s, len, now, ip).space)
    case Ack(ack, dataLen, now) =>
      var r := AckIn(d.space, d.counters, ack, dataLen, now);
      Direction(r.space, r.counters, d.samples + r.samples)
  }

  function Run(events: seq<Event>): (d: Direction)
    ensures Window(d.space)
  {
    if events == [] then NEW_DIRECTION else Step(Run(events[..|events| - 1]), events[|events| - 1])
  }
}
