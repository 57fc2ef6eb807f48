/**
 The segment list of one quadrant, as a value: what addseg, collapse_quad and the two walks
 of ack_in do to the list of recorded segments.
 */
module SegmentList {
  import opened SequenceNumbers

  const MAX_SEG_PER_QUAD := 15

  /** retrans is kept by the program in an unsigned 8-bit counter. */
  const RETRANS_WRAP := 256

  /**
   One recorded segment: bytes first..last. Times are in microseconds.
   The last three fields are history: how often the segment was really seen again, when it was recorded, and the first byte
   it had then.
   */
  datatype Seg = Seg(first: int, last: int, retrans: nat, acked: nat, time: int, ipId: int,
                     resent: nat, created: int, origin: int)

  function NewSeg(f: int, l: int, now: int, ip: int): Seg {
    Seg(f, l, 0, 0, now, ip, 0, now, f)
  }

  /** A recorded segment is hit by bytes sent again. Only the first hit of a packet restarts its clock. */
  function Resend(p: Seg, split: bool, now: int): Seg {
    p.(retrans := (p.retrans + 1) % RETRANS_WRAP, resent := p.resent + 1, time := if split then p.time else now)
  }

  datatype Added = Added(list: seq<Seg>, bytes: int, outOfOrder: bool, appended: bool)

  /** The piece of f.. that lies before the recorded segment p. */
  function Before(p: Seg, f: int, now: int, ip: int): seq<Seg> {
    if f < p.first then [NewSeg(f, p.first - 1, now, ip)] else []
  }

  /** The bytes f..l overlap p: what stays before p is a new segment, p is hit, and rest says what lies beyond p. */
  function Hit(p: Seg, f: int, l: int, split: bool, now: int, ip: int, rest: Added): Added {
    Added(Before(p, f, now, ip) + [Resend(p, split, now)] + rest.list,
          (if l <= p.last then l else p.last) - (if f < p.first then p.first else f) + 1 + rest.bytes,
          (f < p.first && l < p.last) || rest.outOfOrder,
          rest.appended)
  }

  /** The loop of addseg over the list s, for the bytes f..l that are still to be placed. */
  function Walk(s: seq<Seg>, f: int, l: int, split: bool, now: int, ip: int): Added
    decreases |s|
  {
    if s == [] then
      Added([NewSeg(f, l, now, ip)], 0, false, true)
    else if f > s[0].last then
      var rest := Walk(s[1..], f, l, split, now, ip);
      rest.(list := [s[0]] + rest.list)
    else if f < s[0].first && l <= s[0].first then
      Added([NewSeg(f, l, now, ip)] + s, 0, l < s[0].last, false)
    else
      Hit(s[0], f, l, split, now, ip,
          if l <= s[0].last then Added(s[1..], 0, false, false)
          else Walk(s[1..], s[0].last + 1, l, true, now, ip))
  }

  /** addseg up to the eviction: bytes that start beyond the tail go to the end without a walk. */
  function Insert(s: seq<Seg>, f: int, l: int, now: int, ip: int): Added {
    if s != [] && f > s[|s| - 1].last then
      Added(s + [NewSeg(f, l, now, ip)], 0, false, true)
    else
      Walk(s, f, l, false, now, ip)
  }

  /** The oldest segment leaves the list and its successor takes over its first byte. */
  function Evict(s: seq<Seg>): seq<Seg>
    requires |s| >= 2
  {
    [s[1].(first := s[0].first)] + s[2..]
  }

  predicate MustEvict(r: Added) {
    r.appended && |r.list| > MAX_SEG_PER_QUAD
  }

  /** The whole of addseg. */
  function AddSeg(s: seq<Seg>, f: int, l: int, now: int, ip: int): Added {
    var r := Insert(s, f, l, now, ip);
    if MustEvict(r) then r.(list := Evict(r.list)) else r
  }

  /** Two contiguous acked segments become one; time and ip_id come from the one sent last. */
  function Merge(a: Seg, b: Seg): Seg {
    var m := a.(last := b.last, acked := b.acked);
    if b.time > a.time then m.(time := b.time, ipId := b.ipId) else m
  }

  predicate Mergeable(a: Seg, b: Seg) {
    a.acked > 0 && b.acked > 0 && a.last + 1 == b.first
  }

  function Collapse(s: seq<Seg>): seq<Seg>
    decreases |s|
  {
    if |s| <= 1 || s[0].acked == 0 then s
    else if Mergeable(s[0], s[1]) then Collapse([Merge(s[0], s[1])] + s[2..])
    else [s[0]] + Collapse(s[1..])
  }

  predicate SpansQuadrant(s: seq<Seg>) {
    s != [] && s[0].last - s[0].first + 1 == QUADSIZE
  }

  /** The classification of an ack. Unset is the value 0 with which ack_in starts. */
  datatype AckType = Unset | Normal | Ambig | Cumul | Triple | NoSamp

  /** What one walk of ack_in does: the new list and the counters it adds to. */
  datatype Acked = Acked(list: seq<Seg>, ret: AckType, lastXmit: int, changed: bool,
                         cumack: nat, nosample: nat, ambig: nat, dupack: nat, triple: nat, samples: seq<int>)

  function Newest(t: int, lastXmit: int): int {
    if t > lastXmit then t else lastXmit
  }

  /** A walk that changes nothing. */
  function Untouched(s: seq<Seg>, lastXmit: int): Acked {
    Acked(s, Unset, lastXmit, false, 0, 0, 0, 0, 0, [])
  }

  /** One part of a walk after the other. The later verdict counts. */
  function Join(a: Acked, b: Acked): Acked {
    Acked(a.list + b.list, if b.ret == Unset then a.ret else b.ret, b.lastXmit, a.changed || b.changed,
          a.cumack + b.cumack, a.nosample + b.nosample, a.ambig + b.ambig, a.dupack + b.dupack, a.triple + b.triple,
          a.samples + b.samples)
  }

  /** First walk of ack_in, at one segment of the previous quadrant. */
  function AckWhole(p: Seg, lastXmit: int): Acked {
    if p.acked > 0 then Untouched([p], lastXmit)
    else Acked([p.(acked := 1)], Unset, Newest(p.time, lastXmit), true, 1, 0, 0, 0, 0, [])
  }

  /** The previous quadrant is acked as a whole. */
  function AckAll(s: seq<Seg>, lastXmit: int): Acked
    decreases |s|
  {
    if s == [] then Untouched([], lastXmit)
    else Join(AckWhole(s[0], lastXmit), AckAll(s[1..], AckWhole(s[0], lastXmit).lastXmit))
  }

  /** elapsed: microseconds from t to now, 0 if now lies before t. */
  function Elapsed(t: int, now: int): int {
    if now < t then 0 else now - t
  }

  /** rtt_ackin's verdict on a segment whose last byte is acked for the first time. */
  function Verdict(p: Seg, intervening: bool): AckType {
    if intervening then NoSamp else if p.retrans == 0 then Normal else Ambig
  }

  /** Second walk of ack_in, at a segment that was acked before. newest is the newest transmission so far. */
  function AckAgain(p: Seg, ack: int, dataLen: nat, newest: int): Acked {
    var ends := ack == p.last + 1;
    var third := ends && p.acked + 1 == 4 && dataLen == 0;
    Acked([p.(acked := p.acked + 1)], if third then Triple else if ends then Cumul else Unset, newest, false,
          0, 0, 0, if ends then 1 else 0, if third then 1 else 0, [])
  }

  /** Second walk of ack_in, at a segment acked for the first time. */
  function AckFirst(p: Seg, ack: int, now: int, newest: int): Acked {
    var own := if ack == p.last + 1 then Verdict(p, newest > p.time) else Cumul;
    Acked([p.(acked := p.acked + 1)], own, newest, true, if own == Cumul then 1 else 0, if own == NoSamp then 1 else 0,
          if own == Ambig then 1 else 0, 0, 0, if own == Normal then [Elapsed(p.time, now)] else [])
  }

  function AckOne(p: Seg, ack: int, dataLen: nat, now: int, lastXmit: int): Acked {
    var newest := Newest(p.time, lastXmit);
    if p.acked > 0 then AckAgain(p, ack, dataLen, newest) else AckFirst(p, ack, now, newest)
  }

  /** The current quadrant is acked as far as the ack reaches. */
  function AckUpTo(s: seq<Seg>, ack: int, dataLen: nat, now: int, lastXmit: int): Acked
    decreases |s|
  {
    if s == [] || ack <= s[0].first then Untouched(s, lastXmit)
    else Join(AckOne(s[0], ack, dataLen, now, lastXmit),
              AckUpTo(s[1..], ack, dataLen, now, Newest(s[0].time, lastXmit)))
  }
}
