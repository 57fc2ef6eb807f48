/**
 What a segment list tells about the transmissions that built it. A quadrant is handed one piece after the other; the lemmas
 say what the fields of a segment have to do with the pieces that carried its bytes.
 */
module SegmentHistory {
  import opened SegmentList
  import opened SegmentCoverage
  import opened SegmentAcks

  /** One piece of a packet, handed to a quadrant at some time. */
  datatype Sending = Sending(first: int, last: int, time: int)

  /** The last byte a piece carries; one that ends before it starts is taken for its first byte. */
  function End(x: Sending): int {
    if x.last < x.first then x.first else x.last
  }

  predicate Carries(x: Sending, b: int) {
    x.first <= b <= End(x)
  }

  /** The piece carries some of the bytes lo..hi. */
  predicate Overlaps(x: Sending, lo: int, hi: int) {
    x.first <= hi && lo <= End(x)
  }

  /** How many of the pieces carried some of the bytes lo..hi. */
  function Hits(h: seq<Sending>, lo: int, hi: int): nat {
    if h == [] then 0 else Hits(h[..|h| - 1], lo, hi) + (if Overlaps(h[|h| - 1], lo, hi) then 1 else 0)
  }

  /** Piece k carried all the bytes of the segment, and no other piece carried any of them. */
  ghost predicate SentOnceBy(h: seq<Sending>, k: nat, p: Seg) {
    && k < |h|
    && (forall b :: p.first <= b <= p.last ==> Carries(h[k], b))
    && (forall j, b :: 0 <= j < |h| && j != k && p.first <= b <= p.last ==> !Carries(h[j], b))
  }

  /** All bytes of the segment were sent once, together. */
  ghost predicate SentOnce(h: seq<Sending>, p: Seg) {
    exists k: nat :: SentOnceBy(h, k, p)
  }

  /** Segment i was not widened by an eviction and shares neither its first nor its last byte with a neighbour. */
  predicate Intact(s: seq<Seg>, i: nat)
    requires i < |s|
  {
    && s[i].origin == s[i].first
    && (i > 0 ==> s[i - 1].last != s[i].first)
    && (i + 1 < |s| ==> s[i].last != s[i + 1].first)
  }

  // ---- counting pieces ----

  lemma HitsAppend(h: seq<Sending>, x: Sending, lo: int, hi: int)
    ensures Hits(h + [x], lo, hi) == Hits(h, lo, hi) + if Overlaps(x, lo, hi) then 1 else 0
  {
    assert (h + [x])[..|h|] == h;
  }

  lemma {:induction false} HitsWider(h: seq<Sending>, lo: int, hi: int, lo': int, hi': int)
    requires lo' <= lo && hi <= hi'
    ensures Hits(h, lo, hi) <= Hits(h, lo', hi')
  {
    if h != [] {
      HitsWider(h[..|h| - 1], lo, hi, lo', hi');
    }
  }

  lemma {:induction false} NoHits(h: seq<Sending>, lo: int, hi: int)
    requires lo <= hi && forall k, b :: 0 <= k < |h| && lo <= b <= hi ==> !Carries(h[k], b)
    ensures Hits(h, lo, hi) == 0
  {
    if h != [] {
      var x := h[|h| - 1];
      if x.first <= hi { assert !Carries(h[|h| - 1], if x.first < lo then lo else x.first); }
      NoHits(h[..|h| - 1], lo, hi);
    }
  }

  /** A piece that overlaps the range leaves one fewer to the others. */
  lemma {:induction false} HitsBut(h: seq<Sending>, k: nat, lo: int, hi: int)
    requires lo <= hi && k < |h| && Overlaps(h[k], lo, hi)
    ensures Hits(h, lo, hi) >= 1
    ensures Hits(h, lo, hi) == 1 <==> forall j :: 0 <= j < |h| && j != k ==> !Overlaps(h[j], lo, hi)
  {
    var n := |h| - 1;
    var rest := h[..n];
    if k == n {
      NoneOrSome(rest, lo, hi);
      assert forall j :: 0 <= j < n ==> rest[j] == h[j];
    } else {
      HitsBut(rest, k, lo, hi);
      assert forall j :: 0 <= j < n ==> rest[j] == h[j];
    }
  }

  lemma {:induction false} NoneOrSome(h: seq<Sending>, lo: int, hi: int)
    ensures Hits(h, lo, hi) == 0 <==> forall j :: 0 <= j < |h| ==> !Overlaps(h[j], lo, hi)
  {
    if h != [] {
      var n := |h| - 1;
      NoneOrSome(h[..n], lo, hi);
      assert forall j :: 0 <= j < n ==> h[..n][j] == h[j];
    }
  }

  // ---- what the list tells ----

  /** Some piece carried all of the segment, at the time the segment was recorded. */
  ghost predicate Brought(h: seq<Sending>, p: Seg) {
    exists k: nat :: BroughtBy(h, k, p)
  }

  predicate BroughtBy(h: seq<Sending>, k: nat, p: Seg) {
    k < |h| && h[k].first <= p.first && p.last <= End(h[k]) && h[k].time == p.created
  }

  /**
   One segment, which may share its first byte with the one before it and its last byte with the one after it: both ends
   were sent, and unless it is acked, widened or shared, it was brought whole and hit once by every other piece.
   */
  ghost predicate SegTold(h: seq<Sending>, p: Seg, shared: bool, shares: bool) {
    && Hits(h, p.first, p.first) >= 1 && Hits(h, p.last, p.last) >= 1
    && p.first <= p.origin
    && (p.first < p.origin ==> Hits(h, p.first, p.last) >= 2)
    && (p.acked == 0 && p.origin == p.first && !shared && !shares ==>
          Hits(h, p.first, p.last) == 1 + p.resent && Brought(h, p))
  }

  /** Neighbours: no single piece brought the last bytes of both, and a shared byte was sent twice. */
  ghost predicate PairTold(h: seq<Sending>, a: Seg, b: Seg) {
    && Hits(h, a.last, b.last) >= 2
    && (a.last == b.first ==> Hits(h, b.first, b.first) >= 2)
  }

  predicate SharesNext(s: seq<Seg>)
    requires s != []
  {
    |s| > 1 && s[0].last == s[1].first
  }

  /** The list, whose first segment may share its first byte with one before it. */
  ghost predicate Told(h: seq<Sending>, s: seq<Seg>, shared: bool)
    decreases |s|
  {
    s != [] ==>
      && SegTold(h, s[0], shared, SharesNext(s))
      && (|s| > 1 ==> PairTold(h, s[0], s[1]))
      && Told(h, s[1..], SharesNext(s))
  }

  /** Every byte that was carried is recorded. */
  ghost predicate Recorded(h: seq<Sending>, s: seq<Seg>) {
    forall k, b :: 0 <= k < |h| && Carries(h[k], b) ==> Covers(s, b)
  }

  ghost predicate QuadTold(h: seq<Sending>, s: seq<Seg>) {
    Told(h, s, false) && Recorded(h, s)
  }

  // ---- one more piece, segment by segment ----

  lemma BroughtStays(h: seq<Sending>, x: Sending, p: Seg, q: Seg)
    requires Brought(h, p) && q.first == p.first && q.last == p.last && q.created == p.created
    ensures Brought(h + [x], q)
  {
    var k: nat :| BroughtBy(h, k, p);
    assert BroughtBy(h + [x], k, q);
  }

  lemma EndsStay(h: seq<Sending>, x: Sending, p: Seg)
    ensures Hits(h + [x], p.first, p.first) >= Hits(h, p.first, p.first)
    ensures Hits(h + [x], p.last, p.last) >= Hits(h, p.last, p.last)
    ensures Hits(h + [x], p.first, p.last) >= Hits(h, p.first, p.last)
  {
    HitsAppend(h, x, p.first, p.first);
    HitsAppend(h, x, p.last, p.last);
    HitsAppend(h, x, p.first, p.last);
  }

  /** A piece that does not meet the segment leaves it as it is. */
  lemma SegStays(h: seq<Sending>, x: Sending, p: Seg, shared: bool, shares: bool)
    requires SegTold(h, p, shared, shares)
    requires !shared && !shares ==> !Overlaps(x, p.first, p.last)
    ensures SegTold(h + [x], p, shared, shares)
  {
    EndsStay(h, x, p);
    HitsAppend(h, x, p.first, p.last);
    if Brought(h, p) { BroughtStays(h, x, p, p); }
  }

  /** One that does hits it. */
  lemma SegHit(h: seq<Sending>, x: Sending, p: Seg, shared: bool, shares: bool, split: bool, now: int)
    requires SegTold(h, p, shared, shares) && Overlaps(x, p.first, p.last)
    ensures SegTold(h + [x], Resend(p, split, now), shared, shares)
  {
    EndsStay(h, x, p);
    HitsAppend(h, x, p.first, p.last);
    if Brought(h, p) { BroughtStays(h, x, p, Resend(p, split, now)); }
  }

  lemma PairStays(h: seq<Sending>, x: Sending, a: Seg, b: Seg)
    requires PairTold(h, a, b)
    ensures PairTold(h + [x], a, b)
  {
    HitsAppend(h, x, a.last, b.last);
    HitsAppend(h, x, b.first, b.first);
  }

  /** The segments beyond the piece stay as they are. */
  lemma {:induction false} TailStays(h: seq<Sending>, x: Sending, s: seq<Seg>, shared: bool)
    requires Sorted(s) && Told(h, s, shared)
    requires s != [] ==> End(x) < s[0].first + if shared then 1 else 0
    ensures Told(h + [x], s, shared)
    decreases |s|
  {
    if s != [] {
      SegStays(h, x, s[0], shared, SharesNext(s));
      if |s| > 1 { PairStays(h, x, s[0], s[1]); }
      TailStays(h, x, s[1..], SharesNext(s));
    }
  }

  lemma SharedTold(h: seq<Sending>, s: seq<Seg>, shared: bool)
    requires Told(h, s, false)
    ensures Told(h, s, shared)
  {
  }

  lemma ConsTold(h: seq<Sending>, p: Seg, t: seq<Seg>, shared: bool)
    requires var shares := t != [] && p.last == t[0].first;
             SegTold(h, p, shared, shares) && Told(h, t, shares)
    requires t != [] ==> PairTold(h, p, t[0])
    ensures Told(h, [p] + t, shared)
  {
    assert ([p] + t)[1..] == t;
  }

  /** A new segment holds bytes that no piece had carried, but for a last byte that it may share. */
  lemma NewTold(h: seq<Sending>, x: Sending, f: int, l: int, ip: int, shared: bool, shares: bool)
    requires x.first <= f <= l <= x.last
    requires !shares ==> forall k, b :: 0 <= k < |h| && f <= b <= l ==> !Carries(h[k], b)
    ensures SegTold(h + [x], NewSeg(f, l, x.time, ip), shared, shares)
  {
    var p := NewSeg(f, l, x.time, ip);
    HitsAppend(h, x, f, f);
    HitsAppend(h, x, l, l);
    HitsAppend(h, x, f, l);
    if !shares { NoHits(h, f, l); }
    assert BroughtBy(h + [x], |h|, p);
  }

  /** A new segment and a neighbour, one end of which had been sent before. */
  lemma NewPair(h: seq<Sending>, x: Sending, a: Seg, b: Seg)
    requires a.last <= b.last && Overlaps(x, a.last, b.last)
    requires Hits(h, a.last, a.last) >= 1 || Hits(h, b.last, b.last) >= 1
    requires a.last == b.first ==> Hits(h, b.first, b.first) >= 1 && Carries(x, b.first)
    ensures PairTold(h + [x], a, b)
  {
    HitsAppend(h, x, a.last, b.last);
    HitsAppend(h, x, b.first, b.first);
    HitsWider(h, a.last, a.last, a.last, b.last);
    HitsWider(h, b.last, b.last, a.last, b.last);
  }

  /** What a piece carries of the bytes f.. is recorded if any piece carried it before. */
  ghost predicate NewsRecorded(h: seq<Sending>, s: seq<Seg>, f: int, l: int) {
    forall k, b :: 0 <= k < |h| && f <= b <= l && Carries(h[k], b) ==> Covers(s, b)
  }

  lemma NewsInRest(h: seq<Sending>, s: seq<Seg>, f: int, g: int, l: int)
    requires Sorted(s) && s != [] && NewsRecorded(h, s, f, l) && f <= g && s[0].last < g
    ensures NewsRecorded(h, s[1..], g, l)
  {
    forall k, b | 0 <= k < |h| && g <= b <= l && Carries(h[k], b) ensures Covers(s[1..], b) {
      CoversSplit(s, b);
    }
  }

  lemma NewsBefore(h: seq<Sending>, s: seq<Seg>, f: int, l: int, g: int)
    requires Sorted(s) && s != [] && NewsRecorded(h, s, f, l) && g <= l && g < s[0].first
    ensures forall k, b :: 0 <= k < |h| && f <= b <= g ==> !Carries(h[k], b)
  {
    forall k, b | 0 <= k < |h| && f <= b <= g ensures !Carries(h[k], b) {
      CoversSplit(s, b);
    }
  }

  /** Where the walk of addseg stands: the bytes f.. of piece x are left, and all segments before s lie below f. */
  predicate Standing(s: seq<Seg>, shared: bool, x: Sending, f: int) {
    && x.first <= f <= x.last
    && (f == x.first || s == [] || f <= s[0].first + if shared then 1 else 0)
    && (shared && s != [] ==> f > s[0].first)
  }

  /** What the walk leaves at the head of the list: the same segment, or a new one from f on. */
  predicate HeadIs(s: seq<Seg>, w: seq<Seg>, x: Sending, f: int) {
    && w != []
    && (if s != [] && s[0].first <= f then w[0].first == s[0].first && w[0].last == s[0].last
        else w[0].first == f && f <= w[0].last <= x.last)
  }

  lemma PairInFront(h: seq<Sending>, x: Sending, s: seq<Seg>, p: Seg, w: seq<Seg>, f: int, shared: bool)
    requires Sorted(s) && s != [] && Told(h, s, shared) && HeadIs(s[1..], w, x, f) && x.first <= f <= x.last && f > s[0].last
    requires p.first == s[0].first && p.last == s[0].last
    ensures PairTold(h + [x], p, w[0]) && SharesNext([p] + w) == SharesNext(s)
  {
    if |s| > 1 && s[1].first <= f {
      PairStays(h, x, s[0], s[1]);
    } else {
      NewPair(h, x, p, w[0]);
    }
  }

  lemma PutInFront(h: seq<Sending>, x: Sending, s: seq<Seg>, p: Seg, w: seq<Seg>, f: int, shared: bool)
    requires Sorted(s) && s != [] && Told(h, s, shared) && HeadIs(s[1..], w, x, f) && x.first <= f <= x.last && f > s[0].last
    requires p.first == s[0].first && p.last == s[0].last
    requires SegTold(h + [x], p, shared, SharesNext(s)) && Told(h + [x], w, SharesNext(s))
    ensures Told(h + [x], [p] + w, shared)
  {
    PairInFront(h, x, s, p, w, f, shared);
    ConsTold(h + [x], p, w, shared);
  }

  /** The bytes f.. that lie before the first segment become a new one. */
  lemma NewInFront(h: seq<Sending>, x: Sending, s: seq<Seg>, w: seq<Seg>, f: int, l: int, ip: int, shared: bool)
    requires Sorted(s) && s != [] && Told(h, s, false) && x.first <= f <= l <= x.last && f < s[0].first && l <= s[0].first
    requires l == s[0].first ==> l == x.last
    requires NewsRecorded(h, s, f, x.last)
    requires w != [] && w[0].first == s[0].first && w[0].last == s[0].last && Told(h + [x], w, l == s[0].first)
    ensures Told(h + [x], [NewSeg(f, l, x.time, ip)] + w, shared)
  {
    var n := NewSeg(f, l, x.time, ip);
    if l < s[0].first { NewsBefore(h, s, f, x.last, l); }
    NewTold(h, x, f, l, ip, shared, l == s[0].first);
    NewPair(h, x, n, w[0]);
    ConsTold(h + [x], n, w, shared);
  }

  /** The list once its first segment is hit, where w stands beyond that segment. */
  function HitSeq(p: Seg, f: int, split: bool, now: int, ip: int, w: seq<Seg>): seq<Seg> {
    Before(p, f, now, ip) + ([Resend(p, split, now)] + w)
  }

  /** The first segment is hit, and what lies beyond it is as w says. */
  lemma TellHit(h: seq<Sending>, x: Sending, s: seq<Seg>, shared: bool, f: int, split: bool, ip: int, w: seq<Seg>)
    requires Sorted(s) && s != [] && Told(h, s, shared) && Standing(s, shared, x, f) && NewsRecorded(h, s, f, x.last)
    requires f <= s[0].last && !(f < s[0].first && x.last <= s[0].first)
    requires Told(h + [x], [Resend(s[0], split, x.time)] + w, shared)
    ensures Told(h + [x], HitSeq(s[0], f, split, x.time, ip, w), shared)
    ensures HeadIs(s, HitSeq(s[0], f, split, x.time, ip, w), x, f)
  {
    if f < s[0].first {
      NewInFront(h, x, s, [Resend(s[0], split, x.time)] + w, f, s[0].first - 1, ip, shared);
    } else {
      assert HitSeq(s[0], f, split, x.time, ip, w) == [Resend(s[0], split, x.time)] + w;
    }
  }

  /** The walk at a segment that lies below what is left of the piece. w is what becomes of the segments beyond it. */
  lemma TellSkip(h: seq<Sending>, x: Sending, s: seq<Seg>, shared: bool, f: int, w: seq<Seg>)
    requires Sorted(s) && s != [] && Told(h, s, shared) && Standing(s, shared, x, f) && f > s[0].last
    requires Told(h + [x], w, SharesNext(s)) && HeadIs(s[1..], w, x, f)
    ensures Told(h + [x], [s[0]] + w, shared) && HeadIs(s, [s[0]] + w, x, f)
  {
    SegStays(h, x, s[0], shared, SharesNext(s));
    PutInFront(h, x, s, s[0], w, f, shared);
  }

  /** Where the walk stands after it has gone beyond the first segment. */
  lemma StandingBeyond(s: seq<Seg>, shared: bool, x: Sending, f: int, g: int)
    requires Sorted(s) && s != [] && Standing(s, shared, x, f) && f <= g <= x.last && s[0].last < g
    requires g == f || g == s[0].last + 1
    ensures Standing(s[1..], SharesNext(s), x, g)
  {
  }

  /** The walk at a segment in which the piece ends. */
  lemma TellInside(h: seq<Sending>, x: Sending, s: seq<Seg>, shared: bool, split: bool)
    requires Sorted(s) && s != [] && Told(h, s, shared) && Overlaps(x, s[0].first, s[0].last) && End(x) <= s[0].last
    ensures Told(h + [x], [Resend(s[0], split, x.time)] + s[1..], shared)
  {
    SegHit(h, x, s[0], shared, SharesNext(s), split, x.time);
    TailStays(h, x, s[1..], SharesNext(s));
    if |s| > 1 { PairStays(h, x, s[0], s[1]); }
    ConsTold(h + [x], Resend(s[0], split, x.time), s[1..], shared);
  }

  /** The walk at a segment beyond which the piece goes on. */
  lemma TellBeyond(h: seq<Sending>, x: Sending, s: seq<Seg>, shared: bool, split: bool, w: seq<Seg>)
    requires Sorted(s) && s != [] && Told(h, s, shared) && x.first <= s[0].last < x.last
    requires Told(h + [x], w, SharesNext(s)) && HeadIs(s[1..], w, x, s[0].last + 1)
    ensures Told(h + [x], [Resend(s[0], split, x.time)] + w, shared)
  {
    SegHit(h, x, s[0], shared, SharesNext(s), split, x.time);
    PutInFront(h, x, s, Resend(s[0], split, x.time), w, s[0].last + 1, shared);
  }

  /** The walk at a segment that starts where the piece ends, or later. */
  lemma TellBefore(h: seq<Sending>, x: Sending, s: seq<Seg>, shared: bool, f: int, ip: int)
    requires Sorted(s) && s != [] && Told(h, s, shared) && Standing(s, shared, x, f) && NewsRecorded(h, s, f, x.last)
    requires f < s[0].first && x.last <= s[0].first
    ensures Told(h + [x], [NewSeg(f, x.last, x.time, ip)] + s, shared)
  {
    SharedTold(h, s, x.last == s[0].first);
    TailStays(h, x, s, x.last == s[0].first);
    NewInFront(h, x, s, s, f, x.last, ip, shared);
  }

  /** The walk at the end of the list. */
  lemma TellEnd(h: seq<Sending>, x: Sending, shared: bool, f: int, ip: int)
    requires x.first <= f <= x.last && NewsRecorded(h, [], f, x.last)
    ensures Told(h + [x], [NewSeg(f, x.last, x.time, ip)], shared)
  {
    forall k, b | 0 <= k < |h| && f <= b <= x.last ensures !Carries(h[k], b) {
      assert !Covers([], b);
    }
    NewTold(h, x, f, x.last, ip, shared, false);
  }

  /** A walk that ends at the first segment. */
  lemma TellStop(h: seq<Sending>, x: Sending, s: seq<Seg>, shared: bool, f: int, split: bool, ip: int)
    requires Sorted(s) && s != [] && Told(h, s, shared) && Standing(s, shared, x, f) && NewsRecorded(h, s, f, x.last)
    requires f <= s[0].last && !(f < s[0].first && x.last <= s[0].first) && x.last <= s[0].last
    ensures var v := HitSeq(s[0], f, split, x.time, ip, s[1..]); Told(h + [x], v, shared) && HeadIs(s, v, x, f)
  {
    TellInside(h, x, s, shared, split);
    TellHit(h, x, s, shared, f, split, ip, s[1..]);
  }

  /** A walk that hits the first segment and goes on beyond it. */
  lemma TellGoOn(h: seq<Sending>, x: Sending, s: seq<Seg>, shared: bool, f: int, split: bool, ip: int, w: seq<Seg>)
    requires Sorted(s) && s != [] && Told(h, s, shared) && Standing(s, shared, x, f) && NewsRecorded(h, s, f, x.last)
    requires f <= s[0].last < x.last && Told(h + [x], w, SharesNext(s)) && HeadIs(s[1..], w, x, s[0].last + 1)
    ensures var v := HitSeq(s[0], f, split, x.time, ip, w); Told(h + [x], v, shared) && HeadIs(s, v, x, f)
  {
    TellBeyond(h, x, s, shared, split, w);
    TellHit(h, x, s, shared, f, split, ip, w);
  }

  /** The list that the walk leaves, by the branch it takes at the first segment. */
  lemma WalkLists(s: seq<Seg>, f: int, l: int, split: bool, now: int, ip: int)
    ensures var v := Walk(s, f, l, split, now, ip).list;
            if s == [] then v == [NewSeg(f, l, now, ip)]
            else if f > s[0].last then v == [s[0]] + Walk(s[1..], f, l, split, now, ip).list
            else if f < s[0].first && l <= s[0].first then v == [NewSeg(f, l, now, ip)] + s
            else v == HitSeq(s[0], f, split, now, ip, if l <= s[0].last then s[1..]
                                                      else Walk(s[1..], s[0].last + 1, l, true, now, ip).list)
  {
    if s != [] && f <= s[0].last && !(f < s[0].first && l <= s[0].first) {
      var rest := if l <= s[0].last then Added(s[1..], 0, false, false) else Walk(s[1..], s[0].last + 1, l, true, now, ip);
      assert Before(s[0], f, now, ip) + [Resend(s[0], split, now)] + rest.list
          == HitSeq(s[0], f, split, now, ip, rest.list);
    }
  }

  /** The walk leaves the list v. */
  lemma {:induction false} TellWalk(h: seq<Sending>, x: Sending, s: seq<Seg>, shared: bool, f: int, split: bool, ip: int,
                                    v: seq<Seg>)
    requires Sorted(s) && Told(h, s, shared) && Standing(s, shared, x, f) && NewsRecorded(h, s, f, x.last)
    requires v == Walk(s, f, x.last, split, x.time, ip).list
    ensures Told(h + [x], v, shared) && HeadIs(s, v, x, f)
    decreases |s|
  {
    WalkLists(s, f, x.last, split, x.time, ip);
    if s == [] {
      TellEnd(h, x, shared, f, ip);
    } else if f > s[0].last {
      TellWalkSkip(h, x, s, shared, f, split, ip);
    } else if f < s[0].first && x.last <= s[0].first {
      TellBefore(h, x, s, shared, f, ip);
    } else if x.last <= s[0].last {
      TellStop(h, x, s, shared, f, split, ip);
    } else {
      TellWalkOn(h, x, s, shared, f, split, ip);
    }
  }

  lemma TellWalkSkip(h: seq<Sending>, x: Sending, s: seq<Seg>, shared: bool, f: int, split: bool, ip: int)
    requires Sorted(s) && s != [] && Told(h, s, shared) && Standing(s, shared, x, f) && NewsRecorded(h, s, f, x.last)
    requires f > s[0].last
    ensures var v := [s[0]] + Walk(s[1..], f, x.last, split, x.time, ip).list;
            Told(h + [x], v, shared) && HeadIs(s, v, x, f)
    decreases |s|, 0
  {
    var w := Walk(s[1..], f, x.last, split, x.time, ip).list;
    StandingBeyond(s, shared, x, f, f);
    NewsInRest(h, s, f, f, x.last);
    TellWalk(h, x, s[1..], SharesNext(s), f, split, ip, w);
    TellSkip(h, x, s, shared, f, w);
  }

  lemma TellWalkOn(h: seq<Sending>, x: Sending, s: seq<Seg>, shared: bool, f: int, split: bool, ip: int)
    requires Sorted(s) && s != [] && Told(h, s, shared) && Standing(s, shared, x, f) && NewsRecorded(h, s, f, x.last)
    requires f <= s[0].last < x.last
    ensures var v := HitSeq(s[0], f, split, x.time, ip, Walk(s[1..], s[0].last + 1, x.last, true, x.time, ip).list);
            Told(h + [x], v, shared) && HeadIs(s, v, x, f)
    decreases |s|, 0
  {
    var g := s[0].last + 1;
    var w := Walk(s[1..], g, x.last, true, x.time, ip).list;
    StandingBeyond(s, shared, x, f, g);
    NewsInRest(h, s, f, g, x.last);
    TellWalk(h, x, s[1..], SharesNext(s), g, true, ip, w);
    TellGoOn(h, x, s, shared, f, split, ip, w);
  }

  /** A piece that ends before it starts, on a recorded byte. */
  lemma {:induction false} TellBackward(h: seq<Sending>, x: Sending, s: seq<Seg>, shared: bool, ip: int)
    requires Sorted(s) && Told(h, s, shared) && x.last < x.first && Covers(s, x.first)
    requires shared ==> x.first > s[0].first
    ensures Told(h + [x], Walk(s, x.first, x.last, false, x.time, ip).list, shared)
    decreases |s|
  {
    CoversWithin(s, x.first);
    if x.first > s[0].last {
      CoversWithin(s[1..], x.first);
      TellBackward(h, x, s[1..], SharesNext(s), ip);
      WalkBackwardHead(s[1..], x, ip);
      SegStays(h, x, s[0], shared, SharesNext(s));
      PairStays(h, x, s[0], s[1]);
      ConsTold(h + [x], s[0], Walk(s[1..], x.first, x.last, false, x.time, ip).list, shared);
    } else {
      TellInside(h, x, s, shared, false);
      HitList(s[0], x.first, x.last, false, x.time, ip, Added(s[1..], 0, false, false));
    }
  }

  lemma WalkBackwardHead(s: seq<Seg>, x: Sending, ip: int)
    requires Sorted(s) && s != [] && x.last < x.first && s[0].first <= x.first
    ensures var w := Walk(s, x.first, x.last, false, x.time, ip).list;
            w != [] && w[0].first == s[0].first && w[0].last == s[0].last
  {
    if x.first <= s[0].last {
      HitList(s[0], x.first, x.last, false, x.time, ip, Added(s[1..], 0, false, false));
    }
  }

  // ---- eviction, collapse and acks ----

  /** A segment widened by an eviction holds the last byte of the evicted one, which another piece brought. */
  lemma EvictTold(h: seq<Sending>, s: seq<Seg>)
    requires Sorted(s) && |s| >= 2 && Told(h, s, false)
    ensures Told(h, Evict(s), false)
  {
    var p := s[1].(first := s[0].first);
    assert s[1..][1..] == s[2..] && Evict(s) == [p] + s[2..];
    assert Told(h, s[1..], SharesNext(s));
    HitsWider(h, s[0].last, s[1].last, s[0].first, s[1].last);
    ConsTold(h, p, s[2..], false);
  }

  lemma {:induction false} CollapseTold(h: seq<Sending>, s: seq<Seg>, shared: bool)
    requires Sorted(s) && Told(h, s, shared)
    ensures var c := Collapse(s);
            && Told(h, c, shared)
            && (s != [] ==> c != [] && c[0].first == s[0].first && c[0].last >= s[0].last)
            && (s != [] && s[0].acked == 0 ==> c == s)
    decreases |s|
  {
    if |s| <= 1 || s[0].acked == 0 {
    } else if Mergeable(s[0], s[1]) {
      MergeStep(s);
      MergeTold(h, s, shared);
      CollapseTold(h, [Merge(s[0], s[1])] + s[2..], shared);
    } else {
      CollapseTold(h, s[1..], SharesNext(s));
      var c := Collapse(s[1..]);
      HitsWider(h, s[0].last, s[1].last, s[0].last, c[0].last);
      ConsTold(h, s[0], c, shared);
    }
  }

  lemma MergeTold(h: seq<Sending>, s: seq<Seg>, shared: bool)
    requires Sorted(s) && |s| > 1 && Told(h, s, shared) && Mergeable(s[0], s[1])
    ensures Told(h, [Merge(s[0], s[1])] + s[2..], shared)
  {
    var m := Merge(s[0], s[1]);
    assert s[1..][1..] == s[2..];
    assert Told(h, s[1..], SharesNext(s));
    HitsWider(h, s[0].first, s[0].last, m.first, m.last);
    ConsTold(h, m, s[2..], shared);
  }

  lemma {:induction false} RaisedTold(h: seq<Sending>, s: seq<Seg>, t: seq<Seg>, shared: bool)
    requires Told(h, s, shared) && Raised(s, t)
    ensures Told(h, t, shared)
    decreases |s|
  {
    if s != [] {
      assert t[0] == s[0].(acked := t[0].acked);
      if |s| > 1 { assert t[1] == s[1].(acked := t[1].acked); }
      assert Raised(s[1..], t[1..]) by {
        forall i | 0 <= i < |s| - 1 ensures t[1..][i].acked >= s[1..][i].acked && t[1..][i] == s[1..][i].(acked := t[1..][i].acked) {
          assert s[1..][i] == s[i + 1] && t[1..][i] == t[i + 1];
        }
      }
      RaisedTold(h, s[1..], t[1..], SharesNext(s));
      if Brought(h, s[0]) {
        var k: nat :| BroughtBy(h, k, s[0]);
        assert BroughtBy(h, k, t[0]);
      }
    }
  }

  // ---- one call of addseg ----

  lemma AddSegTold(h: seq<Sending>, s: seq<Seg>, x: Sending, ip: int)
    requires Sorted(s) && QuadTold(h, s) && x.first <= x.last
    ensures QuadTold(h + [x], AddSeg(s, x.first, x.last, x.time, ip).list)
  {
    var r := Insert(s, x.first, x.last, x.time, ip);
    InsertIsWalk(s, x.first, x.last, x.time, ip);
    TellWalk(h, x, s, false, x.first, false, ip, Walk(s, x.first, x.last, false, x.time, ip).list);
    WalkKeepsOrder(s, x.first, x.last, false, x.time, ip);
    if MustEvict(r) { EvictTold(h + [x], r.list); }
    forall k, b | 0 <= k < |h| + 1 && Carries((h + [x])[k], b)
      ensures Covers(AddSeg(s, x.first, x.last, x.time, ip).list, b)
    {
      AddSegCovers(s, x.first, x.last, x.time, ip, b);
    }
  }

  /** The segment that a list entry tells about, by position. */
  lemma {:induction false} ToldAt(h: seq<Sending>, s: seq<Seg>, shared: bool, i: nat)
    requires Told(h, s, shared) && i < |s|
    ensures SegTold(h, s[i], if i == 0 then shared else s[i - 1].last == s[i].first, i + 1 < |s| && s[i].last == s[i + 1].first)
    ensures i + 1 < |s| ==> PairTold(h, s[i], s[i + 1])
    ensures i > 0 ==> PairTold(h, s[i - 1], s[i])
    decreases i
  {
    if i > 0 { ToldAt(h, s[1..], SharesNext(s), i - 1); }
  }

  // ---- what a segment tells ----

  lemma OnceMeansOneHit(h: seq<Sending>, k: nat, p: Seg)
    requires p.first <= p.last && SentOnceBy(h, k, p)
    ensures Hits(h, p.first, p.last) == 1
  {
    assert Carries(h[k], p.first);
    forall j | 0 <= j < |h| && j != k ensures !Overlaps(h[j], p.first, p.last) {
      if h[j].first <= p.last { assert !Carries(h[j], if h[j].first < p.first then p.first else h[j].first); }
    }
    HitsBut(h, k, p.first, p.last);
  }

  lemma OneHitMeansOnce(h: seq<Sending>, k: nat, p: Seg)
    requires p.first <= p.last && k < |h| && h[k].first <= p.first && p.last <= End(h[k]) && Hits(h, p.first, p.last) == 1
    ensures SentOnceBy(h, k, p)
  {
    HitsBut(h, k, p.first, p.last);
    forall j, b | 0 <= j < |h| && j != k && p.first <= b <= p.last ensures !Carries(h[j], b) {
      assert !Overlaps(h[j], p.first, p.last);
    }
  }

  /** A segment that was widened or that shares a byte was hit by two pieces at least. */
  lemma NotIntactMeansTwoHits(h: seq<Sending>, s: seq<Seg>, i: nat)
    requires Sorted(s) && Told(h, s, false) && i < |s| && s[i].first <= s[i].last && !Intact(s, i)
    ensures Hits(h, s[i].first, s[i].last) >= 2
  {
    var p := s[i];
    ToldAt(h, s, false, i);
    if i > 0 { SortedPairs(s, i - 1, i); }
    if i + 1 < |s| { SortedPairs(s, i, i + 1); }
    HitsWider(h, p.first, p.first, p.first, p.last);
    HitsWider(h, p.last, p.last, p.first, p.last);
  }

  /**
   The segment that is not acked was sent once as a whole exactly if it is intact and was never counted as resent; then its
   time is that of the only piece that carried it. If it is intact, it was counted as resent by every piece but the first.
   */
  lemma OnceIffIntact(h: seq<Sending>, s: seq<Seg>, i: nat)
    requires Sorted(s) && Told(h, s, false) && i < |s| && s[i].acked == 0 && s[i].first <= s[i].last
    ensures SentOnce(h, s[i]) <==> Intact(s, i) && s[i].resent == 0
    ensures Intact(s, i) ==> Hits(h, s[i].first, s[i].last) == 1 + s[i].resent
    ensures forall k: nat :: Intact(s, i) && SentOnceBy(h, k, s[i]) ==> h[k].time == s[i].created
  {
    var p := s[i];
    ToldAt(h, s, false, i);
    if Intact(s, i) {
      var k: nat :| BroughtBy(h, k, p);
      if p.resent == 0 { OneHitMeansOnce(h, k, p); }
      forall j: nat | SentOnceBy(h, j, p) ensures h[j].time == p.created {
        assert Carries(h[k], p.first);
      }
    } else {
      NotIntactMeansTwoHits(h, s, i);
    }
    forall k: nat | SentOnceBy(h, k, p) ensures Hits(h, p.first, p.last) == 1 {
      OnceMeansOneHit(h, k, p);
    }
  }
}
