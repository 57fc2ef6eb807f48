/** What addseg means for the set of recorded bytes, for the order of the list and for the byte count it returns. */
module SegmentCoverage {
  import opened SequenceNumbers
  import opened SegmentList

  /** Byte b is recorded by one of the segments of the list. */
  predicate Covers(s: seq<Seg>, b: int) {
    s != [] && (s[0].first <= b <= s[0].last || Covers(s[1..], b))
  }

  /** How many of the bytes f..l are recorded. */
  function Known(s: seq<Seg>, f: int, l: int): nat
    decreases l - f + 1
  {
    if f > l then 0 else (if Covers(s, f) then 1 else 0) + Known(s, f + 1, l)
  }

  /** The order every segment list keeps. Neighbours may share one byte, never more. */
  predicate Sorted(s: seq<Seg>) {
    s != [] ==>
      && s[0].first <= s[0].last
      && (|s| > 1 ==> s[0].first < s[1].first && s[0].last <= s[1].first)
      && Sorted(s[1..])
  }

  /** A new segment f..l ends exactly on the first byte of a recorded run. */
  predicate Touches(s: seq<Seg>, f: int, l: int) {
    f < l && Covers(s, l) && !Covers(s, l - 1)
  }

  function Touch(s: seq<Seg>, f: int, l: int): nat {
    if Touches(s, f, l) then 1 else 0
  }

  // ---- recorded bytes ----

  lemma {:induction false} CoversIndex(s: seq<Seg>, i: nat, b: int)
    requires i < |s| && s[i].first <= b <= s[i].last
    ensures Covers(s, b)
  {
    if i > 0 { CoversIndex(s[1..], i - 1, b); }
  }

  lemma {:induction false} CoversWitness(s: seq<Seg>, b: int) returns (i: nat)
    requires Covers(s, b)
    ensures i < |s| && s[i].first <= b <= s[i].last
  {
    if s[0].first <= b <= s[0].last {
      i := 0;
    } else {
      i := CoversWitness(s[1..], b);
      i := i + 1;
    }
  }

  lemma {:induction false} CoversConcat(s: seq<Seg>, t: seq<Seg>, b: int)
    ensures Covers(s + t, b) <==> Covers(s, b) || Covers(t, b)
  {
    if s == [] {
      assert s + t == t;
    } else {
      CoversConcat(s[1..], t, b);
      assert (s + t)[1..] == s[1..] + t;
    }
  }

  lemma {:induction false} CoversWithin(s: seq<Seg>, b: int)
    requires Sorted(s) && Covers(s, b)
    ensures s[0].first <= b <= s[|s| - 1].last
  {
    if Covers(s[1..], b) {
      CoversWithin(s[1..], b);
    } else {
      TailIsLast(s);
    }
  }

  lemma {:induction false} TailIsLast(s: seq<Seg>)
    requires Sorted(s) && s != []
    ensures s[0].last <= s[|s| - 1].last
  {
    if |s| > 1 { TailIsLast(s[1..]); }
  }

  /** Sorted says of any two segments what it says of neighbours. */
  lemma {:induction false} SortedPairs(s: seq<Seg>, i: nat, j: nat)
    requires Sorted(s) && i < j < |s|
    ensures s[i].first <= s[i].last
    ensures s[i].first < s[j].first && s[i].last <= s[j].first
  {
    if i > 0 {
      SortedPairs(s[1..], i - 1, j - 1);
    } else if j > 1 {
      SortedPairs(s[1..], 0, j - 1);
    }
  }

  lemma {:induction false} KnownSplit(s: seq<Seg>, f: int, m: int, l: int)
    requires f <= m + 1 && m <= l
    ensures Known(s, f, l) == Known(s, f, m) + Known(s, m + 1, l)
    decreases m - f + 1
  {
    if f <= m { KnownSplit(s, f + 1, m, l); }
  }

  lemma {:induction false} KnownAgrees(s: seq<Seg>, t: seq<Seg>, f: int, l: int)
    requires forall b | f <= b <= l :: Covers(s, b) == Covers(t, b)
    ensures Known(s, f, l) == Known(t, f, l)
    decreases l - f + 1
  {
    if f <= l { KnownAgrees(s, t, f + 1, l); }
  }

  lemma {:induction false} KnownAll(s: seq<Seg>, f: int, l: int)
    requires f <= l + 1
    requires forall b | f <= b <= l :: Covers(s, b)
    ensures Known(s, f, l) == l - f + 1
    decreases l - f + 1
  {
    if f <= l { KnownAll(s, f + 1, l); }
  }

  // ---- the walk ----

  /** Bytes below the first segment are not recorded; bytes beyond it are those of the rest. */
  lemma CoversSplit(s: seq<Seg>, b: int)
    requires Sorted(s) && s != []
    ensures b < s[0].first ==> !Covers(s, b)
    ensures b > s[0].last ==> Covers(s, b) == Covers(s[1..], b)
    ensures b < s[0].last ==> !Covers(s[1..], b)
  {
    if Covers(s[1..], b) { CoversWithin(s[1..], b); }
  }

  lemma KnownSkip(s: seq<Seg>, f: int, l: int)
    requires Sorted(s) && s != [] && s[0].last < f
    ensures Known(s, f, l) == Known(s[1..], f, l)
    ensures f <= l ==> Touch(s, f, l) == Touch(s[1..], f, l)
  {
    forall b | f - 1 < b ensures Covers(s, b) == Covers(s[1..], b) { CoversSplit(s, b); }
    KnownAgrees(s, s[1..], f, l);
  }

  lemma KnownBefore(s: seq<Seg>, f: int, l: int)
    requires Sorted(s) && s != [] && f <= l < s[0].first
    ensures Known(s, f, l) == 0
  {
    forall b | f <= b <= l ensures !Covers(s, b) { CoversSplit(s, b); }
    KnownAgrees(s, [], f, l);
    KnownNothing(f, l);
  }

  lemma {:induction false} KnownNothing(f: int, l: int)
    ensures Known([], f, l) == 0
    decreases l - f + 1
  {
    if f <= l { KnownNothing(f + 1, l); }
  }

  /** The bytes of the range that reach into the first segment, and those beyond it. */
  lemma KnownHit(s: seq<Seg>, f: int, l: int)
    requires Sorted(s) && s != [] && f <= l && f <= s[0].last && s[0].first <= l
    ensures var p := s[0];
            var f1 := if f < p.first then p.first else f;
            if l <= p.last then Known(s, f, l) == l - f1 + 1
            else Known(s, f, l) == p.last - f1 + 1 + Known(s[1..], p.last + 1, l)
  {
    var p := s[0];
    var f1 := if f < p.first then p.first else f;
    if f < p.first {
      KnownSplit(s, f, p.first - 1, l);
      KnownBefore(s, f, p.first - 1);
    }
    if l <= p.last {
      KnownAll(s, f1, l);
    } else {
      KnownSplit(s, f1, p.last, l);
      KnownAll(s, f1, p.last);
      KnownSkip(s, p.last + 1, l);
    }
  }

  lemma TouchHit(s: seq<Seg>, f: int, l: int)
    requires Sorted(s) && s != [] && f <= l && f <= s[0].last && s[0].first <= l
    requires !(f < s[0].first && l == s[0].first)
    ensures Touch(s, f, l) == if l <= s[0].last then 0 else Touch(s[1..], s[0].last + 1, l)
  {
    CoversSplit(s, l);
    CoversSplit(s, l - 1);
  }

  /** Walk returns the number of bytes it already knew, less one for a touch. */
  lemma {:induction false} WalkCounts(s: seq<Seg>, f: int, l: int, split: bool, now: int, ip: int)
    requires Sorted(s) && f <= l
    ensures Walk(s, f, l, split, now, ip).bytes == Known(s, f, l) - Touch(s, f, l)
    decreases |s|
  {
    if s == [] {
      KnownNothing(f, l);
    } else if f > s[0].last {
      WalkCounts(s[1..], f, l, split, now, ip);
      KnownSkip(s, f, l);
    } else if f < s[0].first && l <= s[0].first {
      WalkTouches(s, f, l);
    } else {
      KnownHit(s, f, l);
      TouchHit(s, f, l);
      if l > s[0].last { WalkCounts(s[1..], s[0].last + 1, l, true, now, ip); }
    }
  }

  lemma WalkTouches(s: seq<Seg>, f: int, l: int)
    requires Sorted(s) && s != [] && f <= l && f < s[0].first && l <= s[0].first
    ensures Known(s, f, l) == Touch(s, f, l)
  {
    if l < s[0].first {
      KnownBefore(s, f, l);
      CoversSplit(s, l);
    } else {
      KnownSplit(s, f, l - 1, l);
      KnownBefore(s, f, l - 1);
      CoversSplit(s, l - 1);
    }
  }

  /** Walk records the new bytes and nothing else. */
  lemma {:induction false} WalkCovers(s: seq<Seg>, f: int, l: int, split: bool, now: int, ip: int, b: int)
    requires f <= l
    ensures Covers(Walk(s, f, l, split, now, ip).list, b) <==> Covers(s, b) || f <= b <= l
    decreases |s|
  {
    if s == [] {
    } else if f > s[0].last {
      WalkCovers(s[1..], f, l, split, now, ip, b);
    } else if f < s[0].first && l <= s[0].first {
      assert ([NewSeg(f, l, now, ip)] + s)[1..] == s;
    } else if l <= s[0].last {
      HitCovers(s[0], f, l, split, now, ip, Added(s[1..], 0, false, false), b);
    } else {
      WalkCovers(s[1..], s[0].last + 1, l, true, now, ip, b);
      HitCovers(s[0], f, l, split, now, ip, Walk(s[1..], s[0].last + 1, l, true, now, ip), b);
    }
  }

  lemma HitCovers(p: Seg, f: int, l: int, split: bool, now: int, ip: int, rest: Added, b: int)
    ensures Covers(Hit(p, f, l, split, now, ip, rest).list, b)
       <==> p.first <= b <= p.last || f <= b < p.first || Covers(rest.list, b)
  {
    var tail := [Resend(p, split, now)] + rest.list;
    assert tail[1..] == rest.list;
    assert Hit(p, f, l, split, now, ip, rest).list == Before(p, f, now, ip) + tail;
    CoversConcat(Before(p, f, now, ip), tail, b);
  }

  // ---- order ----

  lemma ConsSorted(p: Seg, t: seq<Seg>)
    requires p.first <= p.last && Sorted(t)
    requires t != [] ==> p.first < t[0].first && p.last <= t[0].first
    ensures Sorted([p] + t)
  {
    assert ([p] + t)[1..] == t;
  }

  lemma {:induction false} WalkKeepsOrder(s: seq<Seg>, f: int, l: int, split: bool, now: int, ip: int)
    requires Sorted(s) && f <= l
    ensures var w := Walk(s, f, l, split, now, ip).list;
            Sorted(w) && w != [] && w[0].first == if s != [] && s[0].first < f then s[0].first else f
    decreases |s|
  {
    if s == [] {
    } else if f > s[0].last {
      WalkKeepsOrder(s[1..], f, l, split, now, ip);
      ConsSorted(s[0], Walk(s[1..], f, l, split, now, ip).list);
    } else if f < s[0].first && l <= s[0].first {
      ConsSorted(NewSeg(f, l, now, ip), s);
    } else if l <= s[0].last {
      HitKeepsOrder(s[0], f, l, split, now, ip, Added(s[1..], 0, false, false));
    } else {
      WalkKeepsOrder(s[1..], s[0].last + 1, l, true, now, ip);
      HitKeepsOrder(s[0], f, l, split, now, ip, Walk(s[1..], s[0].last + 1, l, true, now, ip));
    }
  }

  lemma HitList(p: Seg, f: int, l: int, split: bool, now: int, ip: int, rest: Added)
    ensures var tail := [Resend(p, split, now)] + rest.list;
            Hit(p, f, l, split, now, ip, rest).list == if f < p.first then [NewSeg(f, p.first - 1, now, ip)] + tail else tail
  {
    var tail := [Resend(p, split, now)] + rest.list;
    assert Hit(p, f, l, split, now, ip, rest).list == Before(p, f, now, ip) + tail;
    assert [] + tail == tail;
  }

  lemma HitKeepsOrder(p: Seg, f: int, l: int, split: bool, now: int, ip: int, rest: Added)
    requires p.first <= p.last && Sorted(rest.list)
    requires rest.list != [] ==> p.first < rest.list[0].first && p.last <= rest.list[0].first
    ensures var w := Hit(p, f, l, split, now, ip, rest).list;
            Sorted(w) && w != [] && w[0].first == if p.first < f then p.first else f
  {
    var r := Resend(p, split, now);
    var tail := [r] + rest.list;
    assert Sorted(tail) && tail[0] == r by {
      ConsSorted(r, rest.list);
    }
    HitList(p, f, l, split, now, ip, rest);
    if f < p.first {
      ConsSorted(NewSeg(f, p.first - 1, now, ip), tail);
    }
  }

  /** The shortcut over the tail does what the walk would have done. */
  lemma InsertIsWalk(s: seq<Seg>, f: int, l: int, now: int, ip: int)
    requires Sorted(s)
    ensures Insert(s, f, l, now, ip) == Walk(s, f, l, false, now, ip)
  {
    if s != [] && f > s[|s| - 1].last {
      WalkToTheEnd(s, f, l, now, ip);
    }
  }

  lemma {:induction false} WalkToTheEnd(s: seq<Seg>, f: int, l: int, now: int, ip: int)
    requires Sorted(s)
    requires s != [] ==> f > s[|s| - 1].last
    ensures Walk(s, f, l, false, now, ip) == Added(s + [NewSeg(f, l, now, ip)], 0, false, true)
    decreases |s|
  {
    if s != [] {
      TailIsLast(s);
      WalkToTheEnd(s[1..], f, l, now, ip);
      assert [s[0]] + (s[1..] + [NewSeg(f, l, now, ip)]) == s + [NewSeg(f, l, now, ip)];
    }
  }

  // ---- eviction ----

  lemma EvictionKeepsOrder(s: seq<Seg>)
    requires Sorted(s) && |s| >= 2
    ensures Sorted(Evict(s))
  {
    ConsSorted(s[1].(first := s[0].first), s[2..]);
  }

  /** Eviction forgets no byte and adds those between the two oldest segments. */
  lemma EvictionFillsGap(s: seq<Seg>, b: int)
    requires Sorted(s) && |s| >= 2
    ensures Covers(Evict(s), b) <==> Covers(s, b) || s[0].last < b < s[1].first
  {
    assert Evict(s)[1..] == s[2..];
    assert s[1..][1..] == s[2..];
  }

  /** Byte b lies in the gap that this call of addseg swallows; there is none unless it evicts. */
  predicate InGap(s: seq<Seg>, f: int, l: int, now: int, ip: int, b: int) {
    var r := Insert(s, f, l, now, ip);
    MustEvict(r) && r.list[0].last < b < r.list[1].first
  }

  lemma AddSegKeepsOrder(s: seq<Seg>, f: int, l: int, now: int, ip: int)
    requires Sorted(s) && f <= l
    ensures Sorted(AddSeg(s, f, l, now, ip).list)
  {
    InsertIsWalk(s, f, l, now, ip);
    WalkKeepsOrder(s, f, l, false, now, ip);
    var r := Insert(s, f, l, now, ip);
    if MustEvict(r) { EvictionKeepsOrder(r.list); }
  }

  lemma AddSegCovers(s: seq<Seg>, f: int, l: int, now: int, ip: int, b: int)
    requires Sorted(s) && f <= l
    ensures Covers(AddSeg(s, f, l, now, ip).list, b) <==> Covers(s, b) || f <= b <= l || InGap(s, f, l, now, ip, b)
  {
    InsertIsWalk(s, f, l, now, ip);
    WalkCovers(s, f, l, false, now, ip, b);
    WalkKeepsOrder(s, f, l, false, now, ip);
    var r := Insert(s, f, l, now, ip);
    if MustEvict(r) { EvictionFillsGap(r.list, b); }
  }

  /** addseg reports the bytes of f..l that were already recorded, less one exactly when it touches its successor. */
  lemma AddSegCounts(s: seq<Seg>, f: int, l: int, now: int, ip: int)
    requires Sorted(s) && f <= l
    ensures AddSeg(s, f, l, now, ip).bytes == Known(s, f, l) - Touch(s, f, l)
  {
    InsertIsWalk(s, f, l, now, ip);
    WalkCounts(s, f, l, false, now, ip);
  }

  // ---- the same in terms of sets ----

  /** The set of recorded bytes. */
  function Bytes(s: seq<Seg>): (bytes: set<int>)
    ensures forall b :: b in bytes <==> Covers(s, b)
  {
    if s == [] then {} else Range(s[0].first, s[0].last) + Bytes(s[1..])
  }

  lemma {:induction false} KnownIsIntersection(s: seq<Seg>, f: int, l: int)
    ensures Known(s, f, l) == |Range(f, l) * Bytes(s)|
    decreases l - f + 1
  {
    if f <= l {
      KnownIsIntersection(s, f + 1, l);
      var rest := Range(f + 1, l) * Bytes(s);
      if Covers(s, f) {
        assert Range(f, l) * Bytes(s) == rest + {f};
      } else {
        assert Range(f, l) * Bytes(s) == rest;
      }
    } else {
      assert Range(f, l) * Bytes(s) == {};
    }
  }

  /** Exact byte accounting of addseg: what it returns and what is recorded afterwards. */
  lemma AddSegAccounts(s: seq<Seg>, f: int, l: int, now: int, ip: int)
    requires Sorted(s) && f <= l
    ensures var r := AddSeg(s, f, l, now, ip);
            && r.bytes == |Range(f, l) * Bytes(s)| - (if f < l && l in Bytes(s) && l - 1 !in Bytes(s) then 1 else 0)
            && (forall b :: b in Bytes(r.list) <==> b in Bytes(s) || b in Range(f, l) || InGap(s, f, l, now, ip, b))
  {
    AddSegCounts(s, f, l, now, ip);
    KnownIsIntersection(s, f, l);
    var r := AddSeg(s, f, l, now, ip);
    forall b ensures Covers(r.list, b) <==> Covers(s, b) || f <= b <= l || InGap(s, f, l, now, ip, b) {
      AddSegCovers(s, f, l, now, ip, b);
    }
  }

  // ---- the out-of-order flag ----

  /** Byte b of f..l is new, lies right before segment i, and that segment reaches beyond l. */
  predicate NewBefore(s: seq<Seg>, f: int, l: int, i: int, b: int) {
    0 <= i < |s| && f <= b <= l && b < s[i].first && (i == 0 || b > s[i - 1].last) && l < s[i].last
  }

  ghost predicate FillsHole(s: seq<Seg>, f: int, l: int) {
    exists i, b :: NewBefore(s, f, l, i, b)
  }

  /** The hole, seen from the rest of the list. */
  lemma HoleInRest(s: seq<Seg>, f: int, g: int, l: int)
    requires Sorted(s) && s != [] && l > s[0].last && g == (if f > s[0].last then f else s[0].last + 1)
    ensures FillsHole(s, f, l) <==> FillsHole(s[1..], g, l)
  {
    if FillsHole(s, f, l) {
      var i, b :| NewBefore(s, f, l, i, b);
      if i > 1 {
        SortedPairs(s, 0, i - 1);
        SortedPairs(s, i - 1, i);
      }
      assert NewBefore(s[1..], g, l, i - 1, b);
    }
    if FillsHole(s[1..], g, l) {
      var i, b :| NewBefore(s[1..], g, l, i, b);
      assert NewBefore(s, f, l, i + 1, b);
    }
  }

  /** A piece that does not reach beyond the first segment fills a hole only before it. */
  lemma HoleBeforeFirst(s: seq<Seg>, f: int, l: int)
    requires Sorted(s) && s != [] && f <= l <= s[0].last
    ensures FillsHole(s, f, l) <==> f < s[0].first && l < s[0].last
  {
    if f < s[0].first && l < s[0].last {
      assert NewBefore(s, f, l, 0, f);
    }
    if FillsHole(s, f, l) {
      var i, b :| NewBefore(s, f, l, i, b);
      if i > 1 {
        SortedPairs(s, 0, i - 1);
        SortedPairs(s, i - 1, i);
      }
    }
  }

  lemma {:induction false} WalkSeesHoles(s: seq<Seg>, f: int, l: int, split: bool, now: int, ip: int)
    requires Sorted(s) && f <= l
    ensures Walk(s, f, l, split, now, ip).outOfOrder <==> FillsHole(s, f, l)
    decreases |s|
  {
    if s == [] {
      assert !FillsHole(s, f, l);
    } else if l > s[0].last {
      HoleInRest(s, f, if f > s[0].last then f else s[0].last + 1, l);
      WalkSeesHoles(s[1..], if f > s[0].last then f else s[0].last + 1, l, if f > s[0].last then split else true, now, ip);
    } else {
      HoleBeforeFirst(s, f, l);
    }
  }

  /** addseg reports a segment out of order exactly when it brings a new byte right before a segment that reaches beyond it. */
  lemma OutOfOrderMeansHole(s: seq<Seg>, f: int, l: int, now: int, ip: int)
    requires Sorted(s) && f <= l
    ensures AddSeg(s, f, l, now, ip).outOfOrder <==> FillsHole(s, f, l)
  {
    InsertIsWalk(s, f, l, now, ip);
    WalkSeesHoles(s, f, l, false, now, ip);
  }
}
