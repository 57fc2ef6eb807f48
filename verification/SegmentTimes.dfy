/** The clocks of the segments: which ones a piece restarts, what a collapsed segment keeps, and what a list remembers of them. */
module SegmentTimes {
  import opened SegmentList
  import opened SegmentCoverage
  import opened SegmentAcks

  // ---- which clocks a piece restarts ----

  /** The first of the bytes f.. that are left when the walk comes to segment i. */
  function Left(s: seq<Seg>, i: int, f: int): int
    requires 0 <= i < |s|
  {
    if i > 0 && s[i - 1].last >= f then s[i - 1].last + 1 else f
  }

  /** The piece hits segment i. One that ends on the first byte of the segment hits it only if nothing of it is left before. */
  predicate IsHit(s: seq<Seg>, i: int, f: int, l: int)
    requires 0 <= i < |s|
  {
    var g := Left(s, i, f);
    g <= l && g <= s[i].last && s[i].first <= l && (l == s[i].first ==> g == l)
  }

  /** Segment i after the piece: one that is hit counts that, and the first one that is hit restarts its clock. */
  function AfterPiece(s: seq<Seg>, i: int, f: int, l: int, split: bool, now: int): Seg
    requires 0 <= i < |s|
  {
    if !IsHit(s, i, f, l) then s[i] else
      s[i].(retrans := (s[i].retrans + 1) % 256, resent := s[i].resent + 1,
            time := if !split && (i == 0 || s[i - 1].last < f) then now else s[i].time)
  }

  /** A segment of new bytes of the piece, but for a last byte that it may share. */
  predicate IsNew(s: seq<Seg>, p: Seg, f: int, l: int, now: int, ip: int) {
    && p == Seg(p.first, p.last, 0, 0, now, ip, 0, now, p.first) && f <= p.first <= p.last <= l
    && forall b :: p.first <= b < p.last ==> !Covers(s, b)
  }

  /** The list w has the segments of s, as the piece leaves them, and otherwise only new ones. */
  ghost predicate HasSegments(s: seq<Seg>, f: int, l: int, split: bool, now: int, ip: int, w: seq<Seg>) {
    && (forall i :: 0 <= i < |s| ==> AfterPiece(s, i, f, l, split, now) in w)
    && (forall p :: p in w ==> IsNew(s, p, f, l, now, ip) || exists i :: 0 <= i < |s| && p == AfterPiece(s, i, f, l, split, now))
  }

  lemma IsNewLater(s: seq<Seg>, p: Seg, f: int, g: int, l: int, now: int, ip: int)
    requires Sorted(s) && s != [] && IsNew(s[1..], p, g, l, now, ip) && f <= g && s[0].last < g
    ensures IsNew(s, p, f, l, now, ip)
  {
    forall b | p.first <= b < p.last ensures !Covers(s, b) { CoversSplit(s, b); }
  }

  /** The segments beyond the first one, when g.. is left of the piece there. */
  lemma AfterInRest(s: seq<Seg>, i: int, f: int, g: int, l: int, split: bool, after: bool, now: int)
    requires Sorted(s) && 0 < i < |s| && f <= l
    requires if f > s[0].last then g == f && after == split else g == s[0].last + 1 && after
    ensures AfterPiece(s, i, f, l, split, now) == AfterPiece(s[1..], i - 1, g, l, after, now)
  {
    var t := s[1..];
    assert t[i - 1] == s[i];
    SortedPairs(s, 0, i);
    if i > 1 {
      assert t[i - 2] == s[i - 1];
      SortedPairs(s, 0, i - 1);
      SortedPairs(s, i - 1, i);
    }
  }

  /** A list whose first segment becomes p, possibly after a new one, and whose rest becomes w. */
  lemma FrontSegments(s: seq<Seg>, front: seq<Seg>, f: int, g: int, l: int, split: bool, after: bool, now: int, ip: int, w: seq<Seg>)
    requires Sorted(s) && s != [] && f <= l && HasSegments(s[1..], g, l, after, now, ip, w)
    requires if f > s[0].last then g == f && after == split else g == s[0].last + 1 && after
    requires AfterPiece(s, 0, f, l, split, now) in front
    requires forall p :: p in front ==> p == AfterPiece(s, 0, f, l, split, now) || IsNew(s, p, f, l, now, ip)
    ensures HasSegments(s, f, l, split, now, ip, front + w)
  {
    forall i | 0 <= i < |s| ensures AfterPiece(s, i, f, l, split, now) in front + w {
      if i > 0 {
        AfterInRest(s, i, f, g, l, split, after, now);
        assert AfterPiece(s[1..], i - 1, g, l, after, now) in w;
      }
    }
    forall p | p in front + w
      ensures IsNew(s, p, f, l, now, ip) || exists i :: 0 <= i < |s| && p == AfterPiece(s, i, f, l, split, now)
    {
      if p !in front {
        if IsNew(s[1..], p, g, l, now, ip) {
          IsNewLater(s, p, f, g, l, now, ip);
        } else {
          var i :| 0 <= i < |s| - 1 && p == AfterPiece(s[1..], i, g, l, after, now);
          AfterInRest(s, i + 1, f, g, l, split, after, now);
        }
      }
    }
  }

  /** A piece that ends at or before the first segment leaves those beyond it as they are. */
  lemma RestUntouched(s: seq<Seg>, f: int, l: int, split: bool, now: int, ip: int)
    requires Sorted(s) && (s != [] ==> l < s[0].first || (l == s[0].first && f < l) || f > l)
    ensures HasSegments(s, f, l, split, now, ip, s)
  {
    forall i | 0 <= i < |s| ensures AfterPiece(s, i, f, l, split, now) == s[i] {
      if i > 0 { SortedPairs(s, 0, i); SortedPairs(s, i - 1, i); }
    }
  }

  /** The new segment before the first one. */
  lemma NewBeforeFirst(s: seq<Seg>, f: int, m: int, l: int, now: int, ip: int)
    requires Sorted(s) && s != [] && f <= m <= l && f < s[0].first && m <= s[0].first
    ensures IsNew(s, NewSeg(f, m, now, ip), f, l, now, ip)
  {
    forall b | f <= b < m ensures !Covers(s, b) { CoversWithinAll(s, b); }
  }

  lemma CoversWithinAll(s: seq<Seg>, b: int)
    requires Sorted(s) && s != [] && b < s[0].first
    ensures !Covers(s, b)
  {
    if Covers(s, b) { CoversWithin(s, b); }
  }

  lemma {:induction false} WalkTouches(s: seq<Seg>, f: int, l: int, split: bool, now: int, ip: int)
    requires Sorted(s) && f <= l
    ensures HasSegments(s, f, l, split, now, ip, Walk(s, f, l, split, now, ip).list)
    decreases |s|
  {
    if s == [] {
      assert IsNew(s, NewSeg(f, l, now, ip), f, l, now, ip);
    } else if f > s[0].last {
      WalkTouches(s[1..], f, l, split, now, ip);
      FrontSegments(s, [s[0]], f, f, l, split, split, now, ip, Walk(s[1..], f, l, split, now, ip).list);
    } else if f < s[0].first && l <= s[0].first {
      NewBeforeFirst(s, f, l, l, now, ip);
      RestUntouched(s, f, l, split, now, ip);
    } else {
      HitTouches(s, f, l, split, now, ip);
    }
  }

  lemma HitTouches(s: seq<Seg>, f: int, l: int, split: bool, now: int, ip: int)
    requires Sorted(s) && f <= l && s != [] && f <= s[0].last && !(f < s[0].first && l <= s[0].first)
    ensures HasSegments(s, f, l, split, now, ip, Walk(s, f, l, split, now, ip).list)
    decreases |s|, 0
  {
    var g := s[0].last + 1;
    var front := Before(s[0], f, now, ip) + [Resend(s[0], split, now)];
    if f < s[0].first { NewBeforeFirst(s, f, s[0].first - 1, l, now, ip); }
    assert Resend(s[0], split, now) == AfterPiece(s, 0, f, l, split, now);
    if l <= s[0].last {
      RestUntouched(s[1..], g, l, true, now, ip);
      FrontSegments(s, front, f, g, l, split, true, now, ip, s[1..]);
    } else {
      WalkTouches(s[1..], g, l, true, now, ip);
      FrontSegments(s, front, f, g, l, split, true, now, ip, Walk(s[1..], g, l, true, now, ip).list);
    }
  }

  /**
   What addseg does to the segments, up to an eviction: the first one that the piece hits restarts its clock, all that it hits
   count a resend, the others stay as they are, and whatever else is in the list is new.
   */
  lemma InsertTouches(s: seq<Seg>, f: int, l: int, now: int, ip: int)
    requires Sorted(s) && f <= l
    ensures HasSegments(s, f, l, false, now, ip, Insert(s, f, l, now, ip).list)
  {
    InsertIsWalk(s, f, l, now, ip);
    WalkTouches(s, f, l, false, now, ip);
  }

  // ---- what a collapsed segment keeps ----

  /** Segment k of the stretch is the first one with the time of the newest; p has its time and its ip_id. */
  predicate IsNewest(part: seq<Seg>, k: int, p: Seg) {
    && 0 <= k < |part| && p.time == part[k].time && p.ipId == part[k].ipId
    && (forall j :: 0 <= j < k ==> part[j].time < p.time) && (forall j :: k <= j < |part| ==> part[j].time <= p.time)
  }

  /** Each segment of the stretch is acked and contiguous with the next one. */
  predicate Contiguous(part: seq<Seg>) {
    forall k :: 0 <= k < |part| - 1 ==> Mergeable(part[k], part[k + 1])
  }

  /** Segment p stands for a contiguous stretch of acked segments, or for one segment as it is. */
  ghost predicate StandsFor(part: seq<Seg>, p: Seg) {
    && part != [] && Contiguous(part) && (exists k :: IsNewest(part, k, p))
    && p == part[0].(last := part[|part| - 1].last, acked := part[|part| - 1].acked, time := p.time, ipId := p.ipId)
  }

  /** The list c stands for s, stretch by stretch. */
  ghost predicate Stretches(s: seq<Seg>, c: seq<Seg>)
    decreases |c|
  {
    if c == [] then s == [] else exists n :: 0 < n <= |s| && StandsFor(s[..n], c[0]) && Stretches(s[n..], c[1..])
  }

  lemma AloneStands(p: Seg)
    ensures StandsFor([p], p)
  {
    assert IsNewest([p], 0, p);
  }

  lemma ConsStretches(s: seq<Seg>, c: seq<Seg>)
    requires s != [] && Stretches(s[1..], c)
    ensures Stretches(s, [s[0]] + c)
  {
    AloneStands(s[0]);
    assert s[..1] == [s[0]] && ([s[0]] + c)[1..] == c;
  }

  lemma {:induction false} SameStretches(s: seq<Seg>)
    ensures Stretches(s, s)
  {
    if s != [] {
      SameStretches(s[1..]);
      ConsStretches(s, s[1..]);
      assert [s[0]] + s[1..] == s;
    }
  }

  /** The newest of a stretch whose two first segments are merged. */
  lemma NewestOfMerged(part: seq<Seg>, k: int, p: Seg) returns (i: int)
    requires |part| > 1 && IsNewest([Merge(part[0], part[1])] + part[2..], k, p)
    ensures IsNewest(part, i, p)
  {
    var t := [Merge(part[0], part[1])] + part[2..];
    assert forall j :: 2 <= j < |part| ==> part[j] == t[j - 1];
    i := if k > 0 then k + 1 else if part[1].time > part[0].time then 1 else 0;
    assert t[0].time <= p.time && part[0].time <= t[0].time && part[1].time <= t[0].time;
  }

  lemma StandsMerged(part: seq<Seg>, p: Seg)
    requires |part| > 1 && Mergeable(part[0], part[1]) && StandsFor([Merge(part[0], part[1])] + part[2..], p)
    ensures StandsFor(part, p)
  {
    var t := [Merge(part[0], part[1])] + part[2..];
    var k :| IsNewest(t, k, p);
    var i := NewestOfMerged(part, k, p);
    forall j | 0 <= j < |part| - 1 ensures Mergeable(part[j], part[j + 1]) {
      if j > 0 { assert Mergeable(t[j - 1], t[j]); }
    }
    assert t[|t| - 1].last == part[|part| - 1].last && t[|t| - 1].acked == part[|part| - 1].acked;
  }

  lemma MergedStretches(s: seq<Seg>, c: seq<Seg>)
    requires |s| > 1 && Mergeable(s[0], s[1]) && Stretches([Merge(s[0], s[1])] + s[2..], c)
    ensures Stretches(s, c)
  {
    var t := [Merge(s[0], s[1])] + s[2..];
    var n :| 0 < n <= |t| && StandsFor(t[..n], c[0]) && Stretches(t[n..], c[1..]);
    MergedSlices(s, t, n, s[..n + 1]);
    StandsMerged(s[..n + 1], c[0]);
  }

  lemma MergedSlices(s: seq<Seg>, t: seq<Seg>, n: nat, part: seq<Seg>)
    requires |s| > 1 && t == [Merge(s[0], s[1])] + s[2..] && 0 < n <= |t| && part == s[..n + 1]
    ensures [Merge(part[0], part[1])] + part[2..] == t[..n] && t[n..] == s[n + 1..]
  {
  }

  /**
   Every segment after collapse_quad stands for a stretch of those before it, in order and without gaps: with the last byte and
   the ack count of the last one, the time of the newest, and the ip_id of the first one that new.
   */
  lemma {:induction false} CollapseStands(s: seq<Seg>)
    ensures Stretches(s, Collapse(s))
    decreases |s|
  {
    if |s| <= 1 || s[0].acked == 0 {
      SameStretches(s);
    } else if Mergeable(s[0], s[1]) {
      CollapseStands([Merge(s[0], s[1])] + s[2..]);
      MergedStretches(s, Collapse(s));
    } else {
      CollapseStands(s[1..]);
      ConsStretches(s, Collapse(s[1..]));
    }
  }

  // ---- when a quadrant is full ----

  lemma {:induction false} CollapseReaches(s: seq<Seg>, n: nat)
    requires Sorted(s) && 0 < n <= |s| && Contiguous(s[..n])
    ensures Collapse(s) != [] && Collapse(s)[0].first == s[0].first && Collapse(s)[0].last >= s[n - 1].last
    decreases |s|
  {
    if n > 1 { assert Mergeable(s[..n][0], s[..n][1]); }
    if |s| > 1 && s[0].acked > 0 && Mergeable(s[0], s[1]) {
      var t := [Merge(s[0], s[1])] + s[2..];
      MergeStep(s);
      ContiguousMerged(s, n, t);
      CollapseReaches(t, if n == 1 then 1 else n - 1);
      SortedPairs(s, 0, 1);
    }
  }

  lemma ContiguousMerged(s: seq<Seg>, n: nat, t: seq<Seg>)
    requires |s| > 1 && 0 < n <= |s| && Contiguous(s[..n]) && t == [Merge(s[0], s[1])] + s[2..]
    ensures var k := if n == 1 then 1 else n - 1; Contiguous(t[..k]) && (n > 1 ==> t[k - 1].last == s[n - 1].last)
  {
    var k := if n == 1 then 1 else n - 1;
    forall j | 0 <= j < k - 1 ensures Mergeable(t[..k][j], t[..k][j + 1]) {
      assert Mergeable(s[..n][j + 1], s[..n][j + 2]);
    }
  }

  /** The first n segments are acked and contiguous, and span lo..hi. */
  predicate SpansFrom(s: seq<Seg>, n: nat, lo: int, hi: int) {
    0 < n <= |s| && Contiguous(s[..n]) && s[0].first == lo && s[n - 1].last == hi
  }

  /** The first segment of a collapsed list spans lo..hi if and only if some first segments do. */
  lemma CollapseSpans(s: seq<Seg>, lo: int, hi: int)
    requires Sorted(s) && s != [] && Collapse(s) != [] && Collapse(s)[0].last <= hi
    ensures Collapse(s)[0].first == lo && Collapse(s)[0].last == hi <==> exists n: nat :: SpansFrom(s, n, lo, hi)
  {
    var c := Collapse(s);
    CollapseStands(s);
    var m :| 0 < m <= |s| && StandsFor(s[..m], c[0]) && Stretches(s[m..], c[1..]);
    if c[0].first == lo && c[0].last == hi {
      assert s[..m][|s[..m]| - 1] == s[m - 1];
      assert SpansFrom(s, m, lo, hi);
    }
    if n: nat :| SpansFrom(s, n, lo, hi) {
      CollapseReaches(s, n);
    }
  }
}
