/** What a call of ack_in answers and counts, as a whole: the window is moved first. */
module AckAnswers {
  import opened SequenceNumbers
  import opened SegmentList
  import opened SegmentCoverage
  import opened SegmentAcks
  import opened SegmentTimes
  import opened SequenceSpace
  import opened SequenceSpaceRuns
  import opened SequenceSpaceResults

  // ---- the newest transmission of the previous quadrant ----

  /** The largest time of the segments that are not acked, or base if that is larger. */
  ghost predicate NewestUnacked(s: seq<Seg>, base: int, newest: int) {
    && base <= newest
    && (forall i :: 0 <= i < |s| && s[i].acked == 0 ==> s[i].time <= newest)
    && (newest == base || exists i :: 0 <= i < |s| && s[i].acked == 0 && s[i].time == newest)
  }

  lemma {:induction false} FirstWalkNewest(s: seq<Seg>, base: int)
    ensures NewestUnacked(s, base, AckAll(s, base).lastXmit)
    decreases |s|
  {
    if s != [] {
      var next := if s[0].acked > 0 then base else Newest(s[0].time, base);
      FirstWalkNewest(s[1..], next);
      var newest := AckAll(s, base).lastXmit;
      forall i | 0 <= i < |s| && s[i].acked == 0 ensures s[i].time <= newest {
        if i > 0 { assert s[i] == s[1..][i - 1]; }
      }
      if newest != next {
        var i :| 0 <= i < |s| - 1 && s[1..][i].acked == 0 && s[1..][i].time == newest;
        assert s[i + 1] == s[1..][i];
      }
    }
  }

  // ---- the answer ----

  /** Segment i has a say in the answer: the ack reaches it, and it is not acked yet or ends right before the ack. */
  predicate HasSay(s: seq<Seg>, ack: int, i: int)
    requires 0 <= i < |s|
  {
    s[i].first < ack && (s[i].acked == 0 || s[i].last + 1 == ack)
  }

  /** No segment after i has a say. */
  predicate LastSay(s: seq<Seg>, ack: int, i: int)
    requires 0 <= i < |s|
  {
    HasSay(s, ack, i) && forall j :: i < j < |s| ==> !HasSay(s, ack, j)
  }

  /** A segment before i, or the one before the quadrant that base is the time of, was sent after segment i. */
  predicate Overtaken(s: seq<Seg>, base: int, i: int)
    requires 0 <= i < |s|
  {
    base > s[i].time || exists j :: 0 <= j < i && s[j].time > s[i].time
  }

  /** What segment i answers. */
  function Say(s: seq<Seg>, ack: int, dataLen: nat, base: int, i: int): AckType
    requires 0 <= i < |s|
  {
    if s[i].acked > 0 then (if s[i].acked == 3 && dataLen == 0 then Triple else Cumul)
    else if s[i].last + 1 != ack then Cumul
    else if Overtaken(s, base, i) then NoSamp
    else if s[i].retrans == 0 then Normal
    else Ambig
  }

  /** The answer is that of the last segment that has a say. */
  ghost predicate Answers(s: seq<Seg>, ack: int, dataLen: nat, base: int, ret: AckType) {
    && (ret == Unset <==> forall i :: 0 <= i < |s| ==> !HasSay(s, ack, i))
    && (forall i :: 0 <= i < |s| && LastSay(s, ack, i) ==> ret == Say(s, ack, dataLen, base, i))
  }

  /** Whether the first segment is overtaken depends on base alone, whether a later one is also on the first. */
  lemma OvertakenInRest(s: seq<Seg>, base: int, i: int)
    requires 0 < i < |s|
    ensures Overtaken(s, base, i) <==> Overtaken(s[1..], Newest(s[0].time, base), i - 1)
  {
    var t := s[1..];
    assert t[i - 1] == s[i];
    if j :| 0 <= j < i && s[j].time > s[i].time {
      if j > 0 { assert t[j - 1] == s[j]; }
    }
    if j :| 0 <= j < i - 1 && t[j].time > t[i - 1].time {
      assert s[j + 1] == t[j];
    }
  }

  lemma SayInRest(s: seq<Seg>, ack: int, dataLen: nat, base: int, i: int)
    requires 0 < i < |s|
    ensures HasSay(s, ack, i) <==> HasSay(s[1..], ack, i - 1)
    ensures Say(s, ack, dataLen, base, i) == Say(s[1..], ack, dataLen, Newest(s[0].time, base), i - 1)
  {
    assert s[1..][i - 1] == s[i];
    OvertakenInRest(s, base, i);
  }

  lemma LastSayInRest(s: seq<Seg>, ack: int, i: int)
    requires 0 < i < |s|
    ensures LastSay(s, ack, i) <==> LastSay(s[1..], ack, i - 1)
  {
    var t := s[1..];
    forall j | 0 < j < |s| ensures HasSay(s, ack, j) <==> HasSay(t, ack, j - 1) { assert t[j - 1] == s[j]; }
    if LastSay(s, ack, i) {
      forall j | i - 1 < j < |t| ensures !HasSay(t, ack, j) { assert !HasSay(s, ack, j + 1); }
    }
    if LastSay(t, ack, i - 1) {
      forall j | i < j < |s| ensures !HasSay(s, ack, j) { assert !HasSay(t, ack, j - 1); }
    }
  }

  /** The answer of the first segment alone. */
  lemma FirstSay(s: seq<Seg>, ack: int, dataLen: nat, now: int, base: int)
    requires s != [] && s[0].first < ack
    ensures AckOne(s[0], ack, dataLen, now, base).ret == if HasSay(s, ack, 0) then Say(s, ack, dataLen, base, 0) else Unset
    ensures AckOne(s[0], ack, dataLen, now, base).lastXmit == Newest(s[0].time, base)
  {
  }

  /** A later answer counts more than that of the first segment. */
  lemma LaterAnswer(s: seq<Seg>, ack: int, dataLen: nat, base: int, own: AckType, later: AckType, ret: AckType)
    requires s != [] && own == (if HasSay(s, ack, 0) then Say(s, ack, dataLen, base, 0) else Unset)
    requires Answers(s[1..], ack, dataLen, Newest(s[0].time, base), later) && ret == if later == Unset then own else later
    ensures Answers(s, ack, dataLen, base, ret)
  {
    var t, next := s[1..], Newest(s[0].time, base);
    forall i | 0 < i < |s|
      ensures HasSay(s, ack, i) <==> HasSay(t, ack, i - 1)
      ensures LastSay(s, ack, i) ==> ret == Say(s, ack, dataLen, base, i)
    {
      SayInRest(s, ack, dataLen, base, i);
      LastSayInRest(s, ack, i);
      if LastSay(s, ack, i) { assert LastSay(t, ack, i - 1); }
    }
    if LastSay(s, ack, 0) {
      forall i | 0 <= i < |t| ensures !HasSay(t, ack, i) { assert !HasSay(s, ack, i + 1); }
    }
    if exists i :: 0 <= i < |t| && HasSay(t, ack, i) {
      var i :| 0 <= i < |t| && HasSay(t, ack, i);
      assert HasSay(s, ack, i + 1);
    }
  }

  lemma NothingToSay(s: seq<Seg>, ack: int, dataLen: nat, base: int)
    requires Sorted(s) && (s != [] ==> ack <= s[0].first)
    ensures Answers(s, ack, dataLen, base, Unset)
  {
    forall i | 0 <= i < |s| ensures !HasSay(s, ack, i) {
      if i > 0 { SortedPairs(s, 0, i); }
    }
  }

  lemma {:induction false} SecondWalkAnswers(s: seq<Seg>, ack: int, dataLen: nat, now: int, base: int)
    requires Sorted(s)
    ensures Answers(s, ack, dataLen, base, AckUpTo(s, ack, dataLen, now, base).ret)
    decreases |s|
  {
    if s == [] || ack <= s[0].first {
      NothingToSay(s, ack, dataLen, base);
    } else {
      var next := Newest(s[0].time, base);
      SecondWalkAnswers(s[1..], ack, dataLen, now, next);
      FirstSay(s, ack, dataLen, now, base);
      LaterAnswer(s, ack, dataLen, base, AckOne(s[0], ack, dataLen, now, base).ret, AckUpTo(s[1..], ack, dataLen, now, next).ret,
                  AckUpTo(s, ack, dataLen, now, base).ret);
    }
  }

  // ---- the counters ----

  /** How many segments are acked for the first time by an ack that goes beyond them. */
  function Passed(s: seq<Seg>, ack: int): nat {
    if s == [] then 0 else (if s[0].acked == 0 && s[0].first < ack && s[0].last + 1 != ack then 1 else 0) + Passed(s[1..], ack)
  }

  /** How many are by one that ends on them, and were sent before the time base or before one in front of them. */
  function Late(s: seq<Seg>, ack: int, base: int): nat {
    if s == [] then 0 else
      (if s[0].acked == 0 && s[0].last + 1 == ack && base > s[0].time then 1 else 0)
      + Late(s[1..], ack, if s[0].time > base then s[0].time else base)
  }

  lemma {:induction false} NonePassed(s: seq<Seg>, ack: int, base: int)
    requires Sorted(s) && (s != [] ==> ack <= s[0].first)
    ensures Passed(s, ack) == 0 == Late(s, ack, base)
  {
    if s != [] {
      NonePassed(s[1..], ack, if s[0].time > base then s[0].time else base);
    }
  }

  lemma {:induction false} SecondWalkCounts(s: seq<Seg>, ack: int, dataLen: nat, now: int, base: int)
    requires Sorted(s)
    ensures var r := AckUpTo(s, ack, dataLen, now, base); r.cumack == Passed(s, ack) && r.nosample == Late(s, ack, base)
    decreases |s|
  {
    if s == [] || ack <= s[0].first {
      NonePassed(s, ack, base);
    } else {
      SecondWalkCounts(s[1..], ack, dataLen, now, Newest(s[0].time, base));
    }
  }

  // ---- ack_in ----

  /**
   ack_in answers nothing if and only if no segment of its quadrant that starts below the ack is unacked or ends on it.
   Otherwise the last such segment decides: an acked one makes it the third duplicate without data, or else a cumulative ack;
   an unacked one that ends before the ack is cumulatively acked; and one that the ack ends on yields a sample, unless
   something was sent after it, here or unacked in the quadrant before, or it was resent.
   */
  lemma AckInAnswers(sp: Space, c: RttCounters, ack: SeqNum, dataLen: nat, now: int) returns (newest: int)
    requires SpaceOk(sp)
    ensures var t := Recentre(sp, QuadNumOf(ack) - 1);
            && NewestUnacked(Segs(t, Prev(QuadNumOf(ack) - 1)), 0, newest)
            && Answers(Segs(t, QuadNumOf(ack) - 1), ack, dataLen, newest, AckIn(sp, c, ack, dataLen, now).ret)
  {
    var t := Recentre(sp, QuadNumOf(ack) - 1);
    RecentreOk(sp, QuadNumOf(ack) - 1);
    newest := FirstWalk(t).lastXmit;
    FirstWalkNewest(Segs(t, Prev(t.centre)), 0);
    SecondWalkAnswers(Segs(t, t.centre), ack, dataLen, now, newest);
  }

  /** What ack_in adds to the counters that do not depend on samples, in terms of both lists before it. */
  lemma AckInCounts(sp: Space, c: RttCounters, ack: SeqNum, dataLen: nat, now: int) returns (newest: int)
    requires SpaceOk(sp)
    ensures var t, r := Recentre(sp, QuadNumOf(ack) - 1), AckIn(sp, c, ack, dataLen, now).counters;
            var before, here := Segs(t, Prev(QuadNumOf(ack) - 1)), Segs(t, QuadNumOf(ack) - 1);
            && NewestUnacked(before, 0, newest)
            && r.dupack == c.dupack + AckedEnding(here, ack, 1)
            && r.triple == c.triple + (if dataLen == 0 then AckedEnding(here, ack, 3) - AckedEnding(here, ack, 4) else 0)
            && r.cumack == c.cumack + |Unacked(before)| + Passed(here, ack)
            && r.nosample == c.nosample + Late(here, ack, newest)
  {
    var t := Recentre(sp, QuadNumOf(ack) - 1);
    RecentreOk(sp, QuadNumOf(ack) - 1);
    newest := FirstWalk(t).lastXmit;
    FirstWalkNewest(Segs(t, Prev(t.centre)), 0);
    AckAllAcks(Segs(t, Prev(t.centre)), 0);
    AckAllOnlyCumulative(Segs(t, Prev(t.centre)), 0);
    DuplicatesCounted(Segs(t, t.centre), ack, dataLen, now, newest);
    SecondWalkCounts(Segs(t, t.centre), ack, dataLen, now, newest);
  }

  /**
   ack_in records nothing and forgets only what the move of the window drops; all recorded bytes of the quadrant before the
   ack's, and those below the ack in its own, are acked afterwards, and nothing changes in the one after it.
   */
  lemma AckInAcks(sp: Space, c: RttCounters, ack: SeqNum, dataLen: nat, now: int, b: SeqNum)
    requires SpaceOk(sp)
    ensures var t := AckIn(sp, c, ack, dataLen, now).space;
            var i, q := QuadNumOf(b) - 1, QuadNumOf(ack) - 1;
            && SpaceCovers(t, b) == (SpaceCovers(sp, b) && i != Opposite(q))
            && (SpaceCovers(sp, b) && (i == Prev(q) || (i == q && b < ack)) ==> SpaceAcked(t, b))
            && (i == Next(q) ==> SpaceAcked(t, b) == SpaceAcked(sp, b))
  {
    RecentreOk(sp, QuadNumOf(ack) - 1);
    RecentreKeeps(sp, QuadNumOf(ack) - 1, b);
    AcknowledgeAcks(Recentre(sp, QuadNumOf(ack) - 1), ack, dataLen, now, b);
  }

  /**
   Every segment acked for the first time is counted once: as cumulative, without sample, with a sample or as ambiguous, for
   which the program has no counter.
   */
  lemma AckInCountsOnce(sp: Space, c: RttCounters, ack: SeqNum, dataLen: nat, now: int) returns (ambig: nat)
    requires SpaceOk(sp)
    ensures var t, r := Recentre(sp, QuadNumOf(ack) - 1), AckIn(sp, c, ack, dataLen, now);
            var p, q := Prev(QuadNumOf(ack) - 1), QuadNumOf(ack) - 1;
            && UnackedAt(t, p) + UnackedAt(t, q) - UnackedAt(r.space, p) - UnackedAt(r.space, q)
               == (r.counters.cumack - c.cumack) + (r.counters.nosample - c.nosample) + (r.counters.count - c.count) + ambig
            && (r.ret == Ambig ==> ambig > 0)
  {
    var t := Recentre(sp, QuadNumOf(ack) - 1);
    RecentreOk(sp, QuadNumOf(ack) - 1);
    AcknowledgeCountsOnce(t, c, ack, dataLen, now);
    ambig := SecondWalk(t, ack, dataLen, now).ambig;
    AmbigIsCounted(Segs(t, t.centre), ack, dataLen, now, FirstWalk(t).lastXmit);
  }

  lemma {:induction false} AmbigIsCounted(s: seq<Seg>, ack: int, dataLen: nat, now: int, base: int)
    ensures var r := AckUpTo(s, ack, dataLen, now, base); r.ret == Ambig ==> r.ambig > 0
    decreases |s|
  {
    if s != [] && s[0].first < ack {
      AmbigIsCounted(s[1..], ack, dataLen, now, Newest(s[0].time, base));
    }
  }

  // ---- full quadrants ----

  /**
   collapse_quad reports a quadrant full if and only if it was, or if acked segments, each contiguous with the next one, span all
   of it from its first byte to its last. A single segment is not asked whether it is acked.
   */
  lemma FullWhenSpanned(q: Quad, lo: int, hi: int)
    requires QuadOk(q, lo, hi) && hi - lo + 1 == QUADSIZE
    ensures CollapseQuad(q).full <==> q.full || exists n: nat :: SpansFrom(q.segs, n, lo, hi)
  {
    var c := Collapse(q.segs);
    CollapsePreserves(q.segs);
    CollapseHonest(q.segs, lo, hi);
    if q.segs != [] {
      HonestAt(c, lo, hi, 0);
      CollapseSpans(q.segs, lo, hi);
    }
  }
}
