/** What ack_in and collapse_quad mean for the recorded bytes, for the order of the list and for the RTT samples. */
module SegmentAcks {
  import opened SegmentList
  import opened SegmentCoverage

  /** Byte b lies in a segment that has been acked. */
  predicate AckedCovers(s: seq<Seg>, b: int) {
    s != [] && ((s[0].acked > 0 && s[0].first <= b <= s[0].last) || AckedCovers(s[1..], b))
  }

  function Unacked(s: seq<Seg>): seq<Seg> {
    if s == [] then [] else (if s[0].acked == 0 then [s[0]] else []) + Unacked(s[1..])
  }

  // ---- collapse_quad ----

  /** No two contiguous acked neighbours are left in the leading run of acked segments. */
  predicate Merged(s: seq<Seg>) {
    |s| > 1 && s[0].acked > 0 ==> !Mergeable(s[0], s[1]) && Merged(s[1..])
  }

  lemma MergeStep(s: seq<Seg>)
    requires Sorted(s) && |s| > 1 && Mergeable(s[0], s[1])
    ensures var t := [Merge(s[0], s[1])] + s[2..];
            && Sorted(t) && t[0].first == s[0].first
            && Unacked(t) == Unacked(s)
            && (forall b :: Covers(t, b) == Covers(s, b))
            && (forall b :: AckedCovers(t, b) == AckedCovers(s, b))
  {
    var t := [Merge(s[0], s[1])] + s[2..];
    assert t[1..] == s[2..] == s[1..][1..];
    ConsSorted(Merge(s[0], s[1]), s[2..]);
    assert Unacked(s) == Unacked(s[1..]);
  }

  lemma CollapseStep(s: seq<Seg>)
    requires |s| > 1 && s[0].acked > 0 && !Mergeable(s[0], s[1])
    ensures Collapse(s) == [s[0]] + Collapse(s[1..]) && Collapse(s)[1..] == Collapse(s[1..])
  {
  }

  /** Collapsing keeps the order, every recorded byte, every acked byte and every unacked segment. */
  lemma {:induction false} CollapsePreserves(s: seq<Seg>)
    requires Sorted(s)
    ensures var c := Collapse(s);
            && Sorted(c) && |c| <= |s|
            && (s != [] ==> c != [] && c[0].first == s[0].first)
            && Unacked(c) == Unacked(s)
            && (forall b :: Covers(c, b) == Covers(s, b))
            && (forall b :: AckedCovers(c, b) == AckedCovers(s, b))
    decreases |s|
  {
    if |s| <= 1 || s[0].acked == 0 {
    } else if Mergeable(s[0], s[1]) {
      MergeStep(s);
      CollapsePreserves([Merge(s[0], s[1])] + s[2..]);
    } else {
      CollapsePreserves(s[1..]);
      CollapseStep(s);
      ConsSorted(s[0], Collapse(s[1..]));
    }
  }

  lemma {:induction false} CollapseMerges(s: seq<Seg>)
    requires Sorted(s)
    ensures Merged(Collapse(s))
    decreases |s|
  {
    if |s| <= 1 || s[0].acked == 0 {
    } else if Mergeable(s[0], s[1]) {
      MergeStep(s);
      CollapseMerges([Merge(s[0], s[1])] + s[2..]);
    } else {
      CollapseMerges(s[1..]);
      CollapseStep(s);
      CollapseHead(s[1..]);
    }
  }

  /** The head keeps its first byte, and it is acked after collapsing exactly if it was before. */
  lemma {:induction false} CollapseHead(s: seq<Seg>)
    requires s != []
    ensures Collapse(s) != [] && Collapse(s)[0].first == s[0].first
    ensures Collapse(s)[0].acked > 0 <==> s[0].acked > 0
    decreases |s|
  {
    if |s| > 1 && s[0].acked > 0 && Mergeable(s[0], s[1]) {
      CollapseHead([Merge(s[0], s[1])] + s[2..]);
    }
  }

  lemma {:induction false} MergedIsFixed(s: seq<Seg>)
    requires Merged(s)
    ensures Collapse(s) == s
    decreases |s|
  {
    if |s| > 1 && s[0].acked > 0 {
      MergedIsFixed(s[1..]);
      assert [s[0]] + s[1..] == s;
    }
  }

  /** collapse_quad leaves nothing to collapse: doing it again changes nothing. */
  lemma CollapseIdempotent(s: seq<Seg>)
    requires Sorted(s)
    ensures Collapse(Collapse(s)) == Collapse(s)
  {
    CollapseMerges(s);
    MergedIsFixed(Collapse(s));
  }

  // ---- the walk over the previous quadrant ----

  /** Same segments, as far as their bytes go. */
  predicate SameShape(s: seq<Seg>, t: seq<Seg>) {
    |s| == |t| && forall i | 0 <= i < |s| :: s[i].first == t[i].first && s[i].last == t[i].last
  }

  lemma {:induction false} ShapeDecides(s: seq<Seg>, t: seq<Seg>)
    requires SameShape(s, t)
    ensures Sorted(s) == Sorted(t)
    ensures forall b :: Covers(s, b) == Covers(t, b)
  {
    if s != [] {
      assert s[0].first == t[0].first && s[0].last == t[0].last;
      if |s| > 1 { assert s[1].first == t[1].first; }
      assert SameShape(s[1..], t[1..]) by {
        forall i | 0 <= i < |s| - 1 ensures s[1..][i].first == t[1..][i].first && s[1..][i].last == t[1..][i].last {
          assert s[1..][i] == s[i + 1] && t[1..][i] == t[i + 1];
        }
      }
      ShapeDecides(s[1..], t[1..]);
    }
  }

  /** The same segments, with some of them acked more often. */
  predicate Raised(s: seq<Seg>, t: seq<Seg>) {
    |s| == |t| && forall i | 0 <= i < |s| :: t[i].acked >= s[i].acked && t[i] == s[i].(acked := t[i].acked)
  }

  /** Acking a whole list acks each segment once and counts exactly those that were not acked before. */
  lemma {:induction false} AckAllAcks(s: seq<Seg>, lastXmit: int)
    ensures var r := AckAll(s, lastXmit);
            && |r.list| == |s|
            && (forall i | 0 <= i < |s| :: r.list[i] == if s[i].acked > 0 then s[i] else s[i].(acked := 1))
            && r.cumack == |Unacked(s)|
            && r.changed == (Unacked(s) != [])
            && r.lastXmit >= lastXmit
            && (forall i | 0 <= i < |s| && s[i].acked == 0 :: s[i].time <= r.lastXmit)
    decreases |s|
  {
    if s != [] {
      var x := if s[0].acked > 0 then lastXmit else Newest(s[0].time, lastXmit);
      AckAllAcks(s[1..], x);
      var rest := AckAll(s[1..], x);
      forall i | 0 <= i < |s|
        ensures AckAll(s, lastXmit).list[i] == if s[i].acked > 0 then s[i] else s[i].(acked := 1)
        ensures s[i].acked == 0 ==> s[i].time <= rest.lastXmit
      {
        if i > 0 { assert s[i] == s[1..][i - 1] && AckAll(s, lastXmit).list[i] == rest.list[i - 1]; }
      }
    }
  }

  // ---- the walk over the current quadrant ----

  /** The ack reaches exactly the segments that start below it, and each of them is acked once more. */
  lemma {:induction false} AckUpToAcks(s: seq<Seg>, ack: int, dataLen: nat, now: int, lastXmit: int)
    requires Sorted(s)
    ensures var r := AckUpTo(s, ack, dataLen, now, lastXmit);
            && |r.list| == |s|
            && forall i | 0 <= i < |s| :: r.list[i] == if s[i].first < ack then s[i].(acked := s[i].acked + 1) else s[i]
    decreases |s|
  {
    if s != [] {
      if ack <= s[0].first {
        forall i | 0 <= i < |s| ensures ack <= s[i].first { if i > 0 { SortedPairs(s, 0, i); } }
      } else {
        AckUpToAcks(s[1..], ack, dataLen, now, Newest(s[0].time, lastXmit));
        var r, rest := AckUpTo(s, ack, dataLen, now, lastXmit), AckUpTo(s[1..], ack, dataLen, now, Newest(s[0].time, lastXmit));
        forall i | 0 <= i < |s|
          ensures r.list[i] == if s[i].first < ack then s[i].(acked := s[i].acked + 1) else s[i]
        {
          if i > 0 { assert s[i] == s[1..][i - 1] && r.list[i] == rest.list[i - 1]; }
        }
      }
    }
  }

  /** Each segment acked for the first time is counted once: cumulative, no sample, ambiguous or normal. */
  lemma {:induction false} AckUpToCountsOnce(s: seq<Seg>, ack: int, dataLen: nat, now: int, lastXmit: int)
    ensures var r := AckUpTo(s, ack, dataLen, now, lastXmit);
            && r.cumack + r.nosample + r.ambig + |r.samples| == |Unacked(s)| - |Unacked(r.list)|
            && r.changed == (|Unacked(r.list)| < |Unacked(s)|)
            && r.triple <= r.dupack
    decreases |s|
  {
    if s != [] && ack > s[0].first {
      var x := Newest(s[0].time, lastXmit);
      AckUpToCountsOnce(s[1..], ack, dataLen, now, x);
      var r, rest := AckUpTo(s, ack, dataLen, now, lastXmit), AckUpTo(s[1..], ack, dataLen, now, x);
      assert r.list[1..] == rest.list;
    }
  }

  /** Segment i of the list is the one an RTT sample is taken from. */
  predicate IsSample(s: seq<Seg>, i: nat, ack: int, lastXmit: int) {
    && i < |s|
    && s[i].acked == 0 && s[i].retrans == 0 && s[i].last + 1 == ack && s[i].first < ack
    && lastXmit <= s[i].time
    && forall j | 0 <= j < i :: s[j].time <= s[i].time
  }

  /** Every RTT sample is the age of a segment that the ack ends on, not marked as sent again and not older than any before it. */
  lemma {:induction false} SampleOrigin(s: seq<Seg>, ack: int, dataLen: nat, now: int, lastXmit: int, k: nat) returns (i: nat)
    requires k < |AckUpTo(s, ack, dataLen, now, lastXmit).samples|
    ensures IsSample(s, i, ack, lastXmit)
    ensures AckUpTo(s, ack, dataLen, now, lastXmit).samples[k] == Elapsed(s[i].time, now)
    decreases |s|
  {
    var p, x := s[0], Newest(s[0].time, lastXmit);
    var own := p.acked == 0 && ack == p.last + 1 && Verdict(p, x > p.time) == Normal;
    if own && k == 0 {
      i := 0;
    } else {
      i := SampleOrigin(s[1..], ack, dataLen, now, x, if own then k - 1 else k);
      assert s[1..][i] == s[i + 1];
      i := i + 1;
      forall j | 0 <= j < i ensures s[j].time <= s[i].time {
        if j > 0 { assert s[j] == s[1..][j - 1]; }
      }
    }
  }

  /** Conversely, whatever meets the conditions of a sample yields one. */
  lemma {:induction false} SampleTaken(s: seq<Seg>, ack: int, dataLen: nat, now: int, lastXmit: int, i: nat)
    requires Sorted(s) && IsSample(s, i, ack, lastXmit)
    ensures Elapsed(s[i].time, now) in AckUpTo(s, ack, dataLen, now, lastXmit).samples
    decreases |s|
  {
    var x := Newest(s[0].time, lastXmit);
    if i > 0 {
      SortedPairs(s, 0, i);
      assert s[1..][i - 1] == s[i];
      forall j | 0 <= j < i - 1 ensures s[1..][j].time <= s[i].time { assert s[1..][j] == s[j + 1]; }
      SampleTaken(s[1..], ack, dataLen, now, x, i - 1);
    }
  }

  // ---- both walks and what they collapse ----

  /** What ack_in leaves of the previous quadrant. */
  function AckedPrevious(s: seq<Seg>): seq<Seg> {
    var r := AckAll(s, 0);
    if r.changed then Collapse(r.list) else r.list
  }

  /** What ack_in leaves of the current quadrant. */
  function AckedCurrent(s: seq<Seg>, ack: int, dataLen: nat, now: int, lastXmit: int): seq<Seg> {
    var r := AckUpTo(s, ack, dataLen, now, lastXmit);
    if r.changed then Collapse(r.list) else r.list
  }

  /** Acking the previous quadrant records and forgets nothing, and every recorded byte is acked afterwards. */
  lemma PreviousAcked(s: seq<Seg>, b: int)
    requires Sorted(s)
    ensures Sorted(AckedPrevious(s))
    ensures Covers(AckedPrevious(s), b) == Covers(s, b)
    ensures Covers(s, b) ==> AckedCovers(AckedPrevious(s), b)
  {
    var r := AckAll(s, 0);
    AckAllAcks(s, 0);
    ShapeDecides(s, r.list);
    CollapsePreserves(r.list);
    if Covers(s, b) {
      var i := CoversWitness(s, b);
      AckedCoversIndex(r.list, i, b);
    }
  }

  lemma {:induction false} AckedCoversIndex(s: seq<Seg>, i: nat, b: int)
    requires i < |s| && s[i].first <= b <= s[i].last && s[i].acked > 0
    ensures AckedCovers(s, b)
  {
    if i > 0 { AckedCoversIndex(s[1..], i - 1, b); }
  }

  /** Acking the current quadrant records and forgets nothing, and every recorded byte below the ack is acked afterwards. */
  lemma CurrentAcked(s: seq<Seg>, ack: int, dataLen: nat, now: int, lastXmit: int, b: int)
    requires Sorted(s)
    ensures var t := AckedCurrent(s, ack, dataLen, now, lastXmit);
            && Sorted(t)
            && Covers(t, b) == Covers(s, b)
            && (Covers(s, b) && b < ack ==> AckedCovers(t, b))
            && (AckedCovers(s, b) ==> AckedCovers(t, b))
  {
    var r := AckUpTo(s, ack, dataLen, now, lastXmit);
    AckUpToAcks(s, ack, dataLen, now, lastXmit);
    ShapeDecides(s, r.list);
    CollapsePreserves(r.list);
    if Covers(s, b) && b < ack {
      var i := CoversWitness(s, b);
      AckedCoversIndex(r.list, i, b);
    }
    if AckedCovers(s, b) {
      var i := AckedCoversWitness(s, b);
      AckedCoversIndex(r.list, i, b);
    }
  }

  lemma {:induction false} AckedCoversWitness(s: seq<Seg>, b: int) returns (i: nat)
    requires AckedCovers(s, b)
    ensures i < |s| && s[i].first <= b <= s[i].last && s[i].acked > 0
  {
    if s[0].acked > 0 && s[0].first <= b <= s[0].last {
      i := 0;
    } else {
      i := AckedCoversWitness(s[1..], b);
      i := i + 1;
    }
  }

  // ---- duplicate acks ----

  /** How many segments that were acked at least n times before end right before ack. */
  function AckedEnding(s: seq<Seg>, ack: int, n: nat): nat {
    if s == [] then 0 else
      (if s[0].acked >= n && s[0].last + 1 == ack then 1 else 0) + AckedEnding(s[1..], ack, n)
  }

  lemma {:induction false} NothingEndsBefore(s: seq<Seg>, ack: int, n: nat)
    requires Sorted(s) && (s != [] ==> ack <= s[0].first)
    ensures AckedEnding(s, ack, n) == 0
  {
    if s != [] {
      NothingEndsBefore(s[1..], ack, n);
    }
  }

  /** An ack is a duplicate for every acked segment it ends on, and the third duplicate without data when it was acked three times. */
  lemma {:induction false} DuplicatesCounted(s: seq<Seg>, ack: int, dataLen: nat, now: int, lastXmit: int)
    requires Sorted(s)
    ensures var r := AckUpTo(s, ack, dataLen, now, lastXmit);
            && r.dupack == AckedEnding(s, ack, 1)
            && r.triple == if dataLen == 0 then AckedEnding(s, ack, 3) - AckedEnding(s, ack, 4) else 0
    decreases |s|
  {
    if s == [] || ack <= s[0].first {
      NothingEndsBefore(s, ack, 1);
      NothingEndsBefore(s, ack, 3);
      NothingEndsBefore(s, ack, 4);
    } else {
      DuplicatesCounted(s[1..], ack, dataLen, now, Newest(s[0].time, lastXmit));
    }
  }
}
