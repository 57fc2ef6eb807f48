/** The walk of addseg, one visited segment at a time: the facts that its loop relies on. */
module WalkSteps {
  import opened SegmentList
  import opened SequenceSpace
  import opened Statistics

  /** What addseg will have done in the end if it has m before it, stands at segment i and has bytes f..l left to place. */
  function Resume(m: seq<Seg>, i: nat, f: int, l: int, split: bool, bytes: int, ooo: bool, now: int, ip: int): Added
    requires i <= |m|
  {
    var w := Walk(m[i..], f, l, split, now, ip);
    Added(m[..i] + w.list, bytes + w.bytes, ooo || w.outOfOrder, w.appended)
  }

  lemma StartOfWalk(m: seq<Seg>, f: int, l: int, now: int, ip: int)
    ensures Resume(m, 0, f, l, false, 0, false, now, ip) == Walk(m, f, l, false, now, ip)
  {
    assert m[0..] == m;
  }

  lemma EndOfWalk(m: seq<Seg>, f: int, l: int, split: bool, bytes: int, ooo: bool, now: int, ip: int)
    ensures Resume(m, |m|, f, l, split, bytes, ooo, now, ip) == Added(m + [NewSeg(f, l, now, ip)], bytes, ooo, true)
  {
  }

  lemma Skip(m: seq<Seg>, i: nat, f: int, l: int, split: bool, bytes: int, ooo: bool, now: int, ip: int)
    requires i < |m| && f > m[i].last
    ensures Resume(m, i, f, l, split, bytes, ooo, now, ip) == Resume(m, i + 1, f, l, split, bytes, ooo, now, ip)
  {
    assert m[i..][1..] == m[i + 1..];
    var w := Walk(m[i + 1..], f, l, split, now, ip);
    assert m[..i] + ([m[i]] + w.list) == m[..i + 1] + w.list;
  }

  lemma StopBefore(m: seq<Seg>, i: nat, f: int, l: int, split: bool, bytes: int, ooo: bool, now: int, ip: int)
    requires i < |m| && f < m[i].first && f <= m[i].last && l <= m[i].first
    ensures Resume(m, i, f, l, split, bytes, ooo, now, ip)
         == Added(m[..i] + [NewSeg(f, l, now, ip)] + m[i..], bytes, ooo || l < m[i].last, false)
  {
    assert m[..i] + ([NewSeg(f, l, now, ip)] + m[i..]) == m[..i] + [NewSeg(f, l, now, ip)] + m[i..];
  }

  /** The list after segment i was hit: a new piece may have come before it. */
  function AfterHit(m: seq<Seg>, i: nat, f: int, split: bool, now: int, ip: int): seq<Seg>
    requires i < |m|
  {
    m[..i] + Before(m[i], f, now, ip) + [Resend(m[i], split, now)] + m[i + 1..]
  }

  /** The first of the bytes f.. that lie in segment p. */
  function Inside(p: Seg, f: int): int {
    if f < p.first then p.first else f
  }

  lemma StopInside(m: seq<Seg>, i: nat, f: int, l: int, split: bool, bytes: int, ooo: bool, now: int, ip: int)
    requires i < |m| && f <= m[i].last && l <= m[i].last && !(f < m[i].first && l <= m[i].first)
    ensures Resume(m, i, f, l, split, bytes, ooo, now, ip)
         == Added(AfterHit(m, i, f, split, now, ip), bytes + (l - Inside(m[i], f) + 1),
                  ooo || (f < m[i].first && l < m[i].last), false)
  {
    assert m[i..][1..] == m[i + 1..];
    assert m[..i] + (Before(m[i], f, now, ip) + [Resend(m[i], split, now)] + m[i + 1..])
        == AfterHit(m, i, f, split, now, ip);
  }

  lemma GoBeyond(m: seq<Seg>, i: nat, f: int, l: int, split: bool, bytes: int, ooo: bool, now: int, ip: int)
    requires i < |m| && f <= m[i].last && m[i].last < l && !(f < m[i].first && l <= m[i].first)
    ensures Resume(m, i, f, l, split, bytes, ooo, now, ip)
         == Resume(AfterHit(m, i, f, split, now, ip), i + |Before(m[i], f, now, ip)| + 1, m[i].last + 1, l, true,
                   bytes + (m[i].last - Inside(m[i], f) + 1), ooo, now, ip)
  {
    var front := Before(m[i], f, now, ip) + [Resend(m[i], split, now)];
    var t, j := AfterHit(m, i, f, split, now, ip), i + |front|;
    assert t == (m[..i] + front) + m[i + 1..];
    assert m[i..][1..] == m[i + 1..] == t[j..];
    assert t[..j] == m[..i] + front;
    var rest := Walk(m[i + 1..], m[i].last + 1, l, true, now, ip);
    assert m[..i] + (front + rest.list) == t[..j] + rest.list;
  }

  // ---- collapse_quad ----

  /** What collapse_quad will have done in the end if it stands at segment i. */
  function CollapseAt(m: seq<Seg>, i: nat): seq<Seg>
    requires i <= |m|
  {
    m[..i] + Collapse(m[i..])
  }

  lemma CollapseStart(m: seq<Seg>)
    ensures CollapseAt(m, 0) == Collapse(m)
  {
    assert m[0..] == m;
  }

  lemma CollapseStop(m: seq<Seg>, i: nat)
    requires i <= |m| && (|m| <= i + 1 || m[i].acked == 0)
    ensures CollapseAt(m, i) == m
  {
  }

  lemma CollapseMerge(m: seq<Seg>, i: nat)
    requires i + 1 < |m| && Mergeable(m[i], m[i + 1])
    ensures CollapseAt(m, i) == CollapseAt(m[..i] + [Merge(m[i], m[i + 1])] + m[i + 2..], i)
  {
    var t := m[..i] + [Merge(m[i], m[i + 1])] + m[i + 2..];
    assert t[i..] == [Merge(m[i], m[i + 1])] + m[i..][2..];
    assert t[..i] == m[..i];
  }

  lemma CollapseMove(m: seq<Seg>, i: nat)
    requires i + 1 < |m| && m[i].acked > 0 && !Mergeable(m[i], m[i + 1])
    ensures CollapseAt(m, i) == CollapseAt(m, i + 1)
  {
    assert m[i..][1..] == m[i + 1..];
    assert m[..i] + ([m[i]] + Collapse(m[i + 1..])) == m[..i + 1] + Collapse(m[i + 1..]);
  }

  // ---- the walks of ack_in ----

  lemma JoinAssociates(a: Acked, b: Acked, c: Acked)
    ensures Join(Join(a, b), c) == Join(a, Join(b, c))
  {
  }

  lemma JoinNothing(a: Acked)
    ensures Join(Untouched([], a.lastXmit), a) == a
    ensures Join(a, Untouched([], a.lastXmit)) == a
  {
  }

  /** The list when a walk over m has come to segment i and acc is what it did so far. */
  function WalkedTo(acc: Acked, m: seq<Seg>, i: nat): seq<Seg>
    requires i <= |m|
  {
    acc.list + m[i..]
  }

  lemma WalkedOn(acc: Acked, one: Acked, m: seq<Seg>, i: nat)
    requires i < |m| && |acc.list| == i && |one.list| == 1
    ensures WalkedTo(acc, m, i)[i] == m[i]
    ensures WalkedTo(acc, m, i)[i := one.list[0]] == WalkedTo(Join(acc, one), m, i + 1)
  {
  }

  /** The first walk as far as segment i. */
  function AckTo(m: seq<Seg>, i: nat): (acc: Acked)
    requires i <= |m|
    ensures |acc.list| == i
  {
    if i == 0 then Untouched([], 0) else Join(AckTo(m, i - 1), AckWhole(m[i - 1], AckTo(m, i - 1).lastXmit))
  }

  lemma {:induction false} AckToIs(m: seq<Seg>, i: nat)
    requires i <= |m|
    ensures Join(AckTo(m, i), AckAll(m[i..], AckTo(m, i).lastXmit)) == AckAll(m, 0)
  {
    if i == 0 {
      assert m[0..] == m;
      JoinNothing(AckAll(m, 0));
    } else {
      var acc := AckTo(m, i - 1);
      var one := AckWhole(m[i - 1], acc.lastXmit);
      AckToIs(m, i - 1);
      assert m[i - 1..][1..] == m[i..];
      JoinAssociates(acc, one, AckAll(m[i..], one.lastXmit));
    }
  }

  /** The first walk over m has come to segment i: vals is the list, d the counters, which were c at the start. */
  predicate AckAllState(m: seq<Seg>, i: nat, acc: Acked, vals: seq<Seg>, c: RttCounters, d: RttCounters) {
    i <= |m| && acc == AckTo(m, i) && vals == WalkedTo(acc, m, i) && d == Count(c, acc)
  }

  lemma AckAllStart(m: seq<Seg>, c: RttCounters)
    ensures AckAllState(m, 0, Untouched([], 0), m, c, c)
  {
  }

  lemma AckAllMove(m: seq<Seg>, i: nat, acc: Acked, vals: seq<Seg>, c: RttCounters, d: RttCounters)
    requires AckAllState(m, i, acc, vals, c, d) && i < |m|
    ensures vals[i] == m[i]
    ensures var one := AckWhole(m[i], acc.lastXmit);
            AckAllState(m, i + 1, Join(acc, one), vals[i := one.list[0]], c, Count(d, one))
  {
    var one := AckWhole(m[i], acc.lastXmit);
    WalkedOn(acc, one, m, i);
    CountStep(c, acc, one);
  }

  lemma AckAllEnd(m: seq<Seg>, acc: Acked, vals: seq<Seg>, c: RttCounters, d: RttCounters)
    requires AckAllState(m, |m|, acc, vals, c, d)
    ensures acc == AckAll(m, 0) && vals == acc.list && d == Count(c, acc)
  {
    AckToIs(m, |m|);
    JoinNothing(acc);
  }

  /** The second walk, likewise. */
  predicate AckUpToState(m: seq<Seg>, i: nat, acc: Acked, vals: seq<Seg>, c: RttCounters, d: RttCounters,
                         goal: Acked, ack: int, dataLen: nat, now: int) {
    && i <= |m| && |acc.list| == i
    && vals == WalkedTo(acc, m, i)
    && Join(acc, AckUpTo(m[i..], ack, dataLen, now, acc.lastXmit)) == goal
    && d == Count(c, acc)
  }

  lemma AckUpToStart(m: seq<Seg>, c: RttCounters, ack: int, dataLen: nat, now: int, lastXmit: int)
    ensures AckUpToState(m, 0, Untouched([], lastXmit), m, c, c, AckUpTo(m, ack, dataLen, now, lastXmit), ack, dataLen, now)
  {
    assert m[0..] == m;
    JoinNothing(AckUpTo(m, ack, dataLen, now, lastXmit));
  }

  lemma AckUpToMove(m: seq<Seg>, i: nat, acc: Acked, vals: seq<Seg>, c: RttCounters, d: RttCounters,
                    goal: Acked, ack: int, dataLen: nat, now: int)
    requires AckUpToState(m, i, acc, vals, c, d, goal, ack, dataLen, now) && i < |m| && ack > m[i].first
    ensures vals[i] == m[i]
    ensures var one := AckOne(m[i], ack, dataLen, now, acc.lastXmit);
            AckUpToState(m, i + 1, Join(acc, one), vals[i := one.list[0]], c, Count(d, one), goal, ack, dataLen, now)
  {
    var one := AckOne(m[i], ack, dataLen, now, acc.lastXmit);
    WalkedOn(acc, one, m, i);
    assert m[i..][1..] == m[i + 1..];
    JoinAssociates(acc, one, AckUpTo(m[i + 1..], ack, dataLen, now, one.lastXmit));
    CountStep(c, acc, one);
  }

  /** What lies ahead of the walk has not changed. */
  lemma AckUpToAhead(m: seq<Seg>, i: nat, acc: Acked, vals: seq<Seg>, c: RttCounters, d: RttCounters,
                     goal: Acked, ack: int, dataLen: nat, now: int)
    requires AckUpToState(m, i, acc, vals, c, d, goal, ack, dataLen, now)
    ensures |vals| == |m| && (i < |m| ==> vals[i] == m[i])
  {
  }

  lemma AckUpToEnd(m: seq<Seg>, i: nat, acc: Acked, vals: seq<Seg>, c: RttCounters, d: RttCounters,
                   goal: Acked, ack: int, dataLen: nat, now: int)
    requires AckUpToState(m, i, acc, vals, c, d, goal, ack, dataLen, now) && (i == |m| || ack <= m[i].first)
    ensures vals == goal.list && d == Count(c, goal)
    ensures acc.ret == goal.ret && acc.changed == goal.changed && acc.samples == goal.samples
  {
    assert acc.samples + [] == acc.samples;
  }

  lemma CountStep(c: RttCounters, a: Acked, b: Acked)
    ensures Count(c, Join(a, b)) == Count(Count(c, a), b)
  {
    SumConcat(a.samples, b.samples);
  }
}
