/**
 The queueing-delay estimate of one direction: the base-delay history and the filter over the latest gross delays
 (FILTERING, after section 2.4.2 of RFC 6817), or the plain minimum without FILTERING.
 */
module BaseDelay {
  import opened Common

  /** One rollover of the history a minute. Times are in microseconds, delays in milliseconds. */
  const ROLLOVER := 60_000_000

  /** The estimator as a value: base-delay history, base delay, latest gross delays, next slot, last rollover. */
  datatype Est = Est(hist: seq<int>, base: int, cur: seq<int>, idx: nat, rollover: int)

  function Zeros(n: nat): seq<int> {
    seq(n, i => 0)
  }

  /** All fields zero, with room for b base delays and c gross delays. */
  function NewEst(b: nat, c: nat): Est {
    Est(Zeros(b), 0, Zeros(c), 0, 0)
  }

  predicate Shaped(e: Est, b: nat, c: nat) {
    |e.hist| == b && |e.cur| == c && e.idx < c
  }

  /** Entries never measured take the new delay. */
  function Fill(hist: seq<int>, g: int): (t: seq<int>)
    ensures |t| == |hist| && forall i :: 0 <= i < |hist| ==> t[i] == if hist[i] == 0 then g else hist[i]
  {
    seq(|hist|, i requires 0 <= i < |hist| => if hist[i] == 0 then g else hist[i])
  }

  predicate RollsOver(e: Est, now: int) {
    now >= e.rollover && now - e.rollover > ROLLOVER
  }

  /** The history after a new delay: after a minute the oldest minimum is dropped, otherwise the running minimum is updated. */
  function NextHist(e: Est, g: int, now: int): seq<int>
    requires e.hist != []
  {
    var h := Fill(e.hist, g);
    var last := |h| - 1;
    if RollsOver(e, now) then h[1..] + [g] else if g < h[last] then h[last := g] else h
  }

  /** The slot after i in a ring of n slots. */
  function NextSlot(i: nat, n: nat): (k: nat)
    requires i < n
  {
    if i + 1 == n then 0 else i + 1
  }

  /** update_gross_delay_related_stuff with FILTERING. */
  function Filtered(e: Est, g: int, now: int): Est
    requires e.hist != [] && e.idx < |e.cur|
  {
    var h := NextHist(e, g, now);
    Est(h, Min(h), e.cur[e.idx := g], NextSlot(e.idx, |e.cur|), if RollsOver(e, now) then now else e.rollover)
  }

  /** update_gross_delay_related_stuff without FILTERING. */
  function Plain(e: Est, g: int): Est
    requires e.cur != []
  {
    e.(cur := e.cur[0 := g], base := if g < e.base || e.base == 0 then g else e.base)
  }

  function Updated(e: Est, filtering: bool, g: int, now: int): Est
    requires e.hist != [] && e.idx < |e.cur|
  {
    if filtering then Filtered(e, g, now) else Plain(e, g)
  }

  /** The loop of get_queueing_delay over the latest gross delays, from slot i on; 0 stands for none. */
  function Smallest(cur: seq<int>, i: nat, f: int): int
    requires i <= |cur|
    decreases |cur| - i
  {
    if i == |cur| then f
    else Smallest(cur, i + 1, if (cur[i] < f && cur[i] > 0) || f == 0 then cur[i] else f)
  }

  function QueueingDelay(e: Est, filtering: bool): int
    requires e.cur != []
  {
    (if filtering then Smallest(e.cur, 1, e.cur[0]) else e.cur[0]) - e.base
  }

  // ---- the filter picks the smallest positive delay ----

  lemma {:induction false} SmallestPositive(cur: seq<int>, i: nat, f: int)
    requires i <= |cur| && f >= 0 && forall k :: 0 <= k < |cur| ==> cur[k] >= 0
    ensures var s := Smallest(cur, i, f);
            && s >= 0
            && (f > 0 ==> 0 < s <= f)
            && (forall k :: i <= k < |cur| && cur[k] > 0 ==> 0 < s <= cur[k])
            && (s == f || exists k :: i <= k < |cur| && cur[k] == s)
    decreases |cur| - i
  {
    if i < |cur| {
      var g := if (cur[i] < f && cur[i] > 0) || f == 0 then cur[i] else f;
      SmallestPositive(cur, i + 1, g);
    }
  }

  /** Of delays that are not negative, at least one of them positive, the filter returns the smallest positive one. */
  lemma FilterIsMinimum(cur: seq<int>, k: nat)
    requires k < |cur| && cur[k] > 0 && forall j :: 0 <= j < |cur| ==> cur[j] >= 0
    ensures var s := Smallest(cur, 1, cur[0]);
            s in cur && 0 < s && forall j :: 0 <= j < |cur| && cur[j] > 0 ==> s <= cur[j]
  {
    SmallestPositive(cur, 1, cur[0]);
  }

  // ---- the bound with FILTERING ----

  /** How many delays ago slot j was written, if it was written at all. */
  function Age(e: Est, j: nat): nat
    requires j < |e.cur|
  {
    if j < e.idx then e.idx - 1 - j else e.idx + |e.cur| - 1 - j
  }

  /** A base delay that is no older than the delay in slot j bounds it from below. */
  ghost predicate Bounded(e: Est, j: nat)
    requires j < |e.cur|
  {
    exists m :: |e.hist| - 1 - Age(e, j) <= m < |e.hist| && 0 <= m && e.hist[m] <= e.cur[j]
  }

  /** What every positive delay keeps: each of the latest delays has a base delay below it that has not been shifted out. */
  ghost predicate EstOk(e: Est) {
    && e.hist != [] && e.idx < |e.cur| <= |e.hist|
    && (forall i :: 0 <= i < |e.hist| ==> e.hist[i] >= 0)
    && (forall j :: 0 <= j < |e.cur| ==> e.cur[j] >= 0)
    && (forall j :: 0 <= j < |e.cur| && e.cur[j] > 0 ==> Bounded(e, j) && forall i :: 0 <= i < |e.hist| ==> e.hist[i] > 0)
  }

  lemma NewEstOk(b: nat, c: nat)
    requires 0 < c <= b
    ensures EstOk(NewEst(b, c))
  {
  }

  /** The history after a positive delay: positive, its newest entry no larger than the delay, older entries shifted by one at most. */
  lemma NextHistBounds(e: Est, g: int, now: int)
    requires EstOk(e) && g > 0
    ensures var h := NextHist(e, g, now);
            && |h| == |e.hist| && h[|h| - 1] <= g
            && (forall i :: 0 <= i < |h| ==> h[i] > 0)
            && (forall m :: 0 < m < |h| && e.hist[m] > 0 ==> h[m] <= e.hist[m] || h[m - 1] <= e.hist[m])
  {
  }

  lemma SlotStaysBounded(e: Est, g: int, now: int, j: nat)
    requires EstOk(e) && g > 0 && j < |e.cur| && (j == e.idx || e.cur[j] > 0)
    ensures Bounded(Filtered(e, g, now), j)
  {
    var t := Filtered(e, g, now);
    NextHistBounds(e, g, now);
    if j == e.idx {
      assert t.hist[|t.hist| - 1] <= t.cur[j];
    } else {
      var m :| |e.hist| - 1 - Age(e, j) <= m < |e.hist| && 0 <= m && e.hist[m] <= e.cur[j];
      assert Age(t, j) == Age(e, j) + 1 && Age(t, j) < |t.cur|;
      var k := if t.hist[m] <= e.cur[j] then m else m - 1;
      assert |t.hist| - 1 - Age(t, j) <= k && t.hist[k] <= e.cur[j];
    }
  }

  lemma FilteredOk(e: Est, g: int, now: int)
    requires EstOk(e) && g > 0
    ensures var t := Filtered(e, g, now);
            EstOk(t) && |t.hist| == |e.hist| && |t.cur| == |e.cur| && t.cur[e.idx] == g && t.base == Min(t.hist)
  {
    var t := Filtered(e, g, now);
    NextHistBounds(e, g, now);
    forall j | 0 <= j < |t.cur| && t.cur[j] > 0
      ensures Bounded(t, j)
    {
      SlotStaysBounded(e, g, now, j);
    }
  }

  /** One gross delay and the time it was measured at. */
  datatype Delay = Delay(gross: int, now: int)

  predicate AllPositive(ds: seq<Delay>) {
    forall i :: 0 <= i < |ds| ==> ds[i].gross > 0
  }

  /** The estimator after the delays ds, with room for b base delays and c gross delays. */
  function FilteredRun(b: nat, c: nat, ds: seq<Delay>): (e: Est)
    requires 0 < b && 0 < c
    ensures Shaped(e, b, c)
  {
    if ds == [] then NewEst(b, c) else
      var d := ds[|ds| - 1];
      Filtered(FilteredRun(b, c, ds[..|ds| - 1]), d.gross, d.now)
  }

  lemma {:induction false} RunOk(b: nat, c: nat, ds: seq<Delay>)
    requires 0 < c <= b && AllPositive(ds)
    ensures EstOk(FilteredRun(b, c, ds))
  {
    if ds == [] {
      NewEstOk(b, c);
    } else {
      var d := ds[|ds| - 1];
      RunOk(b, c, ds[..|ds| - 1]);
      FilteredOk(FilteredRun(b, c, ds[..|ds| - 1]), d.gross, d.now);
    }
  }

  lemma BaseBelow(e: Est, j: nat)
    requires j < |e.cur| && Bounded(e, j) && e.hist != [] && e.base == Min(e.hist)
    ensures e.base <= e.cur[j]
  {
    var m :| |e.hist| - 1 - Age(e, j) <= m < |e.hist| && 0 <= m && e.hist[m] <= e.cur[j];
    assert e.hist[m] in e.hist;
  }

  /**
   With FILTERING and at most as many filtered delays as base delays, after every positive delay the estimate lies
   between zero and that delay, whatever the times of the delays.
   */
  lemma QueueingDelayWithinGross(b: nat, c: nat, ds: seq<Delay>)
    requires 0 < c <= b && ds != [] && AllPositive(ds)
    ensures 0 <= QueueingDelay(FilteredRun(b, c, ds), true) <= ds[|ds| - 1].gross
  {
    var d := ds[|ds| - 1];
    var e := FilteredRun(b, c, ds[..|ds| - 1]);
    var t := FilteredRun(b, c, ds);
    RunOk(b, c, ds[..|ds| - 1]);
    FilteredOk(e, d.gross, d.now);
    FilterIsMinimum(t.cur, e.idx);
    var j :| 0 <= j < |t.cur| && t.cur[j] == Smallest(t.cur, 1, t.cur[0]);
    BaseBelow(t, j);
    assert t.base >= 0 by { assert t.base in t.hist; }
  }

  // ---- what goes wrong with a delay of zero ----

  lemma FirstDelay(b: nat, c: nat, d: int, now: int)
    requires 0 < b && 2 <= c && d > 0
    ensures var e := Filtered(NewEst(b, c), d, now);
            && (forall i :: 0 <= i < b ==> e.hist[i] == d) && e.idx == 1
            && (forall j :: 0 <= j < c ==> e.cur[j] == if j == 0 then d else 0)
  {
  }

  lemma ZeroEntersHistory(e: Est, d: int, now: int)
    requires e.hist != [] && d > 0 && forall i :: 0 <= i < |e.hist| ==> e.hist[i] == d
    ensures Min(NextHist(e, 0, now)) == 0
  {
    var h := NextHist(e, 0, now);
    assert h[|h| - 1] == 0;
    forall i | 0 <= i < |h| - 1
      ensures h[i] == d
    {
      assert Fill(e.hist, 0)[i] == d && Fill(e.hist, 0)[i + 1] == d;
    }
  }

  lemma ZeroAfterFirst(e: Est, d: int, now: int)
    requires d > 0 && e.hist != [] && |e.cur| >= 2 && e.idx == 1
    requires forall i :: 0 <= i < |e.hist| ==> e.hist[i] == d
    requires forall j :: 0 <= j < |e.cur| ==> e.cur[j] == if j == 0 then d else 0
    ensures QueueingDelay(Filtered(e, 0, now), true) == d
  {
    ZeroEntersHistory(e, d, now);
    FilterIsMinimum(e.cur[1 := 0], 0);
  }

  /** A delay of zero after a positive one: the estimate exceeds the newest delay. */
  lemma ZeroDelayOvershoots(b: nat, c: nat, d: int, t0: int, t1: int)
    requires 0 < b && 2 <= c && d > 0
    ensures QueueingDelay(FilteredRun(b, c, [Delay(d, t0), Delay(0, t1)]), true) == d
  {
    TwoDelays(b, c, Delay(d, t0), Delay(0, t1));
    FirstDelay(b, c, d, t0);
    ZeroAfterFirst(Filtered(NewEst(b, c), d, t0), d, t1);
  }

  lemma TwoDelays(b: nat, c: nat, x: Delay, y: Delay)
    requires 0 < b && 2 <= c
    ensures FilteredRun(b, c, [x, y]) == Filtered(Filtered(NewEst(b, c), x.gross, x.now), y.gross, y.now)
  {
    assert [x][..0] == [] && [x, y][..1] == [x];
    assert FilteredRun(b, c, [x]) == Filtered(NewEst(b, c), x.gross, x.now);
  }

  // ---- the bound without FILTERING ----

  function PlainRun(c: nat, ds: seq<Delay>): (e: Est)
    requires 0 < c
    ensures |e.cur| == c
  {
    if ds == [] then NewEst(0, c) else Plain(PlainRun(c, ds[..|ds| - 1]), ds[|ds| - 1].gross)
  }

  predicate NoneNegative(ds: seq<Delay>) {
    forall i :: 0 <= i < |ds| ==> ds[i].gross >= 0
  }

  /** Without FILTERING the estimate lies between zero and the newest delay, also when delays are zero. */
  lemma {:induction false} PlainWithinGross(c: nat, ds: seq<Delay>)
    requires 0 < c && NoneNegative(ds)
    ensures var e := PlainRun(c, ds);
            && 0 <= QueueingDelay(e, false) <= e.cur[0]
            && e.base >= 0 && (ds != [] ==> e.cur[0] == ds[|ds| - 1].gross)
  {
    if ds != [] {
      PlainWithinGross(c, ds[..|ds| - 1]);
    }
  }

  /** While all delays are positive, the base delay without FILTERING is their minimum. */
  lemma {:induction false} PlainBaseIsMinimum(c: nat, ds: seq<Delay>)
    requires 0 < c && ds != [] && AllPositive(ds)
    ensures var m := PlainRun(c, ds).base;
            && (exists k :: 0 <= k < |ds| && ds[k].gross == m)
            && (forall k :: 0 <= k < |ds| ==> m <= ds[k].gross)
  {
    var n := |ds| - 1;
    if n > 0 {
      var rest := ds[..n];
      PlainBaseIsMinimum(c, rest);
      var k :| 0 <= k < |rest| && rest[k].gross == PlainRun(c, rest).base;
      assert ds[k] == rest[k];
      forall i | 0 <= i < |ds|
        ensures PlainRun(c, ds).base <= ds[i].gross
      {
        if i < n {
          assert ds[i] == rest[i];
        }
      }
    } else {
      assert ds[..0] == [];
    }
  }
}
