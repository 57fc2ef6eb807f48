/**
 The estimate with FILTERING over all runs of non-negative delays: which delays the base-delay history remembers, and
 exactly when the estimate lies between zero and the newest delay.
 */
module ZeroDelays {
  import opened Common
  import opened BaseDelay

  // ---- minutes ----

  /** The time of the last delay that started a minute. */
  function LastStart(ds: seq<Delay>): int
    decreases |ds|, 1
  {
    if ds == [] then 0 else if StartsMinute(ds) then ds[|ds| - 1].now else LastStart(ds[..|ds| - 1])
  }

  /** The newest delay comes more than a minute after the last start. */
  predicate StartsMinute(ds: seq<Delay>)
    requires ds != []
    decreases |ds|, 0
  {
    ds[|ds| - 1].now - LastStart(ds[..|ds| - 1]) > ROLLOVER
  }

  /** The number of the minute that the newest delay belongs to. */
  function Minute(ds: seq<Delay>): nat {
    if ds == [] then 0 else Minute(ds[..|ds| - 1]) + if StartsMinute(ds) then 1 else 0
  }

  lemma {:induction false} RolloverIs(b: nat, c: nat, ds: seq<Delay>)
    requires 0 < b && 0 < c
    ensures FilteredRun(b, c, ds).rollover == LastStart(ds)
  {
    if ds != [] {
      RolloverIs(b, c, ds[..|ds| - 1]);
    }
  }

  // ---- what the history remembers ----

  /**
   The delays that are remembered for minute m: those of the minute since its last zero, or, if there are none, the first
   positive delay after it. Minutes before the first delay remember the first positive delay.
   */
  function Kept(ds: seq<Delay>, m: int): seq<int> {
    if ds == [] || m > Minute(ds) then [] else
      var g, kept := ds[|ds| - 1].gross, Kept(ds[..|ds| - 1], m);
      if m == Minute(ds) then
        if g == 0 then [] else kept + [g]
      else
        if kept == [] && g != 0 then [g] else kept
  }

  /** The least of the remembered delays, 0 if there are none. */
  function Least(kept: seq<int>): int {
    if kept == [] then 0 else Min(kept)
  }

  predicate Positive(s: seq<int>) {
    forall i :: 0 <= i < |s| ==> s[i] > 0
  }

  lemma {:induction false} KeptPositive(ds: seq<Delay>, m: int)
    requires NoneNegative(ds)
    ensures Positive(Kept(ds, m))
  {
    if ds != [] {
      KeptPositive(ds[..|ds| - 1], m);
    }
  }

  lemma LeastAppend(kept: seq<int>, g: int)
    requires Positive(kept) && g > 0
    ensures Least(kept + [g]) == if kept == [] || g < Least(kept) then g else Least(kept)
    ensures Least(kept) >= 0 && (Least(kept) == 0 <==> kept == [])
  {
    if kept != [] {
      assert (kept + [g])[..|kept|] == kept;
      assert Min(kept) in kept;
    } else {
      assert [] + [g] == [g];
    }
  }

  /** Entry i of the history, after one more delay. */
  lemma NextEntry(e: Est, g: int, now: int, i: nat)
    requires i < |e.hist| && g >= 0
    ensures var f := (x: int) => if x == 0 then g else x;
            NextHist(e, g, now)[i] ==
            if RollsOver(e, now) then (if i == |e.hist| - 1 then g else f(e.hist[i + 1]))
            else if i == |e.hist| - 1 && g < f(e.hist[i]) then g else f(e.hist[i])
  {
  }

  /** What is remembered for minute m, after one more delay. */
  lemma NextLeast(ds: seq<Delay>, m: int)
    requires ds != [] && NoneNegative(ds)
    ensures var g, before := ds[|ds| - 1].gross, Least(Kept(ds[..|ds| - 1], m));
            var f := if before == 0 then g else before;
            m <= Minute(ds) ==>
              Least(Kept(ds, m)) == if m == Minute(ds) && (g < f || StartsMinute(ds)) then g else f
  {
    var g, kept := ds[|ds| - 1].gross, Kept(ds[..|ds| - 1], m);
    KeptPositive(ds[..|ds| - 1], m);
    if g > 0 {
      LeastAppend(kept, g);
      LeastAppend([], g);
      assert [] + [g] == [g];
    } else if kept != [] {
      assert Min(kept) in kept;
    }
  }

  /** Entry i of a history of b minutes stands for this minute. */
  function MinuteOf(ds: seq<Delay>, b: nat, i: nat): int {
    Minute(ds) - b + 1 + i
  }

  /** The same in terms of the entries: those before tell those after. */
  lemma EntryStays(e: Est, ds: seq<Delay>, rest: seq<Delay>, b: nat, i: nat, m: int, hist: seq<int>)
    requires ds != [] && rest == ds[..|ds| - 1] && i < b == |e.hist| && NoneNegative(ds) && e.rollover == LastStart(rest)
    requires !RollsOver(e, ds[|ds| - 1].now) && e.hist[i] == Least(Kept(rest, MinuteOf(rest, b, i)))
    requires m == MinuteOf(ds, b, i) && hist == NextHist(e, ds[|ds| - 1].gross, ds[|ds| - 1].now)
    ensures hist[i] == Least(Kept(ds, m))
  {
    NextEntry(e, ds[|ds| - 1].gross, ds[|ds| - 1].now, i);
    NextLeast(ds, m);
  }

  lemma EntryMoves(e: Est, ds: seq<Delay>, rest: seq<Delay>, b: nat, i: nat, m: int, hist: seq<int>, before: int)
    requires ds != [] && rest == ds[..|ds| - 1] && i < b == |e.hist| && NoneNegative(ds) && e.rollover == LastStart(rest)
    requires RollsOver(e, ds[|ds| - 1].now)
    requires before == MinuteOf(rest, b, i + 1) && (i < b - 1 ==> e.hist[i + 1] == Least(Kept(rest, before)))
    requires m == MinuteOf(ds, b, i) && hist == NextHist(e, ds[|ds| - 1].gross, ds[|ds| - 1].now)
    ensures hist[i] == Least(Kept(ds, m))
  {
    NextEntry(e, ds[|ds| - 1].gross, ds[|ds| - 1].now, i);
    NextLeast(ds, m);
    NoneYet(rest, Minute(rest) + 1);
  }

  lemma NoneYet(ds: seq<Delay>, m: int)
    requires m > Minute(ds)
    ensures Least(Kept(ds, m)) == 0
  {
  }

  lemma HistoryAfter(b: nat, c: nat, ds: seq<Delay>, rest: seq<Delay>, hist: seq<int>) returns (e: Est)
    requires 0 < b && 0 < c && ds != [] && rest == ds[..|ds| - 1] && hist == FilteredRun(b, c, ds).hist
    ensures e == FilteredRun(b, c, rest) && |e.hist| == b && e.rollover == LastStart(rest)
    ensures hist == NextHist(e, ds[|ds| - 1].gross, ds[|ds| - 1].now)
  {
    e := FilteredRun(b, c, rest);
    RolloverIs(b, c, rest);
  }

  lemma {:induction false} HistoryTells(b: nat, c: nat, ds: seq<Delay>, i: nat, hist: seq<int>, m: int)
    requires 0 < b && 0 < c && NoneNegative(ds) && i < b && hist == FilteredRun(b, c, ds).hist && m == MinuteOf(ds, b, i)
    ensures hist[i] == Least(Kept(ds, m))
    decreases |ds|
  {
    if ds != [] {
      var e := HistoryAfter(b, c, ds, ds[..|ds| - 1], hist);
      if RollsOver(e, ds[|ds| - 1].now) {
        TellsMoved(b, c, ds, i, e, hist, m);
      } else {
        TellsStayed(b, c, ds, i, e, hist, m);
      }
    }
  }

  lemma TellsStayed(b: nat, c: nat, ds: seq<Delay>, i: nat, e: Est, hist: seq<int>, m: int)
    requires 0 < b && 0 < c && NoneNegative(ds) && i < b && ds != [] && e == FilteredRun(b, c, ds[..|ds| - 1]) && |e.hist| == b
    requires e.rollover == LastStart(ds[..|ds| - 1]) && !RollsOver(e, ds[|ds| - 1].now)
    requires m == MinuteOf(ds, b, i) && hist == NextHist(e, ds[|ds| - 1].gross, ds[|ds| - 1].now)
    ensures hist[i] == Least(Kept(ds, m))
    decreases |ds|, 0
  {
    var rest := ds[..|ds| - 1];
    HistoryTells(b, c, rest, i, e.hist, MinuteOf(rest, b, i));
    EntryStays(e, ds, rest, b, i, m, hist);
  }

  lemma TellsMoved(b: nat, c: nat, ds: seq<Delay>, i: nat, e: Est, hist: seq<int>, m: int)
    requires 0 < b && 0 < c && NoneNegative(ds) && i < b && ds != [] && e == FilteredRun(b, c, ds[..|ds| - 1]) && |e.hist| == b
    requires e.rollover == LastStart(ds[..|ds| - 1]) && RollsOver(e, ds[|ds| - 1].now)
    requires m == MinuteOf(ds, b, i) && hist == NextHist(e, ds[|ds| - 1].gross, ds[|ds| - 1].now)
    ensures hist[i] == Least(Kept(ds, m))
    decreases |ds|, 0
  {
    var rest := ds[..|ds| - 1];
    var before := MinuteOf(rest, b, i + 1);
    if i < b - 1 { HistoryTells(b, c, rest, i + 1, e.hist, before); }
    EntryMoves(e, ds, rest, b, i, m, hist, before);
  }

  /** After any run of non-negative delays each entry of the history is the least of the delays remembered for its minute. */
  lemma HistoryRemembers(b: nat, c: nat, ds: seq<Delay>, i: nat)
    requires 0 < b && 0 < c && NoneNegative(ds) && i < b
    ensures FilteredRun(b, c, ds).hist[i] == Least(Kept(ds, MinuteOf(ds, b, i)))
  {
    HistoryTells(b, c, ds, i, FilteredRun(b, c, ds).hist, MinuteOf(ds, b, i));
  }

  // ---- what the filter sees ----

  /** Slot j of the filter holds the delay of its age. */
  predicate SlotHolds(e: Est, ds: seq<Delay>, j: nat)
    requires j < |e.cur|
  {
    e.cur[j] == if Age(e, j) < |ds| then ds[|ds| - 1 - Age(e, j)].gross else 0
  }

  lemma SlotStep(e: Est, ds: seq<Delay>, rest: seq<Delay>, j: nat)
    requires ds != [] && rest == ds[..|ds| - 1]
    requires e.hist != [] && e.idx < |e.cur| && j < |e.cur| && (j == e.idx || SlotHolds(e, rest, j))
    ensures SlotHolds(Filtered(e, ds[|ds| - 1].gross, ds[|ds| - 1].now), ds, j)
  {
    var t := Filtered(e, ds[|ds| - 1].gross, ds[|ds| - 1].now);
    assert Age(t, j) == if j == e.idx then 0 else Age(e, j) + 1;
  }

  lemma {:induction false} FilterHolds(b: nat, c: nat, ds: seq<Delay>, j: nat)
    requires 0 < b && 0 < c && j < c
    ensures SlotHolds(FilteredRun(b, c, ds), ds, j)
  {
    if ds != [] {
      var rest := ds[..|ds| - 1];
      var e := FilteredRun(b, c, rest);
      if j != e.idx { FilterHolds(b, c, rest, j); }
      SlotStep(e, ds, rest, j);
    }
  }

  /** The slot that holds the delay of age a. */
  function SlotOf(e: Est, a: nat): (j: nat)
    requires e.idx < |e.cur| && a < |e.cur|
    ensures j < |e.cur| && Age(e, j) == a
  {
    if a < e.idx then e.idx - 1 - a else e.idx + |e.cur| - 1 - a
  }

  /** Delay k is one of the last c. */
  predicate Recent(ds: seq<Delay>, c: nat, k: int) {
    0 <= k < |ds| && |ds| - c <= k
  }

  /** The filter returns the smallest positive one of the last c delays, 0 if they are all zero. */
  ghost predicate SmallestRecent(ds: seq<Delay>, c: nat, s: int) {
    && s >= 0
    && (forall k :: Recent(ds, c, k) && ds[k].gross > 0 ==> 0 < s <= ds[k].gross)
    && (s > 0 ==> exists k :: Recent(ds, c, k) && ds[k].gross == s)
  }

  lemma FilterReturns(b: nat, c: nat, ds: seq<Delay>)
    requires 0 < b && 0 < c && NoneNegative(ds)
    ensures var e := FilteredRun(b, c, ds); SmallestRecent(ds, c, Smallest(e.cur, 1, e.cur[0]))
  {
    var e := FilteredRun(b, c, ds);
    forall j | 0 <= j < c ensures SlotHolds(e, ds, j) { FilterHolds(b, c, ds, j); }
    SlotsReturn(e, ds, c);
  }

  lemma SlotOfRecent(e: Est, ds: seq<Delay>, c: nat, k: nat) returns (j: nat)
    requires |e.cur| == c && e.idx < c && Recent(ds, c, k) && forall j :: 0 <= j < c ==> SlotHolds(e, ds, j)
    ensures j < c && e.cur[j] == ds[k].gross
  {
    j := SlotOf(e, |ds| - 1 - k);
    assert SlotHolds(e, ds, j);
  }

  lemma SlotsReturn(e: Est, ds: seq<Delay>, c: nat)
    requires |e.cur| == c && e.idx < c && NoneNegative(ds) && forall j :: 0 <= j < c ==> SlotHolds(e, ds, j)
    ensures SmallestRecent(ds, c, Smallest(e.cur, 1, e.cur[0]))
  {
    forall j | 0 <= j < c ensures e.cur[j] >= 0 { assert SlotHolds(e, ds, j); }
    SmallestPositive(e.cur, 1, e.cur[0]);
    var s := Smallest(e.cur, 1, e.cur[0]);
    forall k | Recent(ds, c, k) && ds[k].gross > 0
      ensures 0 < s <= ds[k].gross
    {
      var j := SlotOfRecent(e, ds, c, k);
    }
    if s > 0 {
      var j :| 0 <= j < c && e.cur[j] == s;
      assert SlotHolds(e, ds, j) && Recent(ds, c, |ds| - 1 - Age(e, j));
    }
  }

  // ---- the base delay ----

  /** The delay x is remembered for one of the last b minutes. */
  ghost predicate Remembered(ds: seq<Delay>, b: nat, x: int) {
    exists m :: Minute(ds) - b < m <= Minute(ds) && x in Kept(ds, m)
  }

  /** After a zero the base delay is zero. */
  lemma BaseAfterZero(b: nat, c: nat, ds: seq<Delay>)
    requires 0 < b && 0 < c && ds != [] && NoneNegative(ds) && ds[|ds| - 1].gross == 0
    ensures FilteredRun(b, c, ds).base == 0
  {
    var h := FilteredRun(b, c, ds).hist;
    HistoryRemembers(b, c, ds, b - 1);
    assert h[b - 1] == 0;
    forall i | 0 <= i < b
      ensures h[i] >= 0
    {
      HistoryRemembers(b, c, ds, i);
      KeptPositive(ds, MinuteOf(ds, b, i));
      LeastAppend(Kept(ds, MinuteOf(ds, b, i)), 1);
    }
    assert Min(h) in h;
  }

  /** After a positive delay every one of the last b minutes remembers something. */
  lemma SomethingKept(ds: seq<Delay>, m: int)
    requires ds != [] && NoneNegative(ds) && ds[|ds| - 1].gross > 0 && m <= Minute(ds)
    ensures Kept(ds, m) != []
  {
  }

  /** After a positive delay the base delay is the least remembered one. */
  lemma BaseIsLeastRemembered(b: nat, c: nat, ds: seq<Delay>)
    requires 0 < b && 0 < c && ds != [] && NoneNegative(ds) && ds[|ds| - 1].gross > 0
    ensures var base := FilteredRun(b, c, ds).base;
            base > 0 && Remembered(ds, b, base) && forall x :: Remembered(ds, b, x) ==> base <= x
  {
    var h := FilteredRun(b, c, ds).hist;
    forall i | 0 <= i < b
      ensures h[i] == Min(Kept(ds, MinuteOf(ds, b, i))) > 0
    {
      HistoryRemembers(b, c, ds, i);
      SomethingKept(ds, MinuteOf(ds, b, i));
      KeptPositive(ds, MinuteOf(ds, b, i));
    }
    var i :| 0 <= i < b && h[i] == Min(h);
    assert Min(h) in Kept(ds, MinuteOf(ds, b, i));
    forall x | Remembered(ds, b, x)
      ensures Min(h) <= x
    {
      var m :| Minute(ds) - b < m <= Minute(ds) && x in Kept(ds, m);
      var k := m - Minute(ds) + b - 1;
      assert MinuteOf(ds, b, k) == m && h[k] in h;
    }
  }

  // ---- the estimate ----

  /** The least of the delays that are remembered for the last b minutes. */
  ghost predicate LeastRemembered(ds: seq<Delay>, b: nat, x: int) {
    Remembered(ds, b, x) && forall y :: Remembered(ds, b, y) ==> x <= y
  }

  /**
   The estimate is the smallest positive one of the last c delays, less the least delay remembered for the last b minutes; after
   a delay of zero nothing is taken off.
   */
  lemma FilteredEstimateIs(b: nat, c: nat, ds: seq<Delay>) returns (smallest: int, least: int)
    requires 0 < b && 0 < c && ds != [] && NoneNegative(ds)
    ensures SmallestRecent(ds, c, smallest)
    ensures if ds[|ds| - 1].gross == 0 then least == 0 else LeastRemembered(ds, b, least)
    ensures QueueingDelay(FilteredRun(b, c, ds), true) == smallest - least
  {
    var e := FilteredRun(b, c, ds);
    FilterReturns(b, c, ds);
    smallest, least := Smallest(e.cur, 1, e.cur[0]), e.base;
    if ds[|ds| - 1].gross == 0 {
      BaseAfterZero(b, c, ds);
    } else {
      BaseIsLeastRemembered(b, c, ds);
    }
  }

  /** There is only one smallest recent delay, and only one least remembered one. */
  lemma EstimateIsUnique(b: nat, c: nat, ds: seq<Delay>, s: int, t: int, x: int, y: int)
    requires SmallestRecent(ds, c, s) && SmallestRecent(ds, c, t) && LeastRemembered(ds, b, x) && LeastRemembered(ds, b, y)
    ensures s == t && x == y
  {
    if s > 0 {
      var k :| Recent(ds, c, k) && ds[k].gross == s;
      assert 0 < t <= s;
    }
    if t > 0 {
      var k :| Recent(ds, c, k) && ds[k].gross == t;
      assert 0 < s <= t;
    }
  }

  /** Delay k and all after it are positive. */
  predicate SinceZero(ds: seq<Delay>, k: int) {
    0 <= k < |ds| && forall j :: k <= j < |ds| ==> ds[j].gross > 0
  }

  /** The least of the delays since the last one of zero, or zero if that is the newest. */
  ghost predicate LeastSinceZero(ds: seq<Delay>, x: int)
    requires ds != []
  {
    if ds[|ds| - 1].gross == 0 then x == 0
    else (exists k :: SinceZero(ds, k) && ds[k].gross == x) && forall k :: SinceZero(ds, k) ==> x <= ds[k].gross
  }

  lemma SinceZeroMore(ds: seq<Delay>, k: int)
    requires ds != [] && ds[|ds| - 1].gross > 0
    ensures SinceZero(ds, k) <==> k == |ds| - 1 || SinceZero(ds[..|ds| - 1], k)
  {
    var rest := ds[..|ds| - 1];
    assert forall j :: 0 <= j < |rest| ==> rest[j] == ds[j];
  }

  /** Without FILTERING the base delay is the least one since the last zero. */
  lemma {:induction false} PlainBaseSinceZero(c: nat, ds: seq<Delay>)
    requires 0 < c && ds != [] && NoneNegative(ds)
    ensures LeastSinceZero(ds, PlainRun(c, ds).base) && PlainRun(c, ds).cur[0] == ds[|ds| - 1].gross
    ensures ds[|ds| - 1].gross > 0 ==> PlainRun(c, ds).base > 0
  {
    var rest, g := ds[..|ds| - 1], ds[|ds| - 1].gross;
    if rest != [] { PlainBaseSinceZero(c, rest); }
    if g > 0 {
      forall k ensures SinceZero(ds, k) <==> k == |ds| - 1 || SinceZero(rest, k) { SinceZeroMore(ds, k); }
      assert SinceZero(ds, |ds| - 1);
      PlainBaseStep(c, ds, rest, g);
    }
  }

  lemma PlainBaseStep(c: nat, ds: seq<Delay>, rest: seq<Delay>, g: int)
    requires 0 < c && ds != [] && NoneNegative(ds) && rest == ds[..|ds| - 1] && g == ds[|ds| - 1].gross > 0
    requires forall k :: SinceZero(ds, k) <==> k == |ds| - 1 || SinceZero(rest, k)
    requires rest != [] ==> LeastSinceZero(rest, PlainRun(c, rest).base) && (rest[|rest| - 1].gross > 0 ==> PlainRun(c, rest).base > 0)
    ensures LeastSinceZero(ds, PlainRun(c, ds).base) && PlainRun(c, ds).base > 0
  {
    var before, base := PlainRun(c, rest).base, PlainRun(c, ds).base;
    assert base == if g < before || before == 0 then g else before;
    if base == g {
      assert SinceZero(ds, |ds| - 1);
    } else {
      var k :| SinceZero(rest, k) && rest[k].gross == before;
      assert SinceZero(ds, k) && ds[k].gross == before;
    }
    forall k | SinceZero(ds, k) ensures base <= ds[k].gross {
      if k < |ds| - 1 { assert SinceZero(rest, k) && rest[k] == ds[k]; }
    }
  }

  /** Without FILTERING the estimate is the newest delay less the least one since the last zero. */
  lemma PlainEstimateIs(c: nat, ds: seq<Delay>) returns (least: int)
    requires 0 < c && ds != [] && NoneNegative(ds)
    ensures LeastSinceZero(ds, least)
    ensures QueueingDelay(PlainRun(c, ds), false) == ds[|ds| - 1].gross - least
  {
    PlainBaseSinceZero(c, ds);
    least := PlainRun(c, ds).base;
  }

  // ---- when the bounds hold ----

  /** The estimate exceeds the newest delay exactly if that is zero and another of the last c delays is not. */
  lemma UpperBound(b: nat, c: nat, ds: seq<Delay>)
    requires 0 < b && 0 < c && ds != [] && NoneNegative(ds)
    ensures QueueingDelay(FilteredRun(b, c, ds), true) <= ds[|ds| - 1].gross <==>
            ds[|ds| - 1].gross > 0 || forall k :: Recent(ds, c, k) ==> ds[k].gross == 0
  {
    FilterReturns(b, c, ds);
    var g := ds[|ds| - 1].gross;
    assert Recent(ds, c, |ds| - 1);
    if g == 0 {
      BaseAfterZero(b, c, ds);
    } else {
      BaseIsLeastRemembered(b, c, ds);
    }
  }

  /** No larger than any positive one of the last c delays. */
  ghost predicate BelowRecent(ds: seq<Delay>, c: nat, x: int) {
    forall k :: Recent(ds, c, k) && ds[k].gross > 0 ==> x <= ds[k].gross
  }

  /**
   The estimate is not negative exactly if the newest delay is zero, or a delay is remembered that is no larger than any
   positive one of the last c.
   */
  lemma LowerBound(b: nat, c: nat, ds: seq<Delay>)
    requires 0 < b && 0 < c && ds != [] && NoneNegative(ds)
    ensures 0 <= QueueingDelay(FilteredRun(b, c, ds), true) <==>
            ds[|ds| - 1].gross == 0 || exists x :: Remembered(ds, b, x) && BelowRecent(ds, c, x)
  {
    FilterReturns(b, c, ds);
    var e := FilteredRun(b, c, ds);
    var s := Smallest(e.cur, 1, e.cur[0]);
    if ds[|ds| - 1].gross == 0 {
      BaseAfterZero(b, c, ds);
    } else {
      assert Recent(ds, c, |ds| - 1);
      BaseIsLeastRemembered(b, c, ds);
      if e.base <= s {
        assert BelowRecent(ds, c, e.base);
      }
      forall x | Remembered(ds, b, x) && BelowRecent(ds, c, x)
        ensures e.base <= x <= s
      {
      }
    }
  }

  // ---- a condition on the last delays alone ----

  /** No delay after number k is zero. */
  predicate NoZeroAfter(ds: seq<Delay>, k: int) {
    forall j :: k < j < |ds| ==> 0 <= j && ds[j].gross > 0
  }

  /** A positive delay is remembered for its minute as long as no zero follows, and each later delay starts one minute at most. */
  lemma {:induction false} StaysKept(ds: seq<Delay>, k: nat) returns (m: int)
    requires k < |ds| && NoneNegative(ds) && ds[k].gross > 0 && NoZeroAfter(ds, k)
    ensures Minute(ds) - (|ds| - 1 - k) <= m <= Minute(ds) && ds[k].gross in Kept(ds, m)
    decreases |ds|
  {
    var n := |ds| - 1;
    if k == n {
      m := Minute(ds);
      assert ds[k].gross in Kept(ds[..n], m) + [ds[k].gross];
    } else {
      assert ds[n].gross > 0;
      m := StaysKept(ds[..n], k);
    }
  }

  /** While none of the last c delays is zero and the history is as long as the filter, the bounds hold. */
  lemma BoundsWithoutRecentZero(b: nat, c: nat, ds: seq<Delay>)
    requires 0 < c <= b && ds != [] && NoneNegative(ds) && forall k :: Recent(ds, c, k) ==> ds[k].gross > 0
    ensures 0 <= QueueingDelay(FilteredRun(b, c, ds), true) <= ds[|ds| - 1].gross
  {
    assert Recent(ds, c, |ds| - 1);
    UpperBound(b, c, ds);
    FilterReturns(b, c, ds);
    var e := FilteredRun(b, c, ds);
    var s := Smallest(e.cur, 1, e.cur[0]);
    var k :| Recent(ds, c, k) && ds[k].gross == s;
    forall j | k < j < |ds| ensures ds[j].gross > 0 { assert Recent(ds, c, j); }
    var m := StaysKept(ds, k);
    assert Remembered(ds, b, s) && BelowRecent(ds, c, s);
    LowerBound(b, c, ds);
  }

  // ---- what goes wrong ----

  /** A delay p, a smaller one q, a zero and a delay above p, all in one minute: the zero makes the history forget q. */
  function Forgotten(p: int, q: int, r: int, t: int): seq<Delay> {
    [Delay(p, t), Delay(q, t), Delay(0, t), Delay(r, t)]
  }

  /** In the first minute, kept is what is remembered for minute m. */
  predicate FirstMinute(ds: seq<Delay>, m: int, kept: seq<int>) {
    Minute(ds) == 0 && LastStart(ds) == 0 && Kept(ds, m) == kept
  }

  lemma KeptStep(ds: seq<Delay>, d: Delay, m: int, kept: seq<int>) returns (t: seq<Delay>, next: seq<int>)
    requires d.now <= ROLLOVER && m <= 0 && FirstMinute(ds, m, kept)
    ensures t == ds + [d] && FirstMinute(t, m, next)
    ensures next == if m == 0 then (if d.gross == 0 then [] else kept + [d.gross])
                    else if kept == [] && d.gross != 0 then [d.gross] else kept
  {
    t := ds + [d];
    next := Kept(t, m);
    assert t[..|ds|] == ds;
  }

  lemma ForgottenKept(p: int, q: int, r: int, t: int, m: int)
    requires 0 < q < p < r && t <= ROLLOVER && m <= 0
    ensures var ds := Forgotten(p, q, r, t); Minute(ds) == 0 && Kept(ds, m) == if m == 0 then [r] else [p]
  {
    var ds, kept := KeptStep([], Delay(p, t), m, []);
    ds, kept := KeptStep(ds, Delay(q, t), m, kept);
    ds, kept := KeptStep(ds, Delay(0, t), m, kept);
    ds, kept := KeptStep(ds, Delay(r, t), m, kept);
    assert ds == Forgotten(p, q, r, t);
  }

  /** The estimate after these delays is the difference of the two that it should never have been. */
  lemma ZeroForgetsMinimum(b: nat, c: nat, p: int, q: int, r: int, t: int)
    requires 2 <= b && 3 <= c && 0 < q < p < r && t <= ROLLOVER
    ensures QueueingDelay(FilteredRun(b, c, Forgotten(p, q, r, t)), true) == q - p
  {
    var ds := Forgotten(p, q, r, t);
    FilterReturns(b, c, ds);
    assert Recent(ds, c, 1);
    BaseIsLeastRemembered(b, c, ds);
    forall m | m <= 0 ensures Kept(ds, m) == if m == 0 then [r] else [p] { ForgottenKept(p, q, r, t, m); }
    ForgottenKept(p, q, r, t, 0);
    assert p in Kept(ds, -1);
    assert Remembered(ds, b, p);
  }

  // ---- a history shorter than the filter ----

  /** n times two minutes, in microseconds. */
  function TwoMinutes(n: int): int {
    n * 120_000_000
  }

  /** A delay of 1 followed by n delays of 10, two minutes apart. */
  function StepUp(n: nat): (ds: seq<Delay>)
    ensures |ds| == n + 1 && AllPositive(ds) && ds[0].gross == 1 && (n > 0 ==> ds[n].gross == 10)
  {
    if n == 0 then [Delay(1, 1)] else StepUp(n - 1) + [Delay(10, TwoMinutes(n))]
  }

  /** Each of them starts a minute; minutes from 1 on remember 10. */
  lemma {:induction false} StepUpKept(n: nat, m: int)
    ensures Minute(StepUp(n)) == n && LastStart(StepUp(n)) == TwoMinutes(n)
    ensures Kept(StepUp(n), m) == if m > n then [] else if m > 0 then [10] else [1]
    decreases n
  {
    if n == 0 {
      assert StepUp(0)[..0] == [];
    } else {
      assert StepUp(n)[..n] == StepUp(n - 1);
      StepUpKept(n - 1, m);
    }
  }

  ghost predicate NeverNegative(b: nat, c: nat)
    requires 0 < b && 0 < c
  {
    forall ds: seq<Delay> :: ds != [] && AllPositive(ds) ==> 0 <= QueueingDelay(FilteredRun(b, c, ds), true)
  }

  lemma StepUpNegative(b: nat, c: nat)
    requires 0 < b < c
    ensures QueueingDelay(FilteredRun(b, c, StepUp(b)), true) < 0
  {
    var ds := StepUp(b);
    forall m: int
      ensures Minute(ds) == b && (b >= m > 0 ==> Kept(ds, m) == [10])
    {
      StepUpKept(b, m);
    }
    StepUpKept(b, 0);
    assert Recent(ds, c, 0) && Recent(ds, c, b);
    forall x | Remembered(ds, b, x)
      ensures x == 10
    {
      var m :| Minute(ds) - b < m <= Minute(ds) && x in Kept(ds, m);
    }
    LowerBound(b, c, ds);
  }

  /** The estimate of every run of positive delays is non-negative exactly when the history is as long as the filter. */
  lemma HistoryMustCoverFilter(b: nat, c: nat)
    requires 0 < b && 0 < c
    ensures NeverNegative(b, c) <==> c <= b
  {
    if c <= b {
      forall ds: seq<Delay> | ds != [] && AllPositive(ds)
        ensures 0 <= QueueingDelay(FilteredRun(b, c, ds), true)
      {
        QueueingDelayWithinGross(b, c, ds);
      }
    } else {
      StepUpNegative(b, c);
    }
  }
}
