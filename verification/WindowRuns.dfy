/**
 Whole runs of the one-second windows: the incremental totals group the samples by second, and the self-checks end the
 program exactly when time goes back, a direction has counted too many chances, or the estimates of a second do not fit its
 delays.
 */
module WindowRuns {
  import opened Common
  import opened Windows

  // ---- the reference: grouping by second ----

  datatype Totals = Totals(count: int, chances: int, sum: int, sum2: int, gross: int)

  function Plus(a: Totals, b: Totals): Totals {
    Totals(a.count + b.count, a.chances + b.chances, a.sum + b.sum, a.sum2 + b.sum2, a.gross + b.gross)
  }

  const ZERO := Totals(0, 0, 0, 0, 0)

  function One(e: Event): Totals {
    match e
    case Sample(_, _, qd, gross) => Totals(1, 1, qd, qd * qd, gross)
    case Chance(_, _) => Totals(0, 1, 0, 0, 0)
  }

  /** The totals of one direction over the packets of seconds lo to hi - 1. */
  function TotalsOf(ev: seq<Event>, side: Side, lo: int, hi: int): Totals {
    if ev == [] then ZERO else
      var e, rest := ev[|ev| - 1], TotalsOf(ev[..|ev| - 1], side, lo, hi);
      if e.side == side && lo <= e.sec < hi then Plus(rest, One(e)) else rest
  }

  function Last(ev: seq<Event>): int
    requires ev != []
  {
    ev[|ev| - 1].sec
  }

  function ReportFrom(v: bool, t: Totals, total: int): Report {
    Report(if v then t.chances else -1, t.count, t.sum, t.sum2, MeanOf(t.sum, t.count), MeanOf(t.gross, t.count), total)
  }

  /** The report of one direction about second s. */
  function ReportAt(v: bool, ev: seq<Event>, side: Side, s: int): Report {
    ReportFrom(v, TotalsOf(ev, side, s, s + 1), TotalsOf(ev, side, 0, s + 1).sum)
  }

  predicate Active(ev: seq<Event>, s: int) {
    TotalsOf(ev, C2S, s, s + 1).chances + TotalsOf(ev, S2C, s, s + 1).chances > 0
  }

  /** The direction of the first packet after second s. */
  function Opener(ev: seq<Event>, s: int): Side
    requires ev != []
  {
    var n := |ev| - 1;
    if n > 0 && ev[n - 1].sec > s then Opener(ev[..n], s) else ev[n].side
  }

  function LineAt(v: bool, ev: seq<Event>, s: int): Line
    requires ev != []
  {
    var first := if Active(ev, s) then C2S else Opener(ev, s);
    Line(s, ReportAt(v, ev, first, s), ReportAt(v, ev, Flip(first), s))
  }

  /** One line for every second from lo to hi - 1; without SAMPLES_VALIDITY, only for those with packets. */
  function Expected(v: bool, ev: seq<Event>, lo: int, hi: int): seq<Line>
    requires ev != []
    decreases hi - lo
  {
    if lo >= hi then [] else
      (if v || Active(ev, lo) then [LineAt(v, ev, lo)] else []) + Expected(v, ev, lo + 1, hi)
  }

  /** What the callers pass: capture times after the epoch, and packets without a sample only with SAMPLES_VALIDITY. */
  predicate Timed(v: bool, ev: seq<Event>) {
    forall i :: 0 <= i < |ev| ==> ev[i].sec > 0 && (ev[i].Chance? ==> v)
  }

  /**
   What the last packet, if it is a sample, leaves of its direction in its second: the estimates add up to no more than the
   gross delays, and to something unless the last estimate is zero.
   */
  predicate LastSane(ev: seq<Event>)
    requires ev != []
  {
    var e := ev[|ev| - 1];
    var t := TotalsOf(ev, e.side, e.sec, e.sec + 1);
    e.Sample? ==> t.sum <= t.gross && (t.sum > 0 || e.qd == 0)
  }

  predicate SaneAt(ev: seq<Event>, i: int)
    requires 0 <= i < |ev|
  {
    LastSane(ev[..i + 1])
  }

  /** Every sample leaves its second so. */
  predicate Sane(ev: seq<Event>) {
    forall i :: 0 <= i < |ev| ==> SaneAt(ev, i)
  }

  predicate Sound(v: bool, ev: seq<Event>) {
    Timed(v, ev) && Sane(ev)
  }

  /** Seconds never go back. */
  predicate Ordered(ev: seq<Event>)
  {
    |ev| >= 2 ==> ev[|ev| - 2].sec <= ev[|ev| - 1].sec && Ordered(ev[..|ev| - 1])
  }

  /** At some close, one direction had counted more than a million chances. */
  predicate TooMany(v: bool, ev: seq<Event>)
  {
    v && |ev| >= 2 &&
    var rest, now := ev[..|ev| - 1], ev[|ev| - 1].sec;
    || TooMany(v, rest)
    || (now > Last(rest) && (TotalsOf(rest, C2S, 0, now).chances > MOST_CHANCES || TotalsOf(rest, S2C, 0, now).chances > MOST_CHANCES))
  }

  // ---- totals ----

  predicate AllBefore(ev: seq<Event>, hi: int) {
    forall i :: 0 <= i < |ev| ==> ev[i].sec < hi
  }

  lemma {:induction false} OrderedBefore(ev: seq<Event>, hi: int)
    requires ev != [] && Ordered(ev) && Last(ev) < hi
    ensures AllBefore(ev, hi)
  {
    if |ev| >= 2 {
      OrderedBefore(ev[..|ev| - 1], hi);
    }
  }

  lemma {:induction false} Empty(ev: seq<Event>, side: Side, lo: int, hi: int)
    requires AllBefore(ev, lo)
    ensures TotalsOf(ev, side, lo, hi) == ZERO
  {
    if ev != [] {
      Empty(ev[..|ev| - 1], side, lo, hi);
    }
  }

  lemma {:induction false} Settled(ev: seq<Event>, side: Side, lo: int, h1: int, h2: int)
    requires AllBefore(ev, h1) && AllBefore(ev, h2)
    ensures TotalsOf(ev, side, lo, h1) == TotalsOf(ev, side, lo, h2)
  {
    if ev != [] {
      Settled(ev[..|ev| - 1], side, lo, h1, h2);
    }
  }

  lemma {:induction false} Split(ev: seq<Event>, side: Side, lo: int, mid: int, hi: int)
    requires lo <= mid <= hi
    ensures TotalsOf(ev, side, lo, hi) == Plus(TotalsOf(ev, side, lo, mid), TotalsOf(ev, side, mid, hi))
  {
    if ev != [] {
      Split(ev[..|ev| - 1], side, lo, mid, hi);
    }
  }

  lemma Append(ev: seq<Event>, e: Event, side: Side, lo: int, hi: int)
    ensures var t := TotalsOf(ev, side, lo, hi);
            TotalsOf(ev + [e], side, lo, hi) == if e.side == side && lo <= e.sec < hi then Plus(t, One(e)) else t
  {
    assert (ev + [e])[..|ev|] == ev;
  }

  /** Counts, chances and squares of any packets. */
  lemma {:induction false} Counts(v: bool, ev: seq<Event>, side: Side, lo: int, hi: int)
    requires Timed(v, ev)
    ensures var t := TotalsOf(ev, side, lo, hi);
            && 0 <= t.count <= t.chances && 0 <= t.sum2
            && (t.count == 0 ==> t.sum == t.sum2 == t.gross == 0) && (!v ==> t.count == t.chances)
  {
    if ev != [] {
      Counts(v, ev[..|ev| - 1], side, lo, hi);
      SquareNotNegative(ev[|ev| - 1]);
    }
  }

  lemma SaneIs(ev: seq<Event>, e: Event)
    ensures Sane(ev + [e]) <==> Sane(ev) && LastSane(ev + [e])
  {
    var t := ev + [e];
    assert t[..|ev| + 1] == t;
    forall i | 0 <= i < |ev| ensures SaneAt(t, i) == SaneAt(ev, i) { assert t[..i + 1] == ev[..i + 1]; }
    if Sane(t) {
      assert SaneAt(t, |ev|);
      forall i | 0 <= i < |ev| ensures SaneAt(ev, i) { assert SaneAt(t, i); }
    }
  }

  lemma SaneRest(ev: seq<Event>)
    requires ev != []
    ensures Sane(ev) <==> Sane(ev[..|ev| - 1]) && LastSane(ev)
  {
    assert ev[..|ev| - 1] + [ev[|ev| - 1]] == ev;
    SaneIs(ev[..|ev| - 1], ev[|ev| - 1]);
  }

  lemma {:induction false} SaneSecond(ev: seq<Event>, side: Side, s: int, t: Totals)
    requires Sane(ev) && t == TotalsOf(ev, side, s, s + 1)
    ensures 0 <= t.sum <= t.gross
  {
    if ev != [] {
      var rest := ev[..|ev| - 1];
      SaneRest(ev);
      SaneSecond(rest, side, s, TotalsOf(rest, side, s, s + 1));
    }
  }

  lemma {:induction false} NothingWithin(ev: seq<Event>, side: Side, lo: int, hi: int)
    requires hi <= lo
    ensures TotalsOf(ev, side, lo, hi) == ZERO
  {
    if ev != [] {
      NothingWithin(ev[..|ev| - 1], side, lo, hi);
    }
  }

  lemma {:induction false} SaneSums(ev: seq<Event>, side: Side, lo: int, hi: int, t: Totals)
    requires Sane(ev) && t == TotalsOf(ev, side, lo, hi)
    ensures 0 <= t.sum <= t.gross
    decreases hi - lo
  {
    if hi <= lo {
      NothingWithin(ev, side, lo, hi);
    } else {
      SaneSecond(ev, side, lo, TotalsOf(ev, side, lo, lo + 1));
      SaneSums(ev, side, lo + 1, hi, TotalsOf(ev, side, lo + 1, hi));
      Split(ev, side, lo, lo + 1, hi);
    }
  }

  lemma Bounds(v: bool, ev: seq<Event>, side: Side, lo: int, hi: int)
    requires Sound(v, ev)
    ensures var t := TotalsOf(ev, side, lo, hi);
            && 0 <= t.count <= t.chances && 0 <= t.sum <= t.gross && 0 <= t.sum2
            && (t.count == 0 ==> t.sum == t.sum2 == t.gross == 0) && (!v ==> t.count == t.chances)
  {
    Counts(v, ev, side, lo, hi);
    SaneSums(ev, side, lo, hi, TotalsOf(ev, side, lo, hi));
  }

  lemma SquareNotNegative(e: Event)
    ensures One(e).sum2 >= 0
  {
  }

  /** Estimates between zero and the gross delay. */
  predicate WithinGross(ev: seq<Event>) {
    forall i :: 0 <= i < |ev| && ev[i].Sample? ==> 0 <= ev[i].qd <= ev[i].gross
  }

  lemma {:induction false} BoundedSums(ev: seq<Event>, side: Side, lo: int, hi: int)
    requires WithinGross(ev)
    ensures var t := TotalsOf(ev, side, lo, hi); 0 <= t.sum <= t.gross
  {
    if ev != [] {
      BoundedSums(ev[..|ev| - 1], side, lo, hi);
    }
  }

  lemma {:induction false} BoundedIsSane(ev: seq<Event>)
    requires WithinGross(ev)
    ensures Sane(ev)
  {
    if ev != [] {
      var rest, e := ev[..|ev| - 1], ev[|ev| - 1];
      BoundedIsSane(rest);
      SaneRest(ev);
      BoundedSums(rest, e.side, e.sec, e.sec + 1);
    }
  }

  // ---- the expected log ----

  lemma {:induction false} ExpectedConcat(v: bool, ev: seq<Event>, lo: int, mid: int, hi: int)
    requires ev != [] && lo <= mid <= hi
    ensures Expected(v, ev, lo, hi) == Expected(v, ev, lo, mid) + Expected(v, ev, mid, hi)
    decreases mid - lo
  {
    if lo < mid {
      ExpectedConcat(v, ev, lo + 1, mid, hi);
    }
  }

  /** The same line, if any, about second s. */
  predicate SameLine(v: bool, ev: seq<Event>, t: seq<Event>, s: int)
    requires ev != [] && t != []
  {
    LineAt(v, t, s) == LineAt(v, ev, s) && Active(t, s) == Active(ev, s)
  }

  lemma {:induction false} ExpectedAgrees(v: bool, ev: seq<Event>, t: seq<Event>, lo: int, hi: int)
    requires ev != [] && t != [] && forall s :: lo <= s < hi ==> SameLine(v, ev, t, s)
    ensures Expected(v, t, lo, hi) == Expected(v, ev, lo, hi)
    decreases hi - lo
  {
    if lo < hi {
      assert SameLine(v, ev, t, lo);
      ExpectedAgrees(v, ev, t, lo + 1, hi);
    }
  }

  /** A packet in second hi or later does not change the lines of the seconds before. */
  lemma ExpectedStable(v: bool, ev: seq<Event>, e: Event, lo: int, hi: int)
    requires ev != [] && hi <= Last(ev) && hi <= e.sec
    ensures Expected(v, ev + [e], lo, hi) == Expected(v, ev, lo, hi)
  {
    forall s | lo <= s < hi ensures SameLine(v, ev, ev + [e], s) {
      LineStable(v, ev, e, s);
    }
    ExpectedAgrees(v, ev, ev + [e], lo, hi);
  }

  lemma LineStable(v: bool, ev: seq<Event>, e: Event, s: int)
    requires ev != [] && s < Last(ev) && s < e.sec
    ensures LineAt(v, ev + [e], s) == LineAt(v, ev, s) && Active(ev + [e], s) == Active(ev, s)
  {
    ReportStable(v, ev, e, C2S, s);
    ReportStable(v, ev, e, S2C, s);
    assert (ev + [e])[..|ev|] == ev;
  }

  lemma ReportStable(v: bool, ev: seq<Event>, e: Event, side: Side, s: int)
    requires s < e.sec
    ensures ReportAt(v, ev + [e], side, s) == ReportAt(v, ev, side, s)
    ensures TotalsOf(ev + [e], side, s, s + 1) == TotalsOf(ev, side, s, s + 1)
  {
    Append(ev, e, side, s, s + 1);
    Append(ev, e, side, 0, s + 1);
  }

  // ---- what every step keeps ----

  /** The running totals of a direction are b before the open window and w in it. */
  predicate CountedIn(v: bool, d: Dir, b: Totals, w: Totals) {
    && d.countSnap == b.count && d.count == b.count + w.count
    && d.sumSnap == b.sum && d.sum == b.sum + w.sum
    && d.sum2Snap == b.sum2 && d.sum2 == b.sum2 + w.sum2
    && d.grossSnap == b.gross && d.gross == b.gross + w.gross
    && (v ==> d.chancesSnap == b.chances && d.chances == b.chances + w.chances)
  }

  /** A direction whose open window is second now, after the packets ev. */
  ghost predicate DirOk(v: bool, d: Dir, ev: seq<Event>, side: Side, now: int) {
    CountedIn(v, d, TotalsOf(ev, side, 0, now), TotalsOf(ev, side, now, now + 1)) && d.lastEdge == now
  }

  /** A last sample that is not zero lies in the open window. */
  ghost predicate LastOk(d: Dir, ev: seq<Event>, side: Side, now: int) {
    d.lastQd != 0 ==> TotalsOf(ev, side, now, now + 1).sum > 0
  }

  /** The edge printed last, when second now is open. */
  predicate PrintedOk(v: bool, d: Dir, now: int) {
    0 <= d.lastPrinted < now && (v ==> d.lastPrinted == 0 || d.lastPrinted == now - 1)
  }

  ghost predicate StatsOk(v: bool, st: Stats, ev: seq<Event>, now: int) {
    && DirOk(v, st.c2s, ev, C2S, now) && DirOk(v, st.s2c, ev, S2C, now)
    && LastOk(st.c2s, ev, C2S, now) && LastOk(st.s2c, ev, S2C, now)
    && st.c2s.lastPrinted == st.s2c.lastPrinted && PrintedOk(v, st.c2s, now)
  }

  /** The state after the packets ev. */
  ghost predicate SteadyOk(v: bool, st: Stats, ev: seq<Event>) {
    && ev != [] && Sound(v, ev) && Ordered(ev)
    && StatsOk(v, st, ev, Last(ev)) && Active(ev, Last(ev))
    && st.log == Expected(v, ev, ev[0].sec, Last(ev))
  }

  lemma DirIsConsistent(v: bool, d: Dir, ev: seq<Event>, side: Side, now: int)
    requires Sound(v, ev) && DirOk(v, d, ev, side, now)
    ensures DirConsistent(v, d) && (LastOk(d, ev, side, now) ==> LastSampleKept(d))
    ensures d.sum - d.sumSnap >= 0 && d.sumSnap >= 0
    ensures Samples(d) == TotalsOf(ev, side, now, now + 1).count
    ensures v ==> d.chances - d.chancesSnap == TotalsOf(ev, side, now, now + 1).chances
  {
    Bounds(v, ev, side, 0, now);
    Bounds(v, ev, side, now, now + 1);
  }

  lemma ReportFromTotals(v: bool, d: Dir, t: Totals, total: int)
    requires Samples(d) == t.count && d.sum - d.sumSnap == t.sum && d.sum2 - d.sum2Snap == t.sum2
    requires d.gross - d.grossSnap == t.gross && d.sum == total && (v ==> d.chances - d.chancesSnap == t.chances)
    ensures ReportOf(v, d) == ReportFrom(v, t, total)
  {
  }

  lemma ReportFromParts(v: bool, d: Dir, b: Totals, w: Totals)
    requires CountedIn(v, d, b, w)
    ensures ReportOf(v, d) == ReportFrom(v, w, Plus(b, w).sum)
  {
    ReportFromTotals(v, d, w, Plus(b, w).sum);
  }

  lemma ReportIsRight(v: bool, d: Dir, ev: seq<Event>, side: Side, now: int)
    requires DirOk(v, d, ev, side, now) && now >= 0
    ensures ReportOf(v, d) == ReportAt(v, ev, side, now)
  {
    ReportFromParts(v, d, TotalsOf(ev, side, 0, now), TotalsOf(ev, side, now, now + 1));
    Split(ev, side, 0, now, now + 1);
  }

  lemma {:induction false} ProductGrows(n: int, k: int)
    requires n > 0 && k > 0
    ensures n * k >= n
    decreases k
  {
    if k > 1 {
      ProductGrows(n, k - 1);
      assert n * k == n * (k - 1) + n;
    }
  }

  /** The quotients of nonnegative numbers are ordered like the numbers. */
  lemma QuotientOrder(n: int, q: int, r: int, p: int, s: int)
    requires n > 0 && 0 <= r < n && 0 <= s < n && n * q + r <= n * p + s
    ensures q <= p
  {
    if q > p {
      ProductGrows(n, q - p);
    }
  }

  lemma QuotientGrows(a: int, b: int, n: int)
    requires 0 <= a <= b && n > 0
    ensures 0 <= CDiv(a, n) <= CDiv(b, n)
  {
    QuotientOrder(n, a / n, a % n, b / n, b % n);
    QuotientOrder(n, 0, 0, a / n, a % n);
  }

  lemma DirIsPrintable(v: bool, d: Dir, ev: seq<Event>, side: Side, now: int)
    requires Sound(v, ev) && DirOk(v, d, ev, side, now)
    ensures Printable(v, d)
  {
    Bounds(v, ev, side, now, now + 1);
    if Samples(d) > 0 {
      QuotientGrows(d.sum - d.sumSnap, d.gross - d.grossSnap, Samples(d));
    }
  }

  /** A direction passes the checks of close_window unless it has counted too many chances. */
  lemma DirIsClosable(v: bool, d: Dir, ev: seq<Event>, side: Side, now: int, next: int)
    requires Sound(v, ev) && DirOk(v, d, ev, side, now) && LastOk(d, ev, side, now) && now < next
    ensures Closable(v, d, next) <==> !(v && d.chances > MOST_CHANCES)
  {
    Bounds(v, ev, side, 0, now);
    Bounds(v, ev, side, now, now + 1);
    DirIsConsistent(v, d, ev, side, now);
    DirIsPrintable(v, d, ev, side, now);
  }

  lemma ClosedDirOk(v: bool, d: Dir, ev: seq<Event>, side: Side, now: int, next: int)
    requires Sound(v, ev) && DirOk(v, d, ev, side, now) && 0 <= now < next && AllBefore(ev, now + 1)
    ensures DirOk(v, Closed(v, d, next), ev, side, next)
    ensures TotalsOf(ev, side, next, next + 1) == ZERO
  {
    Split(ev, side, 0, now, now + 1);
    Settled(ev, side, 0, now + 1, next);
    Empty(ev, side, next, next + 1);
    Bounds(v, ev, side, now, now + 1);
  }

  /** The same direction seen from a second without packets. */
  lemma VoidReport(v: bool, d: Dir, ev: seq<Event>, e: Event, side: Side, s: int)
    requires Sound(v, ev) && DirOk(v, d, ev, side, e.sec) && 0 <= s < e.sec && AllBefore(ev, s)
    ensures ReportOf(v, d) == ReportAt(v, ev + [e], side, s)
    ensures TotalsOf(ev + [e], side, s, s + 1) == ZERO
  {
    ReportStable(v, ev, e, side, s);
    Empty(ev, side, s, s + 1);
    Empty(ev, side, e.sec, e.sec + 1);
    Settled(ev, side, 0, s + 1, e.sec);
  }

  // ---- closing a window ----

  /** The two directions between the close of a window and the count of the packet e that closed it. */
  ghost predicate PairOk(v: bool, mine: Dir, other: Dir, ev: seq<Event>, e: Event) {
    && DirOk(v, mine, ev, e.side, e.sec) && DirOk(v, other, ev, Flip(e.side), e.sec)
    && mine.lastPrinted == other.lastPrinted
  }

  lemma PairIsConsistent(v: bool, mine: Dir, other: Dir, ev: seq<Event>, e: Event)
    requires Sound(v, ev) && PairOk(v, mine, other, ev, e)
    ensures Consistent(v, mine, other)
  {
    DirIsConsistent(v, mine, ev, e.side, e.sec);
    DirIsConsistent(v, other, ev, Flip(e.side), e.sec);
  }

  lemma OpenerIsLast(ev: seq<Event>, e: Event, s: int)
    requires ev != [] && Last(ev) <= s
    ensures Opener(ev + [e], s) == e.side
  {
  }

  lemma VoidLineIsExpected(v: bool, mine: Dir, other: Dir, ev: seq<Event>, e: Event, s: int)
    requires Sound(v, ev) && ev != [] && PairOk(v, mine, other, ev, e) && Last(ev) < s < e.sec && AllBefore(ev, s) && s >= 0
    ensures VoidLine(v, mine, other, s) == LineAt(v, ev + [e], s)
  {
    VoidReport(v, mine, ev, e, e.side, s);
    VoidReport(v, other, ev, e, Flip(e.side), s);
    OpenerIsLast(ev, e, s);
  }

  lemma {:induction false} VoidsAreExpected(v: bool, mine: Dir, other: Dir, ev: seq<Event>, e: Event, edge: int)
    requires v && Sound(v, ev) && ev != [] && PairOk(v, mine, other, ev, e) && Last(ev) < edge <= e.sec
    requires AllBefore(ev, edge) && 0 < edge && mine.lastPrinted == edge - 1
    ensures Voids(v, mine, other, edge) == Some(Expected(v, ev + [e], edge, e.sec))
    decreases e.sec - edge
  {
    if edge < e.sec {
      DirIsPrintable(v, mine, ev, e.side, e.sec);
      DirIsPrintable(v, other, ev, Flip(e.side), e.sec);
      VoidLineIsExpected(v, mine, other, ev, e, edge);
      VoidsAreExpected(v, Printed(mine, edge), Printed(other, edge), ev, e, edge + 1);
    }
  }

  /** Without SAMPLES_VALIDITY the seconds without packets have no line. */
  lemma {:induction false} NoVoids(ev: seq<Event>, e: Event, edge: int)
    requires ev != [] && AllBefore(ev, edge)
    ensures Expected(false, ev + [e], edge, e.sec) == []
    decreases e.sec - edge
  {
    if edge < e.sec {
      Append(ev, e, C2S, edge, edge + 1);
      Append(ev, e, S2C, edge, edge + 1);
      Empty(ev, C2S, edge, edge + 1);
      Empty(ev, S2C, edge, edge + 1);
      NoVoids(ev, e, edge + 1);
    }
  }

  lemma WindowLineIsExpected(v: bool, st: Stats, ev: seq<Event>, e: Event)
    requires SteadyOk(v, st, ev) && Last(ev) < e.sec
    ensures WindowLine(v, e.side, Of(st, e.side), Of(st, Flip(e.side))) == LineAt(v, ev + [e], Last(ev))
    ensures Active(ev + [e], Last(ev))
  {
    var now := Last(ev);
    ReportIsRight(v, st.c2s, ev, C2S, now);
    ReportIsRight(v, st.s2c, ev, S2C, now);
    ReportStable(v, ev, e, C2S, now);
    ReportStable(v, ev, e, S2C, now);
  }

  lemma DirSeen(v: bool, d: Dir, ev: seq<Event>, side: Side, now: int)
    requires Sound(v, ev) && DirOk(v, d, ev, side, now) && TotalsOf(ev, side, now, now + 1).chances > 0
    ensures if v then d.chances - d.chancesSnap > 0 else Samples(d) > 0
  {
    DirIsConsistent(v, d, ev, side, now);
    Bounds(v, ev, side, now, now + 1);
  }

  lemma SomethingWasSeen(v: bool, st: Stats, ev: seq<Event>, side: Side)
    requires SteadyOk(v, st, ev)
    ensures SeenSomething(v, Of(st, side), Of(st, Flip(side)))
  {
    var now := Last(ev);
    if TotalsOf(ev, C2S, now, now + 1).chances > 0 {
      DirSeen(v, st.c2s, ev, C2S, now);
    } else {
      DirSeen(v, st.s2c, ev, S2C, now) by {
        Bounds(v, ev, S2C, now, now + 1);
        Bounds(v, ev, C2S, now, now + 1);
      }
    }
  }

  lemma SteadyIsConsistent(v: bool, st: Stats, ev: seq<Event>, side: Side)
    requires SteadyOk(v, st, ev)
    ensures Consistent(v, Of(st, side), Of(st, Flip(side))) && LastSampleKept(Of(st, side))
  {
    DirIsConsistent(v, st.c2s, ev, C2S, Last(ev));
    DirIsConsistent(v, st.s2c, ev, S2C, Last(ev));
  }

  /** Some direction has counted more than a million chances before second now. */
  predicate Alarm(v: bool, ev: seq<Event>, now: int) {
    v && (TotalsOf(ev, C2S, 0, now).chances > MOST_CHANCES || TotalsOf(ev, S2C, 0, now).chances > MOST_CHANCES)
  }

  lemma ChancesSoFar(v: bool, d: Dir, ev: seq<Event>, side: Side, now: int, next: int)
    requires DirOk(v, d, ev, side, now) && 0 <= now < next && AllBefore(ev, now + 1)
    ensures v ==> d.chances == TotalsOf(ev, side, 0, next).chances
  {
    var b, w := TotalsOf(ev, side, 0, now), TotalsOf(ev, side, now, now + 1);
    assert TotalsOf(ev, side, 0, next) == Plus(b, w) by {
      Split(ev, side, 0, now, now + 1);
      Settled(ev, side, 0, now + 1, next);
    }
  }

  lemma SideIsClosable(v: bool, st: Stats, ev: seq<Event>, side: Side, next: int)
    requires SteadyOk(v, st, ev) && Last(ev) < next
    ensures Closable(v, Of(st, side), next) <==> !(v && TotalsOf(ev, side, 0, next).chances > MOST_CHANCES)
  {
    var now := Last(ev);
    OrderedBefore(ev, now + 1);
    ChancesSoFar(v, Of(st, side), ev, side, now, next);
    DirIsClosable(v, Of(st, side), ev, side, now, next);
  }

  lemma MayCloseUnlessAlarm(v: bool, st: Stats, ev: seq<Event>, e: Event)
    requires SteadyOk(v, st, ev) && Last(ev) < e.sec
    ensures MayClose(v, Of(st, e.side), Of(st, Flip(e.side)), e.sec) <==> !Alarm(v, ev, e.sec)
  {
    var mine, other := Of(st, e.side), Of(st, Flip(e.side));
    assert SeenSomething(v, mine, other) by {
      SomethingWasSeen(v, st, ev, e.side);
    }
    assert LineInOrder(v, mine, mine.lastEdge, e.sec);
    assert Closable(v, mine, e.sec) && Closable(v, other, e.sec) <==> !Alarm(v, ev, e.sec) by {
      SideIsClosable(v, st, ev, C2S, e.sec);
      SideIsClosable(v, st, ev, S2C, e.sec);
    }
  }

  /** The state when the packet e has closed the windows before it and is not counted yet. */
  ghost predicate BeforeCount(v: bool, w: Stats, ev: seq<Event>, e: Event) {
    && PairOk(v, Of(w, e.side), Of(w, Flip(e.side)), ev, e) && LastOk(Of(w, Flip(e.side)), ev, Flip(e.side), e.sec)
    && PrintedOk(v, w.c2s, e.sec)
    && w.log == Expected(v, ev + [e], (ev + [e])[0].sec, e.sec)
  }

  lemma LogGrows(v: bool, st: Stats, ev: seq<Event>, e: Event, voids: seq<Line>)
    requires SteadyOk(v, st, ev) && Last(ev) < e.sec && ev[0].sec <= Last(ev)
    requires voids == Expected(v, ev + [e], Last(ev) + 1, e.sec)
    ensures var line := WindowLine(v, e.side, Of(st, e.side), Of(st, Flip(e.side)));
            st.log + [line] + voids == Expected(v, ev + [e], (ev + [e])[0].sec, e.sec)
  {
    var lo, now := ev[0].sec, Last(ev);
    ExpectedStable(v, ev, e, lo, now);
    WindowLineIsExpected(v, st, ev, e);
    ExpectedConcat(v, ev + [e], lo, now, e.sec);
  }

  lemma {:induction false} FirstIsLeast(ev: seq<Event>)
    requires ev != [] && Ordered(ev)
    ensures ev[0].sec <= Last(ev)
  {
    if |ev| >= 2 {
      FirstIsLeast(ev[..|ev| - 1]);
    }
  }

  /** Both directions after the close; last is the edge of the last line printed. */
  lemma ClosedPairOk(v: bool, mine: Dir, other: Dir, ev: seq<Event>, e: Event, now: int, last: int)
    requires Sound(v, ev) && DirOk(v, mine, ev, e.side, now) && DirOk(v, other, ev, Flip(e.side), now)
    requires 0 <= now < e.sec && AllBefore(ev, now + 1)
    ensures var a := Closed(v, mine, e.sec).(lastPrinted := last);
            var b := Closed(v, other, e.sec).(lastPrinted := last, lastQd := 0);
            PairOk(v, a, b, ev, e) && AllAbsorbed(v, a, b)
  {
    ClosedDirOk(v, mine, ev, e.side, now, e.sec);
    ClosedDirOk(v, other, ev, Flip(e.side), now, e.sec);
    var a := Closed(v, mine, e.sec).(lastPrinted := last);
    var b := Closed(v, other, e.sec).(lastPrinted := last, lastQd := 0);
    PairIsConsistent(v, a, b, ev, e);
  }

  lemma VoidsAfterClose(v: bool, mine: Dir, other: Dir, ev: seq<Event>, e: Event, now: int)
    requires Sound(v, ev) && ev != [] && now == Last(ev) < e.sec && 0 <= now && AllBefore(ev, now + 1)
    requires DirOk(v, mine, ev, e.side, now) && DirOk(v, other, ev, Flip(e.side), now)
    ensures var a := Closed(v, Printed(mine, now), e.sec);
            var b := Closed(v, Printed(other, now), e.sec).(lastQd := 0);
            (if v then Voids(v, a, b, now + 1) else Some([])) == Some(Expected(v, ev + [e], now + 1, e.sec))
  {
    if v {
      ClosedPairOk(v, mine, other, ev, e, now, now);
      VoidsAreExpected(v, Closed(v, Printed(mine, now), e.sec), Closed(v, Printed(other, now), e.sec).(lastQd := 0), ev, e, now + 1);
    } else {
      NoVoids(ev, e, now + 1);
    }
  }

  /** Putting both closed directions back. */
  lemma PutBack(v: bool, st: Stats, ev: seq<Event>, e: Event, a: Dir, b: Dir)
    requires PairOk(v, a, b, ev, e) && b.lastQd == 0 && PrintedOk(v, a, e.sec)
    requires st.log == Expected(v, ev + [e], (ev + [e])[0].sec, e.sec)
    ensures BeforeCount(v, Put(st, e.side, a, b), ev, e)
  {
  }

  lemma CloseBothIs(v: bool, st: Stats, side: Side, now: int, voids: seq<Line>)
    requires var mine, other := Of(st, side), Of(st, Flip(side));
             var last := if v then now - 1 else mine.lastEdge;
             && MayClose(v, mine, other, now)
             && (if v then Voids(v, Closed(v, Printed(mine, mine.lastEdge), now), Closed(v, Printed(other, mine.lastEdge), now).(lastQd := 0), mine.lastEdge + 1)
                 else Some([])) == Some(voids)
             && AllAbsorbed(v, Closed(v, mine, now).(lastPrinted := last), Closed(v, other, now).(lastPrinted := last, lastQd := 0))
    ensures CloseBoth(v, st, side, now) == Some(AfterClose(v, st, side, now, voids))
  {
  }

  /** Both directions and the log after the close; voids are the lines of the seconds without packets. */
  function AfterClose(v: bool, st: Stats, side: Side, now: int, voids: seq<Line>): Stats {
    var mine, other := Of(st, side), Of(st, Flip(side));
    var last := if v then now - 1 else mine.lastEdge;
    Put(st.(log := st.log + [WindowLine(v, side, mine, other)] + voids), side,
        Closed(v, mine, now).(lastPrinted := last), Closed(v, other, now).(lastPrinted := last, lastQd := 0))
  }

  lemma CloseResult(v: bool, st: Stats, ev: seq<Event>, e: Event)
    requires SteadyOk(v, st, ev) && Last(ev) < e.sec && !Alarm(v, ev, e.sec)
    ensures CloseBoth(v, st, e.side, e.sec) == Some(AfterClose(v, st, e.side, e.sec, Expected(v, ev + [e], Last(ev) + 1, e.sec)))
  {
    var now := Last(ev);
    var mine, other := Of(st, e.side), Of(st, Flip(e.side));
    MayCloseUnlessAlarm(v, st, ev, e);
    OrderedBefore(ev, now + 1);
    VoidsAfterClose(v, mine, other, ev, e, now);
    ClosedPairOk(v, mine, other, ev, e, now, if v then e.sec - 1 else now);
    CloseBothIs(v, st, e.side, e.sec, Expected(v, ev + [e], now + 1, e.sec));
  }

  lemma CloseKeeps(v: bool, st: Stats, ev: seq<Event>, e: Event)
    requires SteadyOk(v, st, ev) && Last(ev) < e.sec
    ensures BeforeCount(v, AfterClose(v, st, e.side, e.sec, Expected(v, ev + [e], Last(ev) + 1, e.sec)), ev, e)
  {
    var now := Last(ev);
    var mine, other := Of(st, e.side), Of(st, Flip(e.side));
    var last := if v then e.sec - 1 else now;
    var voids := Expected(v, ev + [e], now + 1, e.sec);
    OrderedBefore(ev, now + 1);
    ClosedPairOk(v, mine, other, ev, e, now, last);
    FirstIsLeast(ev);
    LogGrows(v, st, ev, e, voids);
    var log := st.log + [WindowLine(v, e.side, mine, other)] + voids;
    PutBack(v, st.(log := log), ev, e, Closed(v, mine, e.sec).(lastPrinted := last),
            Closed(v, other, e.sec).(lastPrinted := last, lastQd := 0));
  }

  lemma CloseStep(v: bool, st: Stats, ev: seq<Event>, e: Event)
    requires SteadyOk(v, st, ev) && Last(ev) < e.sec && !Alarm(v, ev, e.sec)
    ensures var w := CloseBoth(v, st, e.side, e.sec);
            w.Some? && BeforeCount(v, w.value, ev, e)
  {
    CloseResult(v, st, ev, e);
    CloseKeeps(v, st, ev, e);
  }

  /** Time that goes back trips a check of the closing branch. */
  lemma BackInTime(v: bool, st: Stats, ev: seq<Event>, e: Event)
    requires SteadyOk(v, st, ev) && e.sec < Last(ev)
    ensures Windowed(v, st, e.side, e.sec) == None
  {
  }

  lemma WindowedStep(v: bool, st: Stats, ev: seq<Event>, e: Event)
    requires SteadyOk(v, st, ev)
    ensures var w := Windowed(v, st, e.side, e.sec);
            if Last(ev) > e.sec || (Last(ev) < e.sec && Alarm(v, ev, e.sec)) then w == None
            else w.Some? && BeforeCount(v, w.value, ev, e)
  {
    var now := Last(ev);
    SteadyIsConsistent(v, st, ev, e.side);
    if e.sec < now {
      BackInTime(v, st, ev, e);
    } else if e.sec == now {
      FirstIsLeast(ev);
      ExpectedStable(v, ev, e, ev[0].sec, now);
    } else {
      MayCloseUnlessAlarm(v, st, ev, e);
      if !Alarm(v, ev, e.sec) {
        CloseStep(v, st, ev, e);
      }
    }
  }

  /** The first packet opens the first window. */
  lemma FirstStep(v: bool, e: Event)
    requires e.sec > 0
    ensures var w := Windowed(v, START, e.side, e.sec);
            w.Some? && BeforeCount(v, w.value, [], e)
  {
  }

  // ---- counting a packet ----

  /** The new value of the direction of packet e. */
  function After(v: bool, d: Dir, e: Event): Dir {
    match e
    case Sample(_, _, qd, gross) => Counted(v, d, qd, gross)
    case Chance(_, _) => d.(chances := d.chances + 1, lastQd := 0)
  }

  lemma TimedBefore(v: bool, ev: seq<Event>, e: Event)
    requires Timed(v, ev + [e])
    ensures Timed(v, ev) && e.sec > 0 && (e.Chance? ==> v)
  {
    assert forall i :: 0 <= i < |ev| ==> (ev + [e])[i] == ev[i];
    assert (ev + [e])[|ev|] == e;
  }

  lemma CountedIs(v: bool, d: Dir, ev: seq<Event>, e: Event)
    requires DirOk(v, d, ev, e.side, e.sec)
    ensures DirOk(v, After(v, d, e), ev + [e], e.side, e.sec)
  {
    Append(ev, e, e.side, 0, e.sec);
    Append(ev, e, e.side, e.sec, e.sec + 1);
  }

  lemma CountedOk(v: bool, d: Dir, ev: seq<Event>, e: Event)
    requires Sound(v, ev + [e]) && DirOk(v, d, ev, e.side, e.sec)
    ensures DirOk(v, After(v, d, e), ev + [e], e.side, e.sec) && LastOk(After(v, d, e), ev + [e], e.side, e.sec)
    ensures After(v, d, e).lastPrinted == d.lastPrinted
  {
    CountedIs(v, d, ev, e);
    SaneIs(ev, e);
  }

  lemma OtherSideOk(v: bool, d: Dir, ev: seq<Event>, e: Event)
    requires DirOk(v, d, ev, Flip(e.side), e.sec) && LastOk(d, ev, Flip(e.side), e.sec)
    ensures DirOk(v, d, ev + [e], Flip(e.side), e.sec) && LastOk(d, ev + [e], Flip(e.side), e.sec)
  {
    Append(ev, e, Flip(e.side), 0, e.sec);
    Append(ev, e, Flip(e.side), e.sec, e.sec + 1);
  }

  /** The state after counting the packet e. */
  function Next(v: bool, w: Stats, e: Event): Stats {
    Put(w, e.side, After(v, Of(w, e.side), e), Of(w, Flip(e.side)))
  }

  lemma SidesCounted(v: bool, ev: seq<Event>, e: Event, mine: Dir, other: Dir, d: Dir)
    requires Sound(v, ev + [e]) && PairOk(v, mine, other, ev, e) && LastOk(other, ev, Flip(e.side), e.sec)
    requires d == After(v, mine, e)
    ensures DirOk(v, d, ev + [e], e.side, e.sec) && LastOk(d, ev + [e], e.side, e.sec) && d.lastPrinted == mine.lastPrinted
    ensures DirOk(v, other, ev + [e], Flip(e.side), e.sec) && LastOk(other, ev + [e], Flip(e.side), e.sec)
  {
    CountedOk(v, mine, ev, e);
    OtherSideOk(v, other, ev, e);
  }

  lemma CountedStats(v: bool, w: Stats, ev: seq<Event>, e: Event, n: Stats)
    requires Sound(v, ev + [e]) && BeforeCount(v, w, ev, e) && n == Next(v, w, e)
    ensures StatsOk(v, n, ev + [e], e.sec)
  {
    var d, o := After(v, Of(w, e.side), e), Of(w, Flip(e.side));
    SidesCounted(v, ev, e, Of(w, e.side), o, d);
    StatsFromSides(v, w, ev + [e], e, d, o);
  }

  lemma SteadyFrom(v: bool, n: Stats, t: seq<Event>, now: int)
    requires t != [] && Sound(v, t) && Ordered(t) && Last(t) == now
    requires StatsOk(v, n, t, now) && Active(t, now) && n.log == Expected(v, t, t[0].sec, now)
    ensures SteadyOk(v, n, t)
  {
  }

  lemma CountedLog(v: bool, w: Stats, ev: seq<Event>, e: Event, t: seq<Event>, n: Stats)
    requires BeforeCount(v, w, ev, e) && t == ev + [e] && n == Next(v, w, e)
    ensures n.log == Expected(v, t, t[0].sec, e.sec) && Last(t) == e.sec
  {
  }

  lemma CountStepTo(v: bool, w: Stats, ev: seq<Event>, e: Event, t: seq<Event>, n: Stats)
    requires Sound(v, ev + [e]) && Ordered(ev + [e]) && BeforeCount(v, w, ev, e) && t == ev + [e] && n == Next(v, w, e)
    ensures StatsOk(v, n, t, e.sec) && Active(t, e.sec) && n.log == Expected(v, t, t[0].sec, e.sec) && Last(t) == e.sec
  {
    CountedStats(v, w, ev, e, n);
    NowActive(v, ev, e);
    CountedLog(v, w, ev, e, t, n);
  }

  lemma CountStep(v: bool, w: Stats, ev: seq<Event>, e: Event)
    requires Sound(v, ev + [e]) && Ordered(ev + [e]) && BeforeCount(v, w, ev, e)
    ensures SteadyOk(v, Next(v, w, e), ev + [e])
  {
    CountStepTo(v, w, ev, e, ev + [e], Next(v, w, e));
    SteadyFrom(v, Next(v, w, e), ev + [e], e.sec);
  }

  lemma NowActive(v: bool, ev: seq<Event>, e: Event)
    requires Sound(v, ev + [e])
    ensures Active(ev + [e], e.sec)
  {
    Append(ev, e, e.side, e.sec, e.sec + 1);
    TimedBefore(v, ev, e);
    Counts(v, ev, e.side, e.sec, e.sec + 1);
    Counts(v, ev + [e], Flip(e.side), e.sec, e.sec + 1);
  }

  lemma StatsFromSides(v: bool, w: Stats, ev: seq<Event>, e: Event, d: Dir, o: Dir)
    requires DirOk(v, d, ev, e.side, e.sec) && DirOk(v, o, ev, Flip(e.side), e.sec)
    requires LastOk(d, ev, e.side, e.sec) && LastOk(o, ev, Flip(e.side), e.sec)
    requires d.lastPrinted == o.lastPrinted && PrintedOk(v, d, e.sec)
    ensures StatsOk(v, Put(w, e.side, d, o), ev, e.sec)
  {
  }

  lemma SampleChecks(v: bool, w: Stats, ev: seq<Event>, e: Event)
    requires SteadyOk(v, Next(v, w, e), ev + [e])
    ensures var d, o := After(v, Of(w, e.side), e), Of(w, Flip(e.side));
            Consistent(v, d, o) && LastSampleKept(d)
  {
    SteadyIsConsistent(v, Next(v, w, e), ev + [e], e.side);
  }

  lemma JustSeen(v: bool, d: Dir, ev: seq<Event>, e: Event)
    requires Sound(v, ev) && DirOk(v, d, ev, e.side, e.sec) && e.Sample?
    ensures var c := After(v, d, e); SeenSomething(v, c, c)
  {
    Bounds(v, ev, e.side, e.sec, e.sec + 1);
  }

  /** Whether the packet e ends the program. */
  predicate Fatal(v: bool, ev: seq<Event>, e: Event) {
    ev != [] && (e.sec < Last(ev) || (e.sec > Last(ev) && Alarm(v, ev, e.sec)))
  }

  lemma WindowedAlways(v: bool, st: Stats, ev: seq<Event>, e: Event)
    requires Timed(v, ev + [e]) && (if ev == [] then st == START else SteadyOk(v, st, ev))
    ensures var w := Windowed(v, st, e.side, e.sec);
            if Fatal(v, ev, e) then w == None else w.Some? && BeforeCount(v, w.value, ev, e)
  {
    TimedBefore(v, ev, e);
    if ev == [] {
      FirstStep(v, e);
    } else {
      WindowedStep(v, st, ev, e);
    }
  }

  lemma OpeningChecks(v: bool, st: Stats, ev: seq<Event>, side: Side)
    requires if ev == [] then st == START else SteadyOk(v, st, ev)
    ensures var mine, other := Of(st, side), Of(st, Flip(side));
            && Consistent(v, mine, other) && LastSampleKept(mine)
            && (mine.notVoid == 0 || other.notVoid == 0 || SeenSomething(v, mine, other))
  {
    if ev != [] {
      SteadyIsConsistent(v, st, ev, side);
      SomethingWasSeen(v, st, ev, side);
    }
  }

  lemma AnalyseIs(v: bool, st: Stats, w: Stats, e: Event)
    requires e.Sample? && Windowed(v, st, e.side, e.sec) == Some(w)
    requires var mine, other := Of(st, e.side), Of(st, Flip(e.side));
             && Consistent(v, mine, other) && LastSampleKept(mine)
             && (mine.notVoid == 0 || other.notVoid == 0 || SeenSomething(v, mine, other))
    requires var d, o := After(v, Of(w, e.side), e), Of(w, Flip(e.side));
             Consistent(v, d, o) && LastSampleKept(d) && SeenSomething(v, d, d)
    ensures Step(v, st, e) == Some(Next(v, w, e))
  {
  }

  lemma SampleStepIs(v: bool, st: Stats, w: Stats, ev: seq<Event>, e: Event)
    requires Sound(v, ev) && (if ev == [] then st == START else SteadyOk(v, st, ev))
    requires e.Sample? && Windowed(v, st, e.side, e.sec) == Some(w) && BeforeCount(v, w, ev, e)
    requires SteadyOk(v, Next(v, w, e), ev + [e])
    ensures Step(v, st, e) == Some(Next(v, w, e))
  {
    OpeningChecks(v, st, ev, e.side);
    SampleChecks(v, w, ev, e);
    JustSeen(v, Of(w, e.side), ev, e);
    AnalyseIs(v, st, w, e);
  }

  lemma ChanceStepIs(v: bool, st: Stats, w: Stats, e: Event)
    requires e.Chance? && Windowed(v, st, e.side, e.sec) == Some(w)
    ensures Step(v, st, e) == Some(Next(v, w, e))
  {
  }

  lemma StepIs(v: bool, st: Stats, ev: seq<Event>, e: Event)
    requires Sound(v, ev + [e]) && Ordered(ev + [e]) && (if ev == [] then st == START else SteadyOk(v, st, ev))
    requires !Fatal(v, ev, e)
    ensures Step(v, st, e).Some? && SteadyOk(v, Step(v, st, e).value, ev + [e])
  {
    WindowedAlways(v, st, ev, e);
    var w := Windowed(v, st, e.side, e.sec).value;
    CountStep(v, w, ev, e);
    SaneIs(ev, e);
    TimedBefore(v, ev, e);
    if e.Sample? {
      SampleStepIs(v, st, w, ev, e);
    } else {
      ChanceStepIs(v, st, w, e);
    }
  }

  /** The checks after the count find a second that is not in order. */
  lemma CountFails(v: bool, d: Dir, ev: seq<Event>, e: Event)
    requires DirOk(v, d, ev, e.side, e.sec) && !LastSane(ev + [e])
    ensures e.Sample? && (!DirConsistent(v, After(v, d, e)) || !LastSampleKept(After(v, d, e)))
  {
    CountedIs(v, d, ev, e);
    assert (ev + [e])[|ev|] == e;
  }

  lemma StepFails(v: bool, st: Stats, ev: seq<Event>, e: Event)
    requires Timed(v, ev + [e]) && (if ev == [] then st == START else SteadyOk(v, st, ev))
    requires Fatal(v, ev, e) || !LastSane(ev + [e])
    ensures Step(v, st, e) == None
  {
    WindowedAlways(v, st, ev, e);
    if !Fatal(v, ev, e) {
      CountFails(v, Of(Windowed(v, st, e.side, e.sec).value, e.side), ev, e);
    }
  }

  // ---- whole runs ----

  lemma FatalIs(v: bool, ev: seq<Event>, e: Event)
    ensures Ordered(ev + [e]) && !TooMany(v, ev + [e]) <==> Ordered(ev) && !TooMany(v, ev) && !Fatal(v, ev, e)
  {
    assert (ev + [e])[..|ev|] == ev;
  }

  /** What RunGroupsBySecond says about the outcome r of a run over ev. */
  ghost predicate Right(v: bool, ev: seq<Event>, r: Option<Stats>) {
    && (r.Some? <==> Ordered(ev) && !TooMany(v, ev) && Sane(ev))
    && (r.Some? ==> if ev == [] then r.value == START else SteadyOk(v, r.value, ev))
  }

  lemma StaysRight(v: bool, ev: seq<Event>, e: Event, r: Option<Stats>, next: Option<Stats>)
    requires Timed(v, ev + [e]) && Right(v, ev, r)
    requires r.Some? ==> next == Step(v, r.value, e)
    requires r.None? ==> next == None
    ensures Right(v, ev + [e], next)
  {
    FatalIs(v, ev, e);
    SaneIs(ev, e);
    if r.Some? {
      if Fatal(v, ev, e) || !LastSane(ev + [e]) {
        StepFails(v, r.value, ev, e);
      } else {
        StepIs(v, r.value, ev, e);
      }
    }
  }

  lemma {:induction false} RunIsRight(v: bool, ev: seq<Event>, r: Option<Stats>)
    requires Timed(v, ev) && r == Run(v, ev)
    ensures Right(v, ev, r)
  {
    if ev != [] {
      var rest, e := ev[..|ev| - 1], ev[|ev| - 1];
      assert ev == rest + [e];
      TimedBefore(v, rest, e);
      RunIsRight(v, rest, Run(v, rest));
      StaysRight(v, rest, e, Run(v, rest), r);
    }
  }

  /**
   The self-checks end the program exactly when time goes back, when a window is closed after a direction counted more than
   a million chances, or when a sample leaves the estimates of its direction and second with a sum above that of the delays,
   or with a sum that is not positive although it is not zero itself. Otherwise the log is the grouping of the samples by
   second, up to the second of the last packet.
   */
  lemma RunGroupsBySecond(v: bool, ev: seq<Event>)
    requires Timed(v, ev)
    ensures Run(v, ev).Some? <==> Ordered(ev) && !TooMany(v, ev) && Sane(ev)
    ensures Run(v, ev).Some? && ev != [] ==> SteadyOk(v, Run(v, ev).value, ev)
  {
    RunIsRight(v, ev, Run(v, ev));
  }

  // ---- what the log says ----

  /** With SAMPLES_VALIDITY the edges are the seconds from the first packet on, each once. */
  lemma {:induction false} EverySecondOnce(ev: seq<Event>, lo: int, hi: int)
    requires ev != [] && lo <= hi
    ensures var log := Expected(true, ev, lo, hi);
            |log| == hi - lo && forall i :: 0 <= i < |log| ==> log[i].edge == lo + i
    decreases hi - lo
  {
    if lo < hi {
      EverySecondOnce(ev, lo + 1, hi);
    }
  }

  /** Without SAMPLES_VALIDITY the edges are the seconds with samples, in increasing order. */
  lemma {:induction false} ActiveSecondsOnce(ev: seq<Event>, lo: int, hi: int)
    requires ev != []
    ensures var log := Expected(false, ev, lo, hi);
            && (forall l :: l in log ==> lo <= l.edge < hi && Active(ev, l.edge))
            && (forall i, j :: 0 <= i < j < |log| ==> log[i].edge < log[j].edge)
    decreases hi - lo
  {
    if lo < hi {
      ActiveSecondsOnce(ev, lo + 1, hi);
      var rest := Expected(false, ev, lo + 1, hi);
      if Active(ev, lo) {
        assert Expected(false, ev, lo, hi) == [LineAt(false, ev, lo)] + rest;
      } else {
        assert Expected(false, ev, lo, hi) == rest;
      }
    }
  }

  lemma {:induction false} NoActiveSecondMissed(ev: seq<Event>, lo: int, hi: int, s: int)
    requires ev != [] && lo <= s < hi && Active(ev, s)
    ensures LineAt(false, ev, s) in Expected(false, ev, lo, hi)
    decreases hi - lo
  {
    if lo < s {
      NoActiveSecondMissed(ev, lo + 1, hi, s);
    }
  }

  /**
   The line of a second without packets has its columns in the usual order exactly when the packet that closes it goes
   from client to server, or the running totals of both directions agree.
   */
  lemma VoidColumns(v: bool, ev: seq<Event>, s: int)
    requires ev != [] && Timed(v, ev) && !Active(ev, s)
    ensures LineAt(v, ev, s) == Line(s, ReportAt(v, ev, C2S, s), ReportAt(v, ev, S2C, s)) <==>
            Opener(ev, s) == C2S || TotalsOf(ev, C2S, 0, s + 1).sum == TotalsOf(ev, S2C, 0, s + 1).sum
  {
    Counts(v, ev, C2S, s, s + 1);
    Counts(v, ev, S2C, s, s + 1);
  }

  /** A mean of the log is the whole part of the sum over the number of samples. */
  predicate IsMean(mean: int, sum: int, n: int) {
    if n == 0 then mean == -1 else mean * n <= sum < (mean + 1) * n
  }

  lemma MeanIs(sum: int, n: int)
    requires 0 <= n && 0 <= sum
    ensures IsMean(MeanOf(sum, n), sum, n)
  {
    if n > 0 {
      var q := sum / n;
      assert sum == n * q + sum % n;
      assert q * n == n * q && (q + 1) * n == n * q + n;
    }
  }

  /** The means that the log gives of a second are those of its estimates and of its delays. */
  lemma MeansOfSecond(v: bool, ev: seq<Event>, side: Side, s: int)
    requires Sound(v, ev)
    ensures var r, t := ReportAt(v, ev, side, s), TotalsOf(ev, side, s, s + 1);
            IsMean(r.mean, t.sum, t.count) && IsMean(r.grossMean, t.gross, t.count)
  {
    Bounds(v, ev, side, s, s + 1);
    var t := TotalsOf(ev, side, s, s + 1);
    MeanIs(t.sum, t.count);
    MeanIs(t.gross, t.count);
  }

  lemma TwoPackets(a: Event, b: Event, side: Side, lo: int, hi: int)
    requires a.side == C2S && b.side == S2C && a.sec < hi <= b.sec
    ensures TotalsOf([a, b], side, lo, hi) == if side == C2S && lo <= a.sec then Plus(ZERO, One(a)) else ZERO
  {
    assert [a, b] == [a] + [b] && [a] == [] + [a];
    Append([], a, side, lo, hi);
    Append([a], b, side, lo, hi);
  }

  /** One sample in second 1, then a packet from the server in second 3: the line of second 2 swaps the directions. */
  lemma VoidColumnsSwapped(a: Event, b: Event)
    requires a.Sample? && a.side == C2S && a.sec == 1 && a.qd == 5 && b.side == S2C && b.sec == 3
    ensures !Active([a, b], 2)
    ensures LineAt(true, [a, b], 2).first.total == 0 && LineAt(true, [a, b], 2).second.total == 5
  {
    TwoPackets(a, b, C2S, 2, 3);
    TwoPackets(a, b, S2C, 2, 3);
    TwoPackets(a, b, C2S, 0, 3);
    TwoPackets(a, b, S2C, 0, 3);
  }
}
