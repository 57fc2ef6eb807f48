/** The percentiles and the indexed bins that are reported from a frozen histogram. */
module Percentiles {
  import opened Common
  import opened Histograms

  /** The samples in bins 0 to j. */
  function Cumulative(f: seq<int>, j: nat): int
    requires j < |f|
  {
    Range(f, 0, j + 1)
  }

  /** The count at which the search stops. */
  function Target(prc: real, count: int): real {
    prc * count as real / 100.0
  }

  /** The loop over the bins from j on, cdf being the samples below; None if it runs off the end. */
  function Search(f: seq<int>, num: nat, target: real, j: nat, cdf: int): Option<nat>
    requires num <= |f| && j <= num
    decreases num - j
  {
    if j == num then None
    else if (cdf + f[j]) as real >= target then Some(j)
    else Search(f, num, target, j + 1, cdf + f[j])
  }

  /** The lower edge of bin j. */
  function Edge(h: Shape, j: int): int {
    h.min + (j - 1) * h.size
  }

  function Percentile(h: Shape, f: seq<int>, prc: real): Option<int>
    requires ShapeOk(h) && Fits(h, f)
  {
    match Search(f, h.cols + 1, Target(prc, f[h.cols + 2]), 0, 0)
    case None => None
    case Some(j) => Some(Edge(h, j))
  }

  /** Where the search stops: the first bin at which the cumulative count reaches the target. */
  ghost predicate Stops(f: seq<int>, num: nat, target: real, j: nat)
    requires num <= |f|
  {
    j < num && Cumulative(f, j) as real >= target && forall i :: 0 <= i < j ==> (Cumulative(f, i) as real) < target
  }

  lemma {:induction false} SearchStops(f: seq<int>, num: nat, target: real, j: nat)
    requires num <= |f| && j <= num
    requires forall i :: 0 <= i < j ==> (Cumulative(f, i) as real) < target
    ensures var r := Search(f, num, target, j, Range(f, 0, j));
            match r
            case None => forall i :: 0 <= i < num ==> (Cumulative(f, i) as real) < target
            case Some(k) => Stops(f, num, target, k)
    decreases num - j
  {
    if j < num && (Cumulative(f, j) as real) < target {
      SearchStops(f, num, target, j + 1);
    }
  }

  /** A histogram as it is frozen. */
  predicate FrozenOk(h: Shape, f: seq<int>) {
    Fits(h, f) && Balanced(h, f) && forall k :: 0 <= k < |f| ==> f[k] >= 0
  }

  lemma {:induction false} RangeSplit(f: seq<int>, lo: nat, mid: nat, hi: nat)
    requires lo <= mid <= hi <= |f|
    ensures Range(f, lo, hi) == Range(f, lo, mid) + Range(f, mid, hi)
  {
    if mid < hi {
      RangeSplit(f, lo, mid, hi - 1);
    }
  }

  lemma TargetWithinCount(prc: real, count: int)
    requires 0.0 < prc <= 100.0 && count >= 0
    ensures 0.0 <= Target(prc, count) <= count as real && (count > 0 ==> Target(prc, count) > 0.0)
  {
    var c := count as real;
    assert (100.0 - prc) * c >= 0.0;
    if count > 0 { assert prc * c > 0.0; }
  }

  /**
   The search always succeeds. It stops at the first bin where the samples below the range and the columns so far reach the
   given share of the samples in range.
   */
  lemma PercentileIsFound(h: Shape, f: seq<int>, prc: real)
    requires ShapeOk(h) && FrozenOk(h, f) && 0.0 < prc <= 100.0
    ensures var t, r := Target(prc, f[h.cols + 2]), Search(f, h.cols + 1, Target(prc, f[h.cols + 2]), 0, 0);
            && r.Some? && Stops(f, h.cols + 1, t, r.value)
            && (r.value == 0 <==> f[0] as real >= t)
  {
    var t := Target(prc, f[h.cols + 2]);
    SearchStops(f, h.cols + 1, t, 0);
    RangeSplit(f, 0, 1, h.cols + 1);
    TargetWithinCount(prc, f[h.cols + 2]);
    assert Cumulative(f, h.cols) == f[0] + f[h.cols + 2];
    assert Cumulative(f, 0) == f[0];
  }

  /** The samples in columns 1 to j. */
  function Columns(f: seq<int>, j: nat): int
    requires 1 <= j < |f|
  {
    Range(f, 1, j + 1)
  }

  /** Column j is the first at which the samples in range reach t. */
  ghost predicate FirstToReach(h: Shape, f: seq<int>, t: real, j: nat)
    requires Fits(h, f)
  {
    1 <= j <= h.cols && Columns(f, j) as real >= t && forall i :: 1 <= i < j ==> (Columns(f, i) as real) < t
  }

  lemma CumulativeIsColumns(f: seq<int>, j: nat)
    requires 1 <= j < |f|
    ensures Cumulative(f, j) == f[0] + Columns(f, j)
  {
    RangeSplit(f, 0, 1, j + 1);
  }

  lemma StopsIsFirst(h: Shape, f: seq<int>, t: real, j: nat)
    requires Fits(h, f) && f[0] == 0 && t > 0.0 && Stops(f, h.cols + 1, t, j)
    ensures FirstToReach(h, f, t, j)
  {
    assert Range(f, 0, 0) == 0 && Cumulative(f, 0) == 0;
    CumulativeIsColumns(f, j);
    forall i | 1 <= i < j
      ensures (Columns(f, i) as real) < t
    {
      CumulativeIsColumns(f, i);
    }
  }

  /** That many samples are at least prc percent of count. */
  predicate IsShare(samples: int, prc: real, count: int) {
    100.0 * samples as real >= prc * count as real
  }

  lemma TargetIsShare(samples: int, prc: real, count: int)
    ensures samples as real >= Target(prc, count) <==> IsShare(samples, prc, count)
  {
    var t := Target(prc, count);
    assert 100.0 * t == prc * count as real;
  }

  /** The samples of columns 1 to j are at least prc percent of those in range, and those of fewer columns are not. */
  ghost predicate FirstShare(h: Shape, f: seq<int>, prc: real, j: nat)
    requires Fits(h, f)
  {
    && 1 <= j <= h.cols && IsShare(Columns(f, j), prc, f[h.cols + 2])
    && forall i :: 1 <= i < j ==> !IsShare(Columns(f, i), prc, f[h.cols + 2])
  }

  lemma FirstIsShare(h: Shape, f: seq<int>, prc: real, j: nat)
    requires Fits(h, f) && FirstToReach(h, f, Target(prc, f[h.cols + 2]), j)
    ensures FirstShare(h, f, prc, j)
  {
    TargetIsShare(Columns(f, j), prc, f[h.cols + 2]);
    forall i | 1 <= i < j ensures !IsShare(Columns(f, i), prc, f[h.cols + 2]) {
      TargetIsShare(Columns(f, i), prc, f[h.cols + 2]);
    }
  }

  /** Without samples below the range, the percentile is the lower edge of the first column at which the share is reached. */
  lemma PercentileIsExact(h: Shape, f: seq<int>, prc: real) returns (j: nat)
    requires ShapeOk(h) && FrozenOk(h, f) && 0.0 < prc <= 100.0 && f[0] == 0 && f[h.cols + 2] > 0
    ensures FirstShare(h, f, prc, j) && Percentile(h, f, prc) == Some(h.min + (j - 1) * h.size)
  {
    PercentileIsFound(h, f, prc);
    TargetWithinCount(prc, f[h.cols + 2]);
    var t := Target(prc, f[h.cols + 2]);
    j := Search(f, h.cols + 1, t, 0, 0).value;
    StopsIsFirst(h, f, t, j);
    FirstIsShare(h, f, prc, j);
  }

  /** An empty histogram reports the edge below its range, and so does one whose samples below the range reach the share. */
  lemma PercentileBelowRange(h: Shape, f: seq<int>, prc: real)
    requires ShapeOk(h) && FrozenOk(h, f) && 0.0 < prc <= 100.0
    ensures Percentile(h, f, prc) == Some(h.min - h.size) <==> IsShare(f[0], prc, f[h.cols + 2])
    ensures f[h.cols + 2] == 0 ==> Percentile(h, f, prc) == Some(h.min - h.size)
  {
    PercentileIsFound(h, f, prc);
    TargetIsShare(f[0], prc, f[h.cols + 2]);
    var j := Search(f, h.cols + 1, Target(prc, f[h.cols + 2]), 0, 0).value;
    NoOtherEdge(h.size, j);
  }

  lemma NoOtherEdge(size: int, j: nat)
    requires size > 0
    ensures (j - 1) * size == -size <==> j == 0
  {
    Smaller(size, j - 1, -1);
    Smaller(size, -1, j - 1);
  }

  // ---- indexed bins and the others ----

  /** The bin of an index. */
  function Position(h: Shape, idx: int): int
    requires h.size > 0
  {
    CDiv(idx - h.min, h.size) + 1
  }

  lemma QuotientBand(a: int, b: int, k: int)
    requires a >= 0 && b > 0
    ensures a / b == k <==> k * b <= a < k * b + b
  {
    assert a == b * (a / b) + a % b;
    if k * b <= a < k * b + b {
      QuotientIs(a, b, k);
    }
  }

  lemma QuotientBelow(a: int, b: int, n: int)
    requires a >= 0 && b > 0
    ensures a / b < n <==> a < n * b
  {
    var k := a / b;
    QuotientBand(a, b, k);
    Smaller(b, k + 1, n);
    Smaller(b, n, k);
    assert (k + 1) * b == k * b + b;
  }

  lemma TruncatedQuotient(a: int, b: int, k: int)
    requires b > 0
    ensures CDiv(a, b) == k <==> if a >= 0 then k * b <= a < k * b + b else k * b - b < a <= k * b
  {
    if a >= 0 {
      QuotientBand(a, b, k);
    } else {
      QuotientBand(-a, b, -k);
      assert -k * b == -(k * b);
    }
  }

  lemma MultipleSign(b: int, k: int)
    requires b > 0
    ensures if k > 0 then k * b >= b else if k == 0 then k * b == 0 else k * b <= -b
  {
    Smaller(b, 1, k);
    Smaller(b, k, -1);
  }

  /** Any index: truncation makes column 1 twice as wide, and shifts the bins below it by one edge. */
  lemma PositionIs(h: Shape, idx: int, p: int)
    requires ShapeOk(h)
    ensures Position(h, idx) == p <==>
            if p > 1 then Edge(h, p) <= idx < Edge(h, p) + h.size
            else if p == 1 then h.min - h.size < idx < h.min + h.size
            else Edge(h, p) - h.size < idx <= Edge(h, p)
  {
    TruncatedQuotient(idx - h.min, h.size, p - 1);
    MultipleSign(h.size, p - 1);
  }

  /** An index in range names the column that covers it. */
  lemma PositionCovers(h: Shape, idx: int)
    requires ShapeOk(h) && h.min <= idx < h.max
    ensures 1 <= Position(h, idx) <= h.cols && Covers(h, Position(h, idx), idx as real)
  {
    var q := (idx - h.min) / h.size;
    QuotientBand(idx - h.min, h.size, q);
    QuotientBelow(idx - h.min, h.size, h.cols);
    assert q >= 0 by { MultipleSign(h.size, q); }
    OneMore(h.size, q);
    assert Position(h, idx) == q + 1;
  }

  lemma OneMore(b: int, k: int)
    ensures (k + 1) * b == k * b + b && (k + 2) * b == k * b + 2 * b
  {
  }

  lemma ReachUp(a: int, b: int, n: nat, w: int)
    requires a >= 0 && b > 0 && w == n * b
    ensures CDiv(a, b) <= n + 1 <==> a < w + 2 * b
  {
    QuotientBelow(a, b, n + 2);
    OneMore(b, n);
  }

  lemma ReachDown(a: int, b: int)
    requires a < 0 && b > 0
    ensures -1 <= CDiv(a, b) <==> -2 * b < a
  {
    QuotientBelow(-a, b, 2);
  }

  lemma CDivSign(a: int, b: int)
    requires b > 0
    ensures if a >= 0 then CDiv(a, b) >= 0 else CDiv(a, b) <= 0
  {
  }

  /** The indexes whose bin is one of the array. */
  lemma PositionInArray(h: Shape, idx: int)
    requires ShapeOk(h)
    ensures 0 <= Position(h, idx) <= h.cols + 2 <==> h.min - 2 * h.size < idx < h.max + 2 * h.size
  {
    var a := idx - h.min;
    MultipleSign(h.size, h.cols);
    CDivSign(a, h.size);
    if a >= 0 {
      ReachUp(a, h.size, h.cols, h.cols * h.size);
    } else {
      ReachDown(a, h.size);
    }
  }

  /** All of these name bins of the array. */
  predicate InArray(f: seq<int>, ps: seq<nat>) {
    f != [] && forall i :: 0 <= i < |ps| ==> ps[i] < |f|
  }

  /** What bin p holds when the last bin has come down to count. */
  function Hit(f: seq<int>, count: int, p: nat): int
    requires p < |f|
  {
    if p == |f| - 1 then count else f[p]
  }

  /** What is left in the last bin after the indexed bins are taken off, one after the other. */
  function Others(f: seq<int>, count: int, ps: seq<nat>): int
    requires InArray(f, ps)
  {
    if ps == [] then count else
      var before := Others(f, count, ps[..|ps| - 1]);
      before - Hit(f, before, ps[|ps| - 1])
  }

  /** The samples in the bins lo to hi - 1 that are not in s. */
  function Rest(f: seq<int>, lo: nat, hi: nat, s: set<nat>): int
    requires lo <= hi <= |f|
  {
    if lo == hi then 0 else Rest(f, lo, hi - 1, s) + if hi - 1 in s then 0 else f[hi - 1]
  }

  /** The samples of bins that are named again. */
  function Repeated(f: seq<int>, ps: seq<nat>): int
    requires forall i :: 0 <= i < |ps| ==> ps[i] < |f|
  {
    if ps == [] then 0 else
      var rest, p := ps[..|ps| - 1], ps[|ps| - 1];
      Repeated(f, rest) + if p in rest then f[p] else 0
  }

  function Elements(ps: seq<nat>): (s: set<nat>)
    ensures forall p :: p in s <==> p in ps
  {
    set p | p in ps
  }

  lemma {:induction false} RestOfNone(f: seq<int>, lo: nat, hi: nat)
    requires lo <= hi <= |f|
    ensures Rest(f, lo, hi, {}) == Range(f, lo, hi)
  {
    if lo < hi {
      RestOfNone(f, lo, hi - 1);
    }
  }

  lemma {:induction false} RestWithout(f: seq<int>, lo: nat, hi: nat, s: set<nat>, t: set<nat>, p: nat)
    requires lo <= hi <= |f| && forall x :: x in t <==> x in s || x == p
    ensures Rest(f, lo, hi, t) == Rest(f, lo, hi, s) - if lo <= p < hi && p !in s then f[p] else 0
  {
    if lo < hi {
      RestWithout(f, lo, hi - 1, s, t, p);
    }
  }

  /** The samples outside the range whose bin is named. */
  function Outside(h: Shape, f: seq<int>, ps: seq<nat>): int
    requires Fits(h, f)
  {
    (if 0 in ps then f[0] else 0) + if h.cols + 1 in ps then f[h.cols + 1] else 0
  }

  /** The samples of the columns that are not indexed, less those of bins outside the range or named again. */
  function Remainder(h: Shape, f: seq<int>, ps: seq<nat>): int
    requires Fits(h, f) && InArray(f, ps)
  {
    Rest(f, 1, h.cols + 1, Elements(ps)) - Repeated(f, ps) - Outside(h, f, ps)
  }

  /**
   The others are the samples of all columns that are not indexed, unless an index names a bin outside the range, whose
   samples were never counted there, or the same bin again.
   */
  lemma {:induction false} OthersAreTheRest(h: Shape, f: seq<int>, ps: seq<nat>)
    requires Fits(h, f) && Balanced(h, f) && InArray(f, ps) && h.cols + 2 !in ps
    ensures Others(f, f[h.cols + 2], ps) == Remainder(h, f, ps)
  {
    if ps == [] {
      RestOfNone(f, 1, h.cols + 1);
      assert Elements(ps) == {};
    } else {
      var rest, p := ps[..|ps| - 1], ps[|ps| - 1];
      assert ps == rest + [p];
      assert p in ps;
      OthersAreTheRest(h, f, rest);
      RestWithout(f, 1, h.cols + 1, Elements(rest), Elements(ps), p);
      assert Outside(h, f, ps) == Outside(h, f, rest) + if p !in rest && (p == 0 || p == h.cols + 1) then f[p] else 0;
    }
  }

  lemma {:induction false} OthersShift(f: seq<int>, count: int, ps: seq<nat>)
    requires InArray(f, ps) && |f| - 1 !in ps
    ensures Others(f, count, ps) == count + Others(f, 0, ps)
  {
    if ps != [] {
      var rest, p := ps[..|ps| - 1], ps[|ps| - 1];
      assert p in ps;
      OthersShift(f, count, rest);
    }
  }

  lemma {:induction false} OthersAppend(f: seq<int>, count: int, ps: seq<nat>, qs: seq<nat>)
    requires InArray(f, ps) && InArray(f, qs)
    ensures Others(f, count, ps + qs) == Others(f, Others(f, count, ps), qs)
  {
    if qs == [] {
      assert ps + qs == ps;
    } else {
      OthersAppend(f, count, ps, qs[..|qs| - 1]);
      assert (ps + qs)[..|ps + qs| - 1] == ps + qs[..|qs| - 1];
    }
  }

  /** An index that names the last bin itself takes everything off it; only what is taken off afterwards remains, negative. */
  lemma OthersAfterLastBin(h: Shape, f: seq<int>, ps: seq<nat>, qs: seq<nat>)
    requires Fits(h, f) && Balanced(h, f) && InArray(f, ps) && InArray(f, qs) && h.cols + 2 !in qs
    ensures Others(f, f[h.cols + 2], ps + [h.cols + 2] + qs) == Remainder(h, f, qs) - f[h.cols + 2]
  {
    var last := h.cols + 2;
    var count := f[last];
    OthersAppend(f, count, ps + [last], qs);
    assert (ps + [last])[..|ps|] == ps;
    OthersShift(f, count, qs);
    OthersAreTheRest(h, f, qs);
  }
}
