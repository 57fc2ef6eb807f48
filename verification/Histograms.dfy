/**
 The double-buffered histograms: bin 0 counts the samples below min, bins 1 to cols those in range, bin cols + 1 those from
 max on, and the last bin the samples in range.
 */
module Histograms {

  import opened Common

  /** min, max, bin_size and the number of columns between min and max. */
  datatype Shape = Shape(min: int, max: int, size: int, cols: nat)

  predicate ShapeOk(h: Shape) {
    h.size > 0 && h.max == h.min + h.cols * h.size
  }

  /** create_histo for a positive bin size; None where it ends the program. */
  function Create(min: int, max: int, size: int): Option<Shape>
    requires size > 0
  {
    var n := CDiv(max - min, size);
    if max != min + n * size || n < 0 then None else Some(Shape(min, max, size, n))
  }

  /** A histogram is created exactly when the range is a whole number of bins. */
  lemma CreateAccepts(min: int, max: int, size: int)
    requires size > 0
    ensures Create(min, max, size).Some? <==> max >= min && (max - min) % size == 0
    ensures Create(min, max, size).Some? ==> ShapeOk(Create(min, max, size).value)
  {
    var d := max - min;
    if d >= 0 {
      assert d == size * (d / size) + d % size;
    } else {
      var m := -d / size;
      assert -d == size * m + -d % size;
      if m == 0 {
      } else {
        assert CDiv(d, size) < 0;
      }
    }
  }

  // ---- one sample ----

  predicate InRange(h: Shape, v: real) {
    h.min as real <= v < h.max as real
  }

  /** The bin of a sample in range, as the fast path computes it. */
  function Index(h: Shape, v: real): int
    requires h.size > 0
  {
    CDiv(Trunc(v) + h.size - h.min, h.size)
  }

  /** The bin that a sample is counted in. */
  function Bin(h: Shape, v: real): int
    requires ShapeOk(h)
  {
    if v < h.min as real then 0 else if v >= h.max as real then h.cols + 1 else Index(h, v)
  }

  /** Bin i covers the sample. */
  predicate Covers(h: Shape, i: int, v: real) {
    (h.min + (i - 1) * h.size) as real <= v < (h.min + i * h.size) as real
  }

  /** Truncation has not carried the sample into the next bin. */
  predicate StaysInBin(h: Shape, v: real)
    requires h.size > 0
  {
    v >= 0.0 || v == Trunc(v) as real || (Trunc(v) - h.min) % h.size != 0
  }

  lemma TruncIs(v: real)
    ensures v >= 0.0 || v == Trunc(v) as real ==> Trunc(v) as real <= v < (Trunc(v) + 1) as real
    ensures v < 0.0 && v != Trunc(v) as real ==> (Trunc(v) - 1) as real < v < Trunc(v) as real
  {
  }

  lemma QuotientIs(a: int, b: int, q: int)
    requires b > 0 && b * q <= a < b * q + b
    ensures a / b == q && a % b == a - b * q
  {
    var d := a / b;
    assert a == b * d + a % b;
    assert b * (d - q) == b * d - b * q;
    SmallMultiple(b, d - q);
  }

  lemma SmallMultiple(b: int, k: int)
    requires b > 0 && -b < b * k < b
    ensures k == 0
  {
  }

  /** The column of an integer. */
  lemma ColumnOf(a: int, b: int)
    requires a >= 0 && b > 0
    ensures var i := (a + b) / b;
            1 <= i && (i - 1) * b <= a < i * b && (a % b == 0 <==> a == (i - 1) * b)
  {
    var q := a / b;
    assert a == b * q + a % b;
    QuotientIs(a, b, q);
    assert b * (q + 1) == b * q + b;
    QuotientIs(a + b, b, q + 1);
    assert (q + 1) * b == q * b + b;
  }

  lemma TruncAtLeast(v: real, m: int)
    requires m as real <= v
    ensures Trunc(v) >= m
  {
  }

  /** A column holds the integers from its lower edge to the next one. */
  lemma IndexIs(h: Shape, v: real)
    requires ShapeOk(h) && InRange(h, v)
    ensures var i := Index(h, v);
            && 1 <= i && h.min + (i - 1) * h.size <= Trunc(v) < h.min + i * h.size
            && ((Trunc(v) - h.min) % h.size == 0 <==> Trunc(v) == h.min + (i - 1) * h.size)
  {
    TruncAtLeast(v, h.min);
    var a := Trunc(v) - h.min;
    ColumnOf(a, h.size);
    assert Index(h, v) == (a + h.size) / h.size;
  }

  /** A sample in range is counted in the bin that covers it, exactly when truncation does not carry it into the next one. */
  lemma BinCovers(h: Shape, v: real)
    requires ShapeOk(h) && InRange(h, v)
    ensures Covers(h, Index(h, v), v) <==> StaysInBin(h, v)
  {
    IndexIs(h, v);
    TruncIs(v);
  }

  lemma Smaller(b: int, k: int, n: int)
    requires b > 0
    ensures k * b <= n * b <==> k <= n
  {
    assert (n - k) * b == n * b - k * b;
  }

  /** Of n columns of width b, the one after the last is reached only at its edge. */
  lemma LastColumn(a: int, b: int, n: int, i: int)
    requires b > 0 && a <= n * b && (i - 1) * b <= a < i * b
    ensures i <= n + 1 && (i == n + 1 <==> a == n * b)
  {
    Smaller(b, i - 1, n);
    Smaller(b, i, n);
  }

  /** The bin beyond the columns is reached only from the last unit below a maximum that is not positive. */
  lemma IndexBeyond(h: Shape, v: real)
    requires ShapeOk(h) && InRange(h, v)
    ensures Index(h, v) <= h.cols + 1
    ensures Index(h, v) == h.cols + 1 <==> v < 0.0 && Trunc(v) == h.max
  {
    IndexIs(h, v);
    TruncIs(v);
    assert Trunc(v) <= h.max && (v >= 0.0 ==> Trunc(v) < h.max);
    LastColumn(Trunc(v) - h.min, h.size, h.cols, Index(h, v));
  }

  /** No sample ends in the bin beyond the columns by truncation; certain when the range does not start below zero. */
  predicate Safe(h: Shape, v: real) {
    v >= 0.0 || Trunc(v) != h.max
  }

  // ---- bins ----

  predicate Fits(h: Shape, bins: seq<int>) {
    |bins| == h.cols + 3
  }

  /** __add_histo */
  function Add(h: Shape, bins: seq<int>, v: real): (t: seq<int>)
    requires ShapeOk(h) && Fits(h, bins)
    ensures Fits(h, t)
  {
    if InRange(h, v) then
      IndexIs(h, v);
      IndexBeyond(h, v);
      var i := Index(h, v);
      var a := bins[i := bins[i] + 1];
      a[h.cols + 2 := a[h.cols + 2] + 1]
    else
      bins[Bin(h, v) := bins[Bin(h, v)] + 1]
  }

  /** What one sample adds to bin k. */
  function Effect(h: Shape, v: real, k: int): int
    requires ShapeOk(h)
  {
    (if k == Bin(h, v) then 1 else 0) + if InRange(h, v) && k == h.cols + 2 then 1 else 0
  }

  lemma AddEffect(h: Shape, bins: seq<int>, v: real, k: nat)
    requires ShapeOk(h) && Fits(h, bins) && k < |bins|
    ensures Add(h, bins, v)[k] == bins[k] + Effect(h, v, k)
  {
    if InRange(h, v) {
      IndexIs(h, v);
      IndexBeyond(h, v);
    }
  }

  /**
   The sample is counted in bin k: below the range in the first, from its end on in the one after the columns, in range in the last
   and in the column that covers it. A sample that truncation carries on is counted one bin later.
   */
  predicate Belongs(h: Shape, v: real, k: int)
    requires h.size > 0
  {
    if v < h.min as real then k == 0
    else if v >= h.max as real then k == h.cols + 1
    else k == h.cols + 2 || (1 <= k <= h.cols + 1 && Covers(h, if StaysInBin(h, v) then k else k - 1, v))
  }

  lemma OnlyColumn(min: int, size: int, i: int, j: int, v: real)
    requires size > 0 && (min + (i - 1) * size) as real <= v < (min + i * size) as real
    requires (min + (j - 1) * size) as real <= v < (min + j * size) as real
    ensures i == j
  {
    Smaller(size, i, j - 1);
    Smaller(size, j, i - 1);
  }

  /** The column before the one that the sample is counted in covers it if truncation has carried it on. */
  lemma CarriedOver(h: Shape, v: real)
    requires ShapeOk(h) && InRange(h, v) && !StaysInBin(h, v)
    ensures Covers(h, Index(h, v) - 1, v)
  {
    IndexIs(h, v);
    TruncIs(v);
    var i := Index(h, v);
    assert (i - 1) * h.size == (i - 2) * h.size + h.size;
  }

  /** What a sample adds to each bin, by the edges of the bins alone. */
  lemma EffectIs(h: Shape, v: real, k: int)
    requires ShapeOk(h)
    ensures Effect(h, v, k) == if Belongs(h, v, k) then 1 else 0
  {
    if InRange(h, v) {
      IndexIs(h, v);
      IndexBeyond(h, v);
      BinCovers(h, v);
      var i := Index(h, v);
      if !StaysInBin(h, v) { CarriedOver(h, v); }
      var d := if StaysInBin(h, v) then 0 else 1;
      if Covers(h, k - d, v) { OnlyColumn(h.min, h.size, i - d, k - d, v); }
    } else {
      assert h.cols * h.size >= 0;
    }
  }

  /** The sum of bins lo to hi - 1. */
  function Range(bins: seq<int>, lo: nat, hi: nat): int
    requires lo <= hi <= |bins|
  {
    if lo == hi then 0 else Range(bins, lo, hi - 1) + bins[hi - 1]
  }

  lemma {:induction false} RangeUpdate(bins: seq<int>, lo: nat, hi: nat, i: nat, d: int)
    requires lo <= hi <= |bins| && i < |bins|
    ensures Range(bins[i := bins[i] + d], lo, hi) == Range(bins, lo, hi) + if lo <= i < hi then d else 0
  {
    if lo < hi {
      RangeUpdate(bins, lo, hi - 1, i, d);
    }
  }

  /** The last bin is the sum of the columns. */
  predicate Balanced(h: Shape, bins: seq<int>)
    requires Fits(h, bins)
  {
    bins[h.cols + 2] == Range(bins, 1, h.cols + 1)
  }

  /** Each sample counts once, in its bin; the last bin stays the sum of the columns exactly when the sample is safe. */
  lemma AddKeepsBalance(h: Shape, bins: seq<int>, v: real)
    requires ShapeOk(h) && Fits(h, bins) && Balanced(h, bins)
    ensures Balanced(h, Add(h, bins, v)) <==> !InRange(h, v) || Safe(h, v)
  {
    if InRange(h, v) {
      IndexIs(h, v);
      IndexBeyond(h, v);
      var i := Index(h, v);
      var a := bins[i := bins[i] + 1];
      RangeUpdate(bins, 1, h.cols + 1, i, 1);
      RangeUpdate(a, 1, h.cols + 1, h.cols + 2, 1);
    } else {
      RangeUpdate(bins, 1, h.cols + 1, Bin(h, v), 1);
    }
  }

  // ---- runs over both buffers ----

  datatype Op = Sample(v: real) | Swap | Clear

  datatype Histogram = Histogram(cur: seq<int>, frozen: seq<int>, global: seq<int>)

  function Zeros(h: Shape): seq<int> {
    seq(h.cols + 3, _ => 0)
  }

  function Sums(a: seq<int>, b: seq<int>): seq<int>
    requires |a| == |b|
  {
    seq(|a|, k requires 0 <= k < |a| => a[k] + b[k])
  }

  predicate AllFit(h: Shape, t: Histogram) {
    Fits(h, t.cur) && Fits(h, t.frozen) && Fits(h, t.global)
  }

  /** add_histo, swap_histo with the global histogram, clear_histo. */
  function Step(h: Shape, t: Histogram, op: Op): (u: Histogram)
    requires ShapeOk(h) && AllFit(h, t)
    ensures AllFit(h, u)
  {
    match op
    case Sample(v) => t.(cur := Add(h, t.cur, v))
    case Swap => Histogram(t.frozen, t.cur, Sums(t.global, t.cur))
    case Clear => t.(frozen := Zeros(h))
  }

  function Run(h: Shape, ops: seq<Op>): (t: Histogram)
    requires ShapeOk(h)
    ensures AllFit(h, t)
  {
    if ops == [] then Histogram(Zeros(h), Zeros(h), Zeros(h)) else Step(h, Run(h, ops[..|ops| - 1]), ops[|ops| - 1])
  }

  /** Whether the buffer that was frozen last has not been cleared. */
  predicate Dirty(ops: seq<Op>) {
    ops != [] && (ops[|ops| - 1].Swap? || (ops[|ops| - 1].Sample? && Dirty(ops[..|ops| - 1])))
  }

  /** Every swap is followed by a clear before the next one. */
  predicate Disciplined(ops: seq<Op>) {
    ops != [] ==> Disciplined(ops[..|ops| - 1]) && (ops[|ops| - 1].Swap? ==> !Dirty(ops[..|ops| - 1]))
  }

  /** What the samples since the last swap add to bin k. */
  function SinceSwap(h: Shape, ops: seq<Op>, k: int): int
    requires ShapeOk(h)
  {
    if ops == [] then 0 else
      var rest := ops[..|ops| - 1];
      match ops[|ops| - 1]
      case Sample(v) => SinceSwap(h, rest, k) + Effect(h, v, k)
      case Swap => 0
      case Clear => SinceSwap(h, rest, k)
  }

  /** What all the samples before the last swap add to bin k. */
  function BeforeSwap(h: Shape, ops: seq<Op>, k: int): int
    requires ShapeOk(h)
  {
    if ops == [] then 0 else
      var rest := ops[..|ops| - 1];
      BeforeSwap(h, rest, k) + if ops[|ops| - 1].Swap? then SinceSwap(h, rest, k) else 0
  }

  /** What the samples between the last two swaps add to bin k. */
  function Epoch(h: Shape, ops: seq<Op>, k: int): int
    requires ShapeOk(h)
  {
    if ops == [] then 0 else
      var rest := ops[..|ops| - 1];
      if ops[|ops| - 1].Swap? then SinceSwap(h, rest, k) else Epoch(h, rest, k)
  }

  /**
   With a clear between swaps, the global data are all the samples before the last swap, the frozen buffer those of the last
   interval until it is cleared, and the current one those since.
   */
  lemma {:induction false} GlobalIsEverything(h: Shape, ops: seq<Op>, k: nat)
    requires ShapeOk(h) && k < h.cols + 3 && Disciplined(ops)
    ensures var t := Run(h, ops);
            && t.cur[k] == SinceSwap(h, ops, k)
            && t.global[k] == BeforeSwap(h, ops, k)
            && t.frozen[k] == if Dirty(ops) then Epoch(h, ops, k) else 0
  {
    if ops != [] {
      var rest := ops[..|ops| - 1];
      GlobalIsEverything(h, rest, k);
      match ops[|ops| - 1]
      case Sample(v) => AddEffect(h, Run(h, rest).cur, v, k);
      case Swap =>
      case Clear =>
    }
  }

  /** How many samples since the last swap belong to bin k. */
  function CountSince(h: Shape, ops: seq<Op>, k: int): nat
    requires h.size > 0
  {
    if ops == [] then 0 else
      var rest := ops[..|ops| - 1];
      match ops[|ops| - 1]
      case Sample(v) => CountSince(h, rest, k) + if Belongs(h, v, k) then 1 else 0
      case Swap => 0
      case Clear => CountSince(h, rest, k)
  }

  lemma {:induction false} SinceSwapCounts(h: Shape, ops: seq<Op>, k: int)
    requires ShapeOk(h)
    ensures SinceSwap(h, ops, k) == CountSince(h, ops, k)
  {
    if ops != [] {
      SinceSwapCounts(h, ops[..|ops| - 1], k);
      if ops[|ops| - 1].Sample? { EffectIs(h, ops[|ops| - 1].v, k); }
    }
  }

  /** Each bin of the buffer that is filled holds the number of samples since the last swap that belong to it. */
  lemma BinsCount(h: Shape, ops: seq<Op>, k: nat)
    requires ShapeOk(h) && k < h.cols + 3 && Disciplined(ops)
    ensures Run(h, ops).cur[k] == CountSince(h, ops, k)
  {
    GlobalIsEverything(h, ops, k);
    SinceSwapCounts(h, ops, k);
  }

  predicate AllSafe(h: Shape, ops: seq<Op>) {
    forall i :: 0 <= i < |ops| && ops[i].Sample? && InRange(h, ops[i].v) ==> Safe(h, ops[i].v)
  }

  lemma {:induction false} ZeroRange(h: Shape, lo: nat, hi: nat)
    requires lo <= hi <= h.cols + 3
    ensures Range(Zeros(h), lo, hi) == 0
  {
    if lo < hi {
      ZeroRange(h, lo, hi - 1);
    }
  }

  /** Both buffers stay balanced whatever the order of the steps. */
  lemma {:induction false} RunKeepsBalance(h: Shape, ops: seq<Op>)
    requires ShapeOk(h) && AllSafe(h, ops)
    ensures Balanced(h, Run(h, ops).cur) && Balanced(h, Run(h, ops).frozen)
    ensures forall k :: 0 <= k < h.cols + 3 ==> Run(h, ops).cur[k] >= 0 && Run(h, ops).frozen[k] >= 0
  {
    ZeroRange(h, 1, h.cols + 1);
    if ops != [] {
      var rest := ops[..|ops| - 1];
      RunKeepsBalance(h, rest);
      if ops[|ops| - 1].Sample? {
        var v := ops[|ops| - 1].v;
        AddKeepsBalance(h, Run(h, rest).cur, v);
        forall k: nat | k < h.cols + 3
          ensures Add(h, Run(h, rest).cur, v)[k] >= 0
        {
          AddEffect(h, Run(h, rest).cur, v, k);
        }
      }
    }
  }

  /** A range that does not start below zero makes every sample safe. */
  lemma NonNegativeRangeIsSafe(h: Shape, v: real)
    requires ShapeOk(h) && InRange(h, v) && h.min >= 0
    ensures Safe(h, v) && Covers(h, Index(h, v), v)
  {
    BinCovers(h, v);
  }

  /** From -10 to 0 in bins of one, -0.5 is counted among the samples above the range, and among those in range. */
  lemma TruncationMisplaces()
    ensures var h := Shape(-10, 0, 1, 10);
            ShapeOk(h) && InRange(h, -0.5) && Index(h, -0.5) == h.cols + 1 && !Balanced(h, Add(h, Zeros(h), -0.5))
  {
    var h := Shape(-10, 0, 1, 10);
    assert Trunc(-0.5) == 0;
    ZeroRange(h, 1, h.cols + 1);
    AddKeepsBalance(h, Zeros(h), -0.5);
  }
}
