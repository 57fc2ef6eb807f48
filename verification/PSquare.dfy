/**
 The P-square estimator of a percentile: five markers with integer heights and positions, moved by a piecewise-parabolic
 formula in exact arithmetic. One value of Markers is one column of the source's arrays.
 */
module PSquare {

  import opened Common

  datatype Markers = Markers(y: seq<int>, x: seq<int>, n: seq<real>, dn: seq<real>, count: nat)

  predicate Five(m: Markers) {
    |m.y| == 5 && |m.x| == 5 && |m.n| == 5 && |m.dn| == 5
  }

  function Blank(): (m: Markers)
    ensures Five(m)
  {
    Markers([0, 0, 0, 0, 0], [0, 0, 0, 0, 0], [0.0, 0.0, 0.0, 0.0, 0.0], [0.0, 0.0, 0.0, 0.0, 0.0], 0)
  }

  // ---- the first five samples ----

  function Insert(s: seq<int>, v: int): (t: seq<int>)
    ensures |t| == |s| + 1
  {
    if s == [] then [v] else if v <= s[0] then [v] + s else [s[0]] + Insert(s[1..], v)
  }

  function Sort(s: seq<int>): (t: seq<int>)
    ensures |t| == |s|
  {
    if s == [] then [] else Insert(Sort(s[1..]), s[0])
  }

  predicate Ascending(s: seq<int>) {
    forall i :: 0 <= i < |s| - 1 ==> s[i] <= s[i + 1]
  }

  function Desired(p: real): seq<real> {
    [1.0, 1.0 + 2.0 * p, 1.0 + 4.0 * p, 3.0 + 2.0 * p, 5.0]
  }

  function Increments(p: real): seq<real> {
    [0.0, p / 2.0, p, (1.0 + p) / 2.0, 1.0]
  }

  /** One of the first five samples; the fifth one sorts the heights. */
  function Fill(p: real, m: Markers, q: int): Markers
    requires Five(m) && m.count < 5
  {
    var k := m.count;
    var y := m.y[k := q];
    Markers(if k == 4 then Sort(y) else y, m.x[k := k + 1], if k == 0 then Desired(p) else m.n,
            if k == 0 then Increments(p) else m.dn, k + 1)
  }

  // ---- later samples ----

  /** The chain of comparisons: the first marker to the right of the sample, -1 when no arm applies, and the new heights. */
  function Place(y: seq<int>, q: int): (int, seq<int>)
    requires |y| == 5
  {
    if q < y[0] then (1, y[0 := q])
    else if y[0] <= q < y[1] then (1, y)
    else if y[1] <= q < y[2] then (2, y)
    else if y[2] <= q < y[3] then (3, y)
    else if y[3] <= q < y[4] then (4, y)
    else if q > y[4] then (4, y[4 := q])
    else (-1, y)
  }

  function Cell(y: seq<int>, q: int): int
    requires |y| == 5
  {
    Place(y, q).0
  }

  function Extremes(y: seq<int>, q: int): seq<int>
    requires |y| == 5
  {
    Place(y, q).1
  }

  /** The positions from marker k on move by one. */
  function Shift(x: seq<int>, k: int): seq<int> {
    seq(|x|, j requires 0 <= j < |x| => if j >= k then x[j] + 1 else x[j])
  }

  function Advance(n: seq<real>, dn: seq<real>): seq<real>
    requires |n| == |dn|
  {
    seq(|n|, j requires 0 <= j < |n| => n[j] + dn[j])
  }

  /** The direction in which marker i moves, 0 for none. */
  function Move(x: seq<int>, n: seq<real>, i: int): int
    requires |x| == 5 && |n| == 5 && 1 <= i <= 3
  {
    var dd := n[i] - x[i] as real;
    if dd >= 1.0 && x[i + 1] - x[i] > 1 then 1
    else if dd <= -1.0 && x[i - 1] - x[i] < -1 then -1
    else 0
  }

  /** A difference h of heights over a distance d, scaled. */
  function Part(f: real, h: real, d: real): real
    requires d != 0.0
  {
    f * h / d
  }

  function Portion(e: real, w: real, z: real): real
    requires w != 0.0
  {
    (e / w) * z
  }

  /** The formula for a marker at m of height b that moves by e, between neighbours at l and r of heights a and c. */
  function Predicted(l: real, m: real, r: real, a: real, b: real, c: real, e: real): real
    requires l < m < r
  {
    b + Portion(e, r - l, Part(m - l + e, c - b, r - m) + Part(r - m - e, b - a, m - l))
  }

  /** The parabolic prediction of the height of marker i. */
  function Parabola(y: seq<int>, x: seq<int>, i: int, d: int): int
    requires |y| == 5 && |x| == 5 && 1 <= i <= 3 && x[i - 1] < x[i] < x[i + 1]
  {
    Trunc(Predicted(x[i - 1] as real, x[i] as real, x[i + 1] as real, y[i - 1] as real, y[i] as real, y[i + 1] as real, d as real))
  }

  /** The linear prediction, used when the parabola leaves the interval of the neighbours. */
  function Line(y: seq<int>, x: seq<int>, i: int, d: int): int
    requires |y| == 5 && |x| == 5 && 1 <= i <= 3 && x[i - 1] < x[i] < x[i + 1]
  {
    if d == 1 then Trunc(y[i] as real + (y[i + 1] - y[i]) as real / (x[i + 1] - x[i]) as real)
    else Trunc(y[i] as real - (y[i - 1] - y[i]) as real / (x[i - 1] - x[i]) as real)
  }

  function Height(y: seq<int>, x: seq<int>, i: int, d: int): int
    requires |y| == 5 && |x| == 5 && 1 <= i <= 3 && x[i - 1] < x[i] < x[i + 1]
  {
    var v := Parabola(y, x, i, d);
    if y[i - 1] > v || v > y[i + 1] then Line(y, x, i, d) else v
  }

  predicate Strict(x: seq<int>) {
    forall i :: 0 <= i < |x| - 1 ==> x[i] < x[i + 1]
  }

  /** Heights and positions after adjusting markers i to 3. */
  function Adjust(y: seq<int>, x: seq<int>, n: seq<real>, i: int): (r: (seq<int>, seq<int>))
    requires |y| == 5 && |x| == 5 && |n| == 5 && 1 <= i <= 4 && Strict(x)
    ensures |r.0| == 5 && |r.1| == 5 && Strict(r.1)
    decreases 4 - i
  {
    if i == 4 then (y, x) else
      var d := Move(x, n, i);
      if d == 0 then Adjust(y, x, n, i + 1)
      else Adjust(y[i := Height(y, x, i, d)], x[i := x[i] + d], n, i + 1)
  }

  /** A sample after the fifth; None is the exit taken when the sample fell in no cell. */
  function Later(m: Markers, q: int): Option<Markers>
    requires Five(m) && Strict(m.x)
  {
    var k := Cell(m.y, q);
    if k < 0 then None else
      var n := Advance(m.n, m.dn);
      var (y, x) := Adjust(Extremes(m.y, q), Shift(m.x, k), n, 1);
      Some(Markers(y, x, n, m.dn, m.count + 1))
  }

  /** All samples of one percentile; None once the program has exited. */
  function Run(p: real, qs: seq<int>): (r: Option<Markers>)
    ensures r.Some? ==> Five(r.value) && r.value.count == |qs|
    ensures r.Some? && |qs| < 5 ==> forall i :: 0 <= i < |qs| ==> r.value.x[i] == i + 1
    ensures r.Some? && |qs| >= 5 ==> Strict(r.value.x)
  {
    if qs == [] then Some(Blank()) else
      var n := |qs| - 1;
      match Run(p, qs[..n])
      case None => None
      case Some(m) => if n < 5 then Some(Fill(p, m, qs[n])) else Later(m, qs[n])
  }

  // ---- sorting ----

  lemma {:induction false} InsertKeeps(s: seq<int>, v: int)
    ensures multiset(Insert(s, v)) == multiset(s) + multiset{v} && |Insert(s, v)| == |s| + 1
    ensures Ascending(s) ==> Ascending(Insert(s, v)) && Insert(s, v)[0] == if s != [] && s[0] < v then s[0] else v
  {
    if s != [] && v > s[0] {
      InsertKeeps(s[1..], v);
      assert s == [s[0]] + s[1..];
      var t := Insert(s[1..], v);
      if Ascending(s) {
        assert forall i :: 0 <= i < |s| - 1 ==> s[1..][i] == s[i + 1];
      }
    } else {
      assert [v] + s == Insert(s, v);
    }
  }

  lemma {:induction false} SortSorts(s: seq<int>)
    ensures Ascending(Sort(s)) && multiset(Sort(s)) == multiset(s) && |Sort(s)| == |s|
  {
    if s != [] {
      SortSorts(s[1..]);
      InsertKeeps(Sort(s[1..]), s[0]);
      assert s == [s[0]] + s[1..];
    }
  }

  lemma {:induction false} AscendingPairs(s: seq<int>, i: nat, j: nat)
    requires Ascending(s) && i <= j < |s|
    ensures s[i] <= s[j]
    decreases j - i
  {
    if i < j {
      AscendingPairs(s, i + 1, j);
    }
  }

  lemma LeastIsFirst(s: seq<int>, t: seq<int>)
    requires Ascending(s) && s != [] && t != [] && multiset(s) == multiset(t)
    ensures s[0] <= t[0]
  {
    assert t[0] in multiset(s);
    var j :| 0 <= j < |s| && s[j] == t[0];
    AscendingPairs(s, 0, j);
  }

  lemma TailOf(s: seq<int>)
    requires s != []
    ensures multiset(s[1..]) == multiset(s) - multiset{s[0]}
    ensures Ascending(s) ==> Ascending(s[1..])
  {
    assert s == [s[0]] + s[1..];
    assert forall i :: 0 <= i < |s| - 1 ==> s[1..][i] == s[i + 1];
  }

  lemma {:induction false} SortedIsUnique(s: seq<int>, t: seq<int>)
    requires Ascending(s) && Ascending(t) && multiset(s) == multiset(t) && |s| == |t|
    ensures s == t
  {
    if s != [] {
      assert s[0] == t[0] by {
        LeastIsFirst(s, t);
        LeastIsFirst(t, s);
      }
      TailOf(s);
      TailOf(t);
      SortedIsUnique(s[1..], t[1..]);
      assert s == [s[0]] + s[1..] && t == [t[0]] + t[1..];
    }
  }

  // ---- one sample ----

  lemma TruncBetween(a: int, b: int, r: real)
    requires a as real <= r <= b as real
    ensures a <= Trunc(r) <= b
  {
  }

  /** A point between two heights. */
  lemma Interpolate(a: int, b: int, w: int)
    requires a <= b && w >= 1
    ensures 0.0 <= (b - a) as real / w as real <= (b - a) as real
  {
    var v := w as real;
    var q := (b - a) as real / v;
    assert q * v == (b - a) as real && q >= 0.0;
    assert q * (v - 1.0) >= 0.0;
  }

  lemma LineBetween(y: seq<int>, x: seq<int>, i: int, d: int)
    requires |y| == 5 && |x| == 5 && 1 <= i <= 3 && Strict(x) && Ascending(y)
    requires x[i - 1] < x[i] < x[i + 1]
    ensures y[i - 1] <= Line(y, x, i, d) <= y[i + 1]
  {
    var a, b, c := y[i - 1], y[i], y[i + 1];
    assert a <= b <= c;
    if d == 1 {
      Interpolate(b, c, x[i + 1] - x[i]);
      TruncBetween(b, c, b as real + (c - b) as real / (x[i + 1] - x[i]) as real);
    } else {
      Interpolate(a, b, x[i] - x[i - 1]);
      SameQuotient(a - b, x[i - 1] - x[i]);
      TruncBetween(a, b, b as real - (a - b) as real / (x[i - 1] - x[i]) as real);
    }
  }

  lemma SameQuotient(h: int, w: int)
    requires w != 0
    ensures h as real / w as real == (-h) as real / (-w) as real
  {
    var q, r := h as real / w as real, (-h) as real / (-w) as real;
    assert q * w as real == h as real;
    assert r * (-w) as real == (-h) as real;
  }

  lemma HeightBetween(y: seq<int>, x: seq<int>, i: int, d: int)
    requires |y| == 5 && |x| == 5 && 1 <= i <= 3 && Strict(x) && Ascending(y)
    requires x[i - 1] < x[i] < x[i + 1]
    ensures y[i - 1] <= Height(y, x, i, d) <= y[i + 1]
  {
    LineBetween(y, x, i, d);
  }

  lemma RaiseKeeps(y: seq<int>, i: int, h: int)
    requires |y| == 5 && 1 <= i <= 3 && Ascending(y) && y[i - 1] <= h <= y[i + 1]
    ensures Ascending(y[i := h])
  {
  }

  lemma MoveKeepsStrict(x: seq<int>, n: seq<real>, i: int)
    requires |x| == 5 && |n| == 5 && 1 <= i <= 3 && Strict(x)
    ensures Strict(x[i := x[i] + Move(x, n, i)]) && x[i - 1] < x[i] < x[i + 1]
  {
  }

  lemma {:induction false} AdjustKeeps(y: seq<int>, x: seq<int>, n: seq<real>, i: int)
    requires |y| == 5 && |x| == 5 && |n| == 5 && 1 <= i <= 4 && Strict(x) && Ascending(y)
    ensures var (y', x') := Adjust(y, x, n, i);
            && Ascending(y') && y'[0] == y[0] && y'[4] == y[4]
            && x'[0] == x[0] && x'[4] == x[4]
    decreases 4 - i
  {
    if i < 4 {
      var d := Move(x, n, i);
      if d == 0 {
        AdjustKeeps(y, x, n, i + 1);
      } else {
        MoveKeepsStrict(x, n, i);
        HeightBetween(y, x, i, d);
        RaiseKeeps(y, i, Height(y, x, i, d));
        AdjustKeeps(y[i := Height(y, x, i, d)], x[i := x[i] + d], n, i + 1);
      }
    }
  }

  /** With sorted heights the chain of comparisons misses exactly the largest height. */
  lemma CellIsTotal(y: seq<int>, q: int)
    requires |y| == 5 && Ascending(y)
    ensures Cell(y, q) == -1 <==> q == y[4]
    ensures q != y[4] ==> 1 <= Cell(y, q) <= 4
  {
    assert y[0] <= y[1] <= y[2] <= y[3] <= y[4];
  }

  // ---- whole runs ----

  /** What holds from the fifth sample on. */
  ghost predicate MarkersOk(m: Markers, qs: seq<int>)
    requires |qs| >= 5
  {
    && Five(m) && Ascending(m.y) && Strict(m.x)
    && m.y[0] == Min(qs) && m.y[4] == Max(qs)
    && m.x[0] == 1 && m.x[4] == |qs|
  }

  /** One more sample moves the ends of the heights with the extremes of the samples, and keeps the heights in order. */
  lemma ExtremesFollow(y: seq<int>, qs: seq<int>, q: int)
    requires |y| == 5 && qs != [] && Ascending(y) && y[0] == Min(qs) && y[4] == Max(qs) && q != y[4]
    ensures var e := Extremes(y, q);
            |e| == 5 && Ascending(e) && e[0] == Min(qs + [q]) && e[4] == Max(qs + [q])
  {
    assert (qs + [q])[..|qs|] == qs;
    assert y[0] <= y[1] && y[3] <= y[4];
  }

  lemma ShiftKeepsStrict(x: seq<int>, k: int)
    requires |x| == 5 && Strict(x) && 1 <= k <= 4
    ensures var t := Shift(x, k); |t| == 5 && Strict(t) && t[0] == x[0] && t[4] == x[4] + 1
  {
    assert x[0] < x[1] < x[2] < x[3] < x[4];
  }

  lemma LaterStep(m: Markers, qs: seq<int>, q: int)
    requires |qs| >= 5 && MarkersOk(m, qs)
    ensures Later(m, q) == None <==> q == Max(qs)
    ensures q != Max(qs) ==> MarkersOk(Later(m, q).value, qs + [q])
  {
    CellIsTotal(m.y, q);
    if q != Max(qs) {
      var k, y := Cell(m.y, q), Extremes(m.y, q);
      ExtremesFollow(m.y, qs, q);
      ShiftKeepsStrict(m.x, k);
      AdjustKeeps(y, Shift(m.x, k), Advance(m.n, m.dn), 1);
    }
  }

  lemma {:induction false} HeightsStored(p: real, qs: seq<int>)
    requires |qs| < 5
    ensures Run(p, qs).Some? && forall i :: 0 <= i < |qs| ==> Run(p, qs).value.y[i] == qs[i]
  {
    if qs != [] {
      HeightsStored(p, qs[..|qs| - 1]);
    }
  }

  lemma FifthStep(p: real, qs: seq<int>)
    requires |qs| == 5
    ensures Run(p, qs).Some? && MarkersOk(Run(p, qs).value, qs)
  {
    var rest := qs[..4];
    HeightsStored(p, rest);
    var m := Run(p, rest).value;
    assert m.y[4 := qs[4]] == qs by { assert forall i :: 0 <= i < 4 ==> rest[i] == qs[i]; }
    FilledIsOk(p, m, qs);
  }

  lemma FilledIsOk(p: real, m: Markers, qs: seq<int>)
    requires Five(m) && m.count == 4 && |qs| == 5 && m.y[4 := qs[4]] == qs
    requires forall i :: 0 <= i < 4 ==> m.x[i] == i + 1
    ensures MarkersOk(Fill(p, m, qs[4]), qs)
  {
    SortSorts(qs);
    EndsAreExtremes(qs, Sort(qs));
  }

  lemma EndsAreExtremes(s: seq<int>, t: seq<int>)
    requires s != [] && Ascending(t) && multiset(t) == multiset(s) && |t| == |s|
    ensures t[0] == Min(s) && t[|t| - 1] == Max(s)
  {
    assert Min(s) in multiset(t) && Max(s) in multiset(t) && t[0] in multiset(s) && t[|t| - 1] in multiset(s);
    var i :| 0 <= i < |t| && t[i] == Min(s);
    var j :| 0 <= j < |t| && t[j] == Max(s);
    AscendingPairs(t, 0, i);
    AscendingPairs(t, j, |t| - 1);
    assert t[0] in s && t[|t| - 1] in s;
  }

  /** No sample after the fifth equals the largest one before it. */
  predicate NoMaximumRepeated(qs: seq<int>) {
    |qs| > 5 ==> NoMaximumRepeated(qs[..|qs| - 1]) && qs[|qs| - 1] != Max(qs[..|qs| - 1])
  }

  /**
   The estimator goes through all samples exactly when none after the fifth repeats the largest one before it; then its
   markers are strictly ordered between the first and the last sample, and its heights between minimum and maximum.
   */
  lemma {:induction false} RunKeepsMarkers(p: real, qs: seq<int>)
    ensures Run(p, qs).Some? <==> NoMaximumRepeated(qs)
    ensures |qs| >= 5 && Run(p, qs).Some? ==> MarkersOk(Run(p, qs).value, qs)
  {
    var n := |qs| - 1;
    if |qs| < 5 {
      HeightsStored(p, qs);
    } else if |qs| == 5 {
      FifthStep(p, qs);
    } else {
      var rest := qs[..n];
      RunKeepsMarkers(p, rest);
      assert qs == rest + [qs[n]];
      if Run(p, rest).Some? {
        LaterStep(Run(p, rest).value, rest, qs[n]);
      }
    }
  }

  /** The estimate lies between the smallest and the largest sample. */
  lemma EstimateWithinSamples(p: real, qs: seq<int>)
    requires |qs| >= 5 && NoMaximumRepeated(qs)
    ensures Run(p, qs).Some? && Min(qs) <= Run(p, qs).value.y[2] <= Max(qs)
  {
    RunKeepsMarkers(p, qs);
    var y := Run(p, qs).value.y;
    AscendingPairs(y, 0, 2);
    AscendingPairs(y, 2, 4);
  }

  /** Six equal samples already stop the program. */
  lemma EqualSamplesStop(p: real, q: int)
    ensures Run(p, [q, q, q, q, q, q]) == None
  {
    var qs := [q, q, q, q, q, q];
    assert Max(qs[..5]) == q by { assert Max(qs[..5]) in qs[..5]; }
    RunKeepsMarkers(p, qs);
  }
}
