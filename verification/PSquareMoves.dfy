/**
 How the markers of the estimator move: the positions they are meant to have for a percentile p, and the heights they take on
 the way, said without the formulas of the program.
 */
module PSquareMoves {
  import opened Common
  import opened PSquare

  // ---- the desired positions ----

  /** The share of the samples that is meant to lie below marker i. */
  function Share(p: real, i: int): real
    requires 0 <= i < 5
  {
    if i == 0 then 0.0 else if i == 1 then p / 2.0 else if i == 2 then p else if i == 3 then (1.0 + p) / 2.0 else 1.0
  }

  /** Marker i is meant to be at the given share of the way from the first of n samples to the last. */
  ghost predicate MeantFor(p: real, m: Markers, n: int)
    requires Five(m)
  {
    forall i :: 0 <= i < 5 ==> m.n[i] == 1.0 + (n - 1) as real * Share(p, i) && m.dn[i] == Share(p, i)
  }

  lemma OneMoreShare(n: int, r: real)
    ensures 1.0 + (n - 1) as real * r + r == 1.0 + n as real * r
  {
    assert n as real == (n - 1) as real + 1.0;
  }

  lemma AdvanceMeant(p: real, m: Markers, n: int, t: Markers)
    requires Five(m) && Five(t) && MeantFor(p, m, n) && t.n == Advance(m.n, m.dn) && t.dn == m.dn
    ensures MeantFor(p, t, n + 1)
  {
    forall i | 0 <= i < 5 ensures t.n[i] == 1.0 + n as real * Share(p, i) && t.dn[i] == Share(p, i) {
      OneMoreShare(n, Share(p, i));
    }
  }

  lemma FirstMeant(p: real, m: Markers)
    requires Five(m) && m.n == Desired(p) && m.dn == Increments(p)
    ensures MeantFor(p, m, 5)
  {
    assert m.n[0] == 1.0 + 4.0 * Share(p, 0);
    assert m.n[1] == 1.0 + 4.0 * Share(p, 1);
    assert m.n[2] == 1.0 + 4.0 * Share(p, 2);
    assert m.n[3] == 1.0 + 4.0 * Share(p, 3);
    assert m.n[4] == 1.0 + 4.0 * Share(p, 4);
  }

  lemma {:induction false} FillingDesired(p: real, qs: seq<int>)
    requires 0 < |qs| <= 5 && Run(p, qs).Some?
    ensures Run(p, qs).value.n == Desired(p) && Run(p, qs).value.dn == Increments(p)
  {
    if |qs| > 1 { FillingDesired(p, qs[..|qs| - 1]); }
  }

  /**
   After five samples or more, marker i is meant to be at its share of the way from the first to the last of them: none, p / 2, p,
   (1 + p) / 2 or all of it.
   */
  lemma {:induction false} DesiredPositions(p: real, qs: seq<int>)
    requires |qs| >= 5 && Run(p, qs).Some?
    ensures MeantFor(p, Run(p, qs).value, |qs|)
  {
    if |qs| == 5 {
      FillingDesired(p, qs);
      FirstMeant(p, Run(p, qs).value);
    } else {
      var rest := qs[..|qs| - 1];
      DesiredPositions(p, rest);
      AdvanceMeant(p, Run(p, rest).value, |rest|, Run(p, qs).value);
    }
  }

  /** The fifth sample leaves the samples in order. */
  lemma FifthHeights(p: real, qs: seq<int>)
    requires |qs| == 5
    ensures Run(p, qs).Some?
    ensures var m := Run(p, qs).value; Ascending(m.y) && multiset(m.y) == multiset(qs) && m.x == [1, 2, 3, 4, 5]
  {
    var rest := qs[..4];
    HeightsStored(p, rest);
    var m := Run(p, rest).value;
    assert m.y[4 := qs[4]] == qs by { assert forall i :: 0 <= i < 4 ==> rest[i] == qs[i]; }
    SortSorts(qs);
    assert m.x[4 := 5] == [1, 2, 3, 4, 5] by { assert forall i :: 0 <= i < 4 ==> m.x[i] == i + 1; }
  }

  // ---- the heights ----

  /** The whole number next to r on the side of zero. */
  predicate Truncates(r: real, v: int) {
    if r >= 0.0 then v as real <= r < v as real + 1.0 else v as real - 1.0 < r <= v as real
  }

  lemma TruncTruncates(r: real)
    ensures Truncates(r, Trunc(r)) && forall v :: Truncates(r, v) ==> v == Trunc(r)
  {
  }

  /** A polynomial of degree two at t. */
  function Quadratic(a: real, b: real, c: real, t: real): real {
    a * (t * t) + b * t + c
  }

  /** Through the points of marker i and its two neighbours. */
  predicate Through(y: seq<int>, x: seq<int>, i: int, a: real, b: real, c: real)
    requires |y| == 5 == |x| && 1 <= i <= 3
  {
    && Quadratic(a, b, c, x[i - 1] as real) == y[i - 1] as real
    && Quadratic(a, b, c, x[i] as real) == y[i] as real
    && Quadratic(a, b, c, x[i + 1] as real) == y[i + 1] as real
  }

  /** The slope between two points of a polynomial. */
  lemma Slope(a: real, b: real, c: real, s: real, t: real)
    requires s != t
    ensures (Quadratic(a, b, c, t) - Quadratic(a, b, c, s)) == (t - s) * (a * (t + s) + b)
  {
    assert (t - s) * (a * (t + s) + b) == a * ((t - s) * (t + s)) + b * (t - s);
    assert (t - s) * (t + s) == t * t - s * s;
  }

  lemma Divides(w: real, d: real, q: real)
    requires d != 0.0 && w == d * q
    ensures w / d == q
  {
    var r := w / d;
    assert r * d == w;
    assert (r - q) * d == 0.0;
  }

  /** The formula of the program, in terms of slopes s and t between the points. */
  lemma Prediction(l: real, m: real, r: real, e: real, a: real, b: real, f: real, g: real, s: real, t: real, sum: real)
    requires l < m < r && f == m - l + e && g == r - m - e && s == a * (r + m) + b && t == a * (m + l) + b && sum == f * s + g * t
    ensures Portion(e, r - l, sum) == e * (a * (m + m + e) + b)
  {
    SumOfSlopes(l, m, r, e, a, b);
    var k, u := e / (r - l), a * (m + m + e) + b;
    assert sum == (r - l) * u;
    assert k * (r - l) == e;
    assert k * ((r - l) * u) == (k * (r - l)) * u;
  }

  lemma SumOfSlopes(l: real, m: real, r: real, e: real, a: real, b: real)
    ensures (m - l + e) * (a * (r + m) + b) + (r - m - e) * (a * (m + l) + b) == (r - l) * (a * (m + m + e) + b)
  {
    assert (m - l + e) * (a * (r + m) + b) == a * ((m - l + e) * (r + m)) + b * (m - l + e);
    assert (r - m - e) * (a * (m + l) + b) == a * ((r - m - e) * (m + l)) + b * (r - m - e);
    assert (r - l) * (a * (m + m + e) + b) == a * ((r - l) * (m + m + e)) + b * (r - l);
    SumOfProducts(l, m, r, e);
  }

  lemma SumOfProducts(l: real, m: real, r: real, e: real)
    ensures (m - l + e) * (r + m) + (r - m - e) * (m + l) == (r - l) * (m + m + e)
  {
  }

  /** One step from the middle point. */
  lemma StepFrom(a: real, b: real, c: real, m: real, e: real)
    ensures Quadratic(a, b, c, m) + e * (a * (m + m + e) + b) == Quadratic(a, b, c, m + e)
  {
    assert (m + e) * (m + e) == m * m + e * (m + m + e);
    assert a * (m * m + e * (m + m + e)) == a * (m * m) + a * (e * (m + m + e));
    assert e * (a * (m + m + e) + b) == a * (e * (m + m + e)) + b * e;
  }

  lemma PredictionIs(l: real, m: real, r: real, u: real, v: real, w: real, e: real, a: real, b: real, c: real)
    requires l < m < r && Quadratic(a, b, c, l) == u && Quadratic(a, b, c, m) == v && Quadratic(a, b, c, r) == w
    ensures Predicted(l, m, r, u, v, w, e) == Quadratic(a, b, c, m + e)
  {
    var s, t, f, g := a * (r + m) + b, a * (m + l) + b, m - l + e, r - m - e;
    Slope(a, b, c, m, r);
    Slope(a, b, c, l, m);
    ScaledSlope(f, w - v, r - m, s);
    ScaledSlope(g, v - u, m - l, t);
    Prediction(l, m, r, e, a, b, f, g, s, t, f * s + g * t);
    StepFrom(a, b, c, m, e);
    PredictedFrom(l, m, r, u, v, w, e, f * s, g * t, f * s + g * t);
  }

  /** The formula in terms of its two parts. */
  lemma PredictedFrom(l: real, m: real, r: real, u: real, v: real, w: real, e: real, one: real, two: real, sum: real)
    requires l < m < r && Part(m - l + e, w - v, r - m) == one && Part(r - m - e, v - u, m - l) == two && sum == one + two
    ensures Predicted(l, m, r, u, v, w, e) == v + Portion(e, r - l, sum)
  {
  }

  /** The parabolic prediction is the polynomial of degree two through the three points, one step on, truncated. */
  lemma ParabolaIsQuadratic(y: seq<int>, x: seq<int>, i: int, d: int, a: real, b: real, c: real)
    requires |y| == 5 == |x| && 1 <= i <= 3 && x[i - 1] < x[i] < x[i + 1] && Through(y, x, i, a, b, c)
    ensures Parabola(y, x, i, d) == Trunc(Quadratic(a, b, c, x[i] as real + d as real))
  {
    PredictionIs(x[i - 1] as real, x[i] as real, x[i + 1] as real, y[i - 1] as real, y[i] as real, y[i + 1] as real,
                 d as real, a, b, c);
  }

  lemma ScaledSlope(f: real, w: real, d: real, q: real)
    requires d != 0.0 && w == d * q
    ensures Part(f, w, d) == f * q
  {
    assert f * w == d * (f * q);
    Divides(f * w, d, f * q);
  }

  /** There is such a polynomial. */
  lemma QuadraticExists(y: seq<int>, x: seq<int>, i: int) returns (a: real, b: real, c: real)
    requires |y| == 5 == |x| && 1 <= i <= 3 && x[i - 1] < x[i] < x[i + 1]
    ensures Through(y, x, i, a, b, c)
  {
    var l, m, r := x[i - 1] as real, x[i] as real, x[i + 1] as real;
    var u, v, w := y[i - 1] as real, y[i] as real, y[i + 1] as real;
    var s, t := (v - u) / (m - l), (w - v) / (r - m);
    a := (t - s) / (r - l);
    b := s - a * (m + l);
    c := u - a * (l * l) - b * l;
    Slope(a, b, c, l, m);
    Slope(a, b, c, m, r);
    assert a * (r - l) == t - s;
    assert a * (r + m) + b == s + a * (r - l);
    assert s * (m - l) == v - u && t * (r - m) == w - v;
  }

  /** The straight line through marker i and its neighbour in direction d, one step on. */
  predicate OnLine(y: seq<int>, x: seq<int>, i: int, d: int, h: real)
    requires |y| == 5 == |x| && 1 <= i <= 3 && (d == 1 || d == -1)
  {
    (h - y[i] as real) * (x[i + d] - x[i]) as real == d as real * (y[i + d] - y[i]) as real
  }

  /** The linear prediction is the line to the neighbour in that direction, one step on, truncated. */
  lemma LineIsStraight(y: seq<int>, x: seq<int>, i: int, d: int, h: real)
    requires |y| == 5 == |x| && 1 <= i <= 3 && (d == 1 || d == -1) && x[i - 1] < x[i] < x[i + 1] && OnLine(y, x, i, d, h)
    ensures Line(y, x, i, d) == Trunc(h)
  {
    var w, q := (x[i + d] - x[i]) as real, (y[i + d] - y[i]) as real;
    assert w * (d as real * (h - y[i] as real)) == q by { SignTwice(d, h - y[i] as real, w, q); }
    Divides(q, w, d as real * (h - y[i] as real));
    assert d as real * (d as real * (h - y[i] as real)) == h - y[i] as real;
  }

  lemma SignTwice(d: int, z: real, w: real, q: real)
    requires (d == 1 || d == -1) && z * w == d as real * q
    ensures w * (d as real * z) == q
  {
  }

  lemma LineExists(y: seq<int>, x: seq<int>, i: int, d: int) returns (h: real)
    requires |y| == 5 == |x| && 1 <= i <= 3 && (d == 1 || d == -1) && x[i - 1] < x[i] < x[i + 1]
    ensures OnLine(y, x, i, d, h)
  {
    var w, q := (x[i + d] - x[i]) as real, d as real * (y[i + d] - y[i]) as real;
    h := y[i] as real + q / w;
    assert q / w * w == q;
  }

  /** A parabola through the three points, and what it comes to one step on, truncated. */
  predicate ParabolaTo(y: seq<int>, x: seq<int>, i: int, d: int, a: real, b: real, c: real, v: int)
    requires |y| == 5 == |x| && 1 <= i <= 3
  {
    Through(y, x, i, a, b, c) && Truncates(Quadratic(a, b, c, x[i] as real + d as real), v)
  }

  /**
   The height h that marker i takes when it moves by d: the truncated parabola through its point and those of its neighbours, if that
   lies between the heights of the neighbours, and otherwise the truncated straight line to the neighbour that it moves to.
   */
  ghost predicate TakesHeight(y: seq<int>, x: seq<int>, i: int, d: int, h: int)
    requires |y| == 5 == |x| && 1 <= i <= 3 && (d == 1 || d == -1)
  {
    exists a, b, c, v :: ParabolaTo(y, x, i, d, a, b, c, v)
                         && if y[i - 1] <= v <= y[i + 1] then h == v else exists s :: OnLine(y, x, i, d, s) && Truncates(s, h)
  }

  lemma HeightIs(y: seq<int>, x: seq<int>, i: int, d: int)
    requires |y| == 5 == |x| && 1 <= i <= 3 && (d == 1 || d == -1) && x[i - 1] < x[i] < x[i + 1]
    ensures TakesHeight(y, x, i, d, Height(y, x, i, d))
  {
    var a, b, c := QuadraticExists(y, x, i);
    var s := LineExists(y, x, i, d);
    ParabolaIsQuadratic(y, x, i, d, a, b, c);
    LineIsStraight(y, x, i, d, s);
    TruncTruncates(Quadratic(a, b, c, x[i] as real + d as real));
    TruncTruncates(s);
    assert ParabolaTo(y, x, i, d, a, b, c, Parabola(y, x, i, d));
  }

  /** And it is the only one. */
  lemma HeightIsOnly(y: seq<int>, x: seq<int>, i: int, d: int, h: int)
    requires |y| == 5 == |x| && 1 <= i <= 3 && (d == 1 || d == -1) && x[i - 1] < x[i] < x[i + 1] && TakesHeight(y, x, i, d, h)
    ensures h == Height(y, x, i, d)
  {
    var a, b, c, v :| ParabolaTo(y, x, i, d, a, b, c, v)
                      && if y[i - 1] <= v <= y[i + 1] then h == v else exists s :: OnLine(y, x, i, d, s) && Truncates(s, h);
    ParabolaIsQuadratic(y, x, i, d, a, b, c);
    TruncTruncates(Quadratic(a, b, c, x[i] as real + d as real));
    if !(y[i - 1] <= v <= y[i + 1]) {
      var s :| OnLine(y, x, i, d, s) && Truncates(s, h);
      LineIsStraight(y, x, i, d, s);
      TruncTruncates(s);
    }
  }

  // ---- one round ----

  /** The direction d of a marker at x that is meant to be at n, between neighbours at l and r: a whole position away, and with room. */
  predicate Moves(l: int, x: int, r: int, n: real, d: int) {
    && (d == 1 <==> n >= (x + 1) as real && x + 1 < r)
    && (d == -1 <==> n <= (x - 1) as real && l < x - 1)
    && (d == 0 || d == 1 || d == -1)
  }

  lemma MoveMoves(x: seq<int>, n: seq<real>, i: int)
    requires |x| == 5 == |n| && 1 <= i <= 3
    ensures Moves(x[i - 1], x[i], x[i + 1], n[i], Move(x, n, i))
  {
  }

  /**
   Marker i in a round that takes heights y and positions x to v and u. The markers before it have moved already.
   */
  ghost predicate Adjusted(y: seq<int>, x: seq<int>, n: seq<real>, v: seq<int>, u: seq<int>, i: int)
    requires |y| == |x| == |n| == |v| == |u| == 5 && 1 <= i <= 3
  {
    var d := u[i] - x[i];
    && Moves(u[i - 1], x[i], x[i + 1], n[i], d)
    && if d == 0 then v[i] == y[i] else (d == 1 || d == -1) && TakesHeight(v[..i] + y[i..], u[..i] + x[i..], i, d, v[i])
  }

  /** Heights and positions after marker i alone. */
  function AdjustOne(y: seq<int>, x: seq<int>, n: seq<real>, i: int): (r: (seq<int>, seq<int>))
    requires |y| == 5 == |x| == |n| && 1 <= i <= 3 && Strict(x)
    ensures |r.0| == 5 == |r.1| && Strict(r.1)
  {
    MoveKeepsStrict(x, n, i);
    var d := Move(x, n, i);
    if d == 0 then (y, x) else (y[i := Height(y, x, i, d)], x[i := x[i] + d])
  }

  /** One marker of the round, in the lists that hold what the round has done so far. */
  lemma AdjustOneIs(y: seq<int>, x: seq<int>, n: seq<real>, i: int)
    requires |y| == 5 == |x| == |n| && 1 <= i <= 3 && Strict(x)
    ensures var (v, u) := AdjustOne(y, x, n, i);
            && (forall j :: 0 <= j < 5 && j != i ==> v[j] == y[j] && u[j] == x[j])
            && Moves(x[i - 1], x[i], x[i + 1], n[i], u[i] - x[i])
            && if u[i] == x[i] then v[i] == y[i] else TakesHeight(y, x, i, u[i] - x[i], v[i])
  {
    MoveMoves(x, n, i);
    MoveKeepsStrict(x, n, i);
    if Move(x, n, i) != 0 { HeightIs(y, x, i, Move(x, n, i)); }
  }

  lemma AdjustUnfolds(y: seq<int>, x: seq<int>, n: seq<real>, i: int)
    requires |y| == 5 == |x| == |n| && 1 <= i <= 3 && Strict(x)
    ensures var (v, u) := AdjustOne(y, x, n, i); Adjust(y, x, n, i) == Adjust(v, u, n, i + 1)
  {
  }

  lemma AdjustedFrom(y: seq<int>, x: seq<int>, n: seq<real>, i: int, w: seq<int>, z: seq<int>, v: seq<int>, u: seq<int>)
    requires |y| == 5 == |x| == |n| == |v| == |u| == |w| == |z| && 1 <= i <= 3 && Strict(z)
    requires Halfway(y, x, v, u, i, w, z)
    requires var (w', z') := AdjustOne(w, z, n, i); w'[i] == v[i] && z'[i] == u[i]
    ensures Adjusted(y, x, n, v, u, i)
  {
    AdjustOneIs(w, z, n, i);
    assert w[i] == y[i] && z[i] == x[i] && z[i - 1] == u[i - 1] && z[i + 1] == x[i + 1];
  }

  /** The lists of a round, when its first markers have moved. */
  predicate Halfway(y: seq<int>, x: seq<int>, v: seq<int>, u: seq<int>, i: int, w: seq<int>, z: seq<int>)
    requires |y| == |x| == |v| == |u| == 5 && 1 <= i <= 3
  {
    w == v[..i] + y[i..] && z == u[..i] + x[i..]
  }

  lemma HalfwayAt(y: seq<int>, x: seq<int>, v: seq<int>, u: seq<int>, i: int, w: seq<int>, z: seq<int>)
    requires |y| == |x| == |v| == |u| == |w| == |z| == 5 && 1 <= i <= 3
    requires forall j :: 0 <= j < i ==> w[j] == v[j] && z[j] == u[j]
    requires forall j :: i <= j < 5 ==> w[j] == y[j] && z[j] == x[j]
    ensures Halfway(y, x, v, u, i, w, z)
  {
  }

  /** A round over the three inner markers. */
  lemma RoundIs(y: seq<int>, x: seq<int>, n: seq<real>)
    requires |y| == 5 == |x| == |n| && Strict(x)
    ensures var (v, u) := Adjust(y, x, n, 1);
            && v[0] == y[0] && v[4] == y[4] && u[0] == x[0] && u[4] == x[4]
            && Adjusted(y, x, n, v, u, 1) && Adjusted(y, x, n, v, u, 2) && Adjusted(y, x, n, v, u, 3)
  {
    var (y1, x1) := AdjustOne(y, x, n, 1);
    var (y2, x2) := AdjustOne(y1, x1, n, 2);
    var (y3, x3) := AdjustOne(y2, x2, n, 3);
    AdjustUnfolds(y, x, n, 1);
    AdjustUnfolds(y1, x1, n, 2);
    AdjustUnfolds(y2, x2, n, 3);
    RoundOf(y, x, n, y1, x1, y2, x2, y3, x3);
  }

  lemma RoundOf(y: seq<int>, x: seq<int>, n: seq<real>, y1: seq<int>, x1: seq<int>, y2: seq<int>, x2: seq<int>, v: seq<int>, u: seq<int>)
    requires |y| == |x| == |n| == |y1| == |x1| == |y2| == |x2| == |v| == |u| == 5 && Strict(x) && Strict(x1) && Strict(x2)
    requires (y1, x1) == AdjustOne(y, x, n, 1) && (y2, x2) == AdjustOne(y1, x1, n, 2) && (v, u) == AdjustOne(y2, x2, n, 3)
    ensures v[0] == y[0] && v[4] == y[4] && u[0] == x[0] && u[4] == x[4]
    ensures Adjusted(y, x, n, v, u, 1) && Adjusted(y, x, n, v, u, 2) && Adjusted(y, x, n, v, u, 3)
  {
    AdjustOneIs(y, x, n, 1);
    AdjustOneIs(y1, x1, n, 2);
    AdjustOneIs(y2, x2, n, 3);
    HalfwayAt(y, x, v, u, 1, y, x);
    HalfwayAt(y, x, v, u, 2, y1, x1);
    HalfwayAt(y, x, v, u, 3, y2, x2);
    AdjustedFrom(y, x, n, 1, y, x, v, u);
    AdjustedFrom(y, x, n, 2, y1, x1, v, u);
    AdjustedFrom(y, x, n, 3, y2, x2, v, u);
  }

  // ---- one sample ----

  /** A sample moves on every marker but the first whose height lies above it, and the last one in any case. */
  predicate Counted(y: seq<int>, x: seq<int>, q: int, t: seq<int>)
    requires |y| == 5 == |x| == |t|
  {
    t[0] == x[0] && t[4] == x[4] + 1 && forall i :: 1 <= i <= 3 ==> t[i] == x[i] + if q < y[i] then 1 else 0
  }

  /** The outer heights follow the smallest and the largest sample. */
  predicate Extended(y: seq<int>, q: int, e: seq<int>)
    requires |y| == 5 == |e|
  {
    e[0] == (if q < y[0] then q else y[0]) && e[4] == (if q > y[4] then q else y[4]) && forall i :: 1 <= i <= 3 ==> e[i] == y[i]
  }

  lemma PlaceIs(y: seq<int>, x: seq<int>, q: int)
    requires |y| == 5 == |x| && Ascending(y) && q != y[4]
    ensures Counted(y, x, q, Shift(x, Cell(y, q))) && Extended(y, q, Extremes(y, q))
  {
    assert y[0] <= y[1] <= y[2] <= y[3] <= y[4];
  }

  /**
   What a sample makes of the markers m: it is counted at the markers above it, which takes the positions to t, it extends the
   outer heights, which takes them to e, the desired positions move on by their shares, and then the inner markers follow, one
   after the other.
   */
  ghost predicate Follows(m: Markers, q: int, e: seq<int>, t: seq<int>, r: Markers)
    requires Five(m)
  {
    && Five(r) && |e| == 5 == |t| && Extended(m.y, q, e) && Counted(m.y, m.x, q, t)
    && (forall i :: 0 <= i < 5 ==> r.n[i] == m.n[i] + m.dn[i])
    && r.y[0] == e[0] && r.y[4] == e[4] && r.x[0] == t[0] && r.x[4] == t[4]
    && Adjusted(e, t, r.n, r.y, r.x, 1) && Adjusted(e, t, r.n, r.y, r.x, 2) && Adjusted(e, t, r.n, r.y, r.x, 3)
  }

  /** A sample after the fifth that does not equal the largest height. */
  lemma SampleMoves(m: Markers, q: int) returns (e: seq<int>, t: seq<int>)
    requires Five(m) && Ascending(m.y) && Strict(m.x) && q != m.y[4]
    ensures Later(m, q).Some? && Follows(m, q, e, t, Later(m, q).value)
  {
    CellIsTotal(m.y, q);
    PlaceIs(m.y, m.x, q);
    e, t := Extremes(m.y, q), Shift(m.x, Cell(m.y, q));
    ShiftKeepsStrict(m.x, Cell(m.y, q));
    RoundIs(e, t, Advance(m.n, m.dn));
  }

  lemma RunStep(p: real, qs: seq<int>, q: int, more: seq<int>)
    requires |qs| >= 5 && more == qs + [q] && Run(p, qs).Some?
    ensures Run(p, more) == Later(Run(p, qs).value, q)
  {
    assert more[..|qs|] == qs;
  }

  lemma MaximumIsLast(qs: seq<int>, q: int, more: seq<int>)
    requires |qs| >= 5 && more == qs + [q] && NoMaximumRepeated(more)
    ensures NoMaximumRepeated(qs) && q != Max(qs)
  {
    assert more[..|qs|] == qs;
  }

  /**
   A run of the estimator for percentile p, sample by sample: whenever it goes on, the markers follow the sample, towards the
   positions that they are meant to have; the estimate is the height of the middle one.
   */
  lemma RunMoves(p: real, qs: seq<int>, q: int, more: seq<int>) returns (e: seq<int>, t: seq<int>)
    requires |qs| >= 5 && more == qs + [q] && NoMaximumRepeated(more)
    ensures Run(p, qs).Some? && Run(p, more).Some? && MeantFor(p, Run(p, more).value, |more|)
    ensures Follows(Run(p, qs).value, q, e, t, Run(p, more).value)
  {
    MaximumIsLast(qs, q, more);
    RunKeepsMarkers(p, qs);
    RunStep(p, qs, q, more);
    e, t := SampleMoves(Run(p, qs).value, q);
    DesiredPositions(p, more);
  }
}
