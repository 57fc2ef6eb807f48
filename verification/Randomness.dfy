/**
 The randomness test on the first payload nibbles of a flow: sixteen histograms of sixteen values, one for each nibble
 position, and the chi-square statistic of each, in exact arithmetic.
 */
module Randomness {
  import opened Statistics

  const N_BLOCK := 16
  const N_RANDOM_BIT := 4
  const N_VALUES := 16

  function Power(j: nat): (p: nat)
    ensures p > 0
  {
    if j == 0 then 1 else N_VALUES * Power(j - 1)
  }

  /** Nibble i of the words from the start of the payload on, least significant first. */
  function Nibble(words: seq<nat>, i: nat): (v: nat)
    requires i / 8 < |words|
    ensures v < N_VALUES
  {
    words[i / 8] / Power(i % 8) % N_VALUES
  }

  /** The first n nibbles from number i on, the first one the least significant. */
  function Joined(words: seq<nat>, i: nat, n: nat): nat
    requires n > 0 ==> (i + n - 1) / 8 < |words|
    decreases n
  {
    if n == 0 then 0 else Nibble(words, i) + N_VALUES * Joined(words, i + 1, n - 1)
  }

  lemma NextDigit(w: nat, p: nat)
    requires p > 0
    ensures w / p == w / p % N_VALUES + N_VALUES * (w / (N_VALUES * p))
  {
    DivideTwice(w, p);
  }

  lemma DivideTwice(w: nat, p: nat)
    requires p > 0
    ensures w / p / N_VALUES == w / (N_VALUES * p)
  {
    var q := w / p;
    var r, u, v := w % p, q / N_VALUES, q % N_VALUES;
    assert w == p * q + r && q == N_VALUES * u + v;
    assert w == (N_VALUES * p) * u + (p * v + r) by { assert p * (N_VALUES * u + v) == (N_VALUES * p) * u + p * v; }
    assert p * v + r < N_VALUES * p by { SmallerProduct(p, v, N_VALUES - 1); }
    assert p * v >= 0;
    QuotientOf(w, N_VALUES * p, u, p * v + r);
  }

  lemma SmallerProduct(p: nat, v: nat, m: nat)
    requires v <= m
    ensures p * v <= p * m
  {
    assert p * (m - v) >= 0;
  }

  lemma QuotientOf(a: nat, b: nat, q: nat, r: nat)
    requires b > 0 && a == b * q + r && r < b
    ensures a / b == q
  {
    var d := a / b;
    assert a == b * d + a % b;
    assert b * (d - q) == b * d - b * q;
    if d > q { SmallerProduct(b, 1, d - q); } else if d < q { SmallerProduct(b, 1, q - d); }
  }

  lemma WordOf(k: nat, j: nat)
    requires j < 8
    ensures (8 * k + j) / 8 == k && (8 * k + j) % 8 == j
  {
  }

  lemma NibbleAt(words: seq<nat>, k: nat, j: nat, i: nat)
    requires k < |words| && j < 8 && i == 8 * k + j
    ensures i / 8 == k && Nibble(words, i) == words[k] / Power(j) % N_VALUES
  {
    WordOf(k, j);
  }

  /** One nibble more, from the digits above it. */
  lemma JoinedMore(words: seq<nat>, k: nat, j: nat, i: nat, n: nat, above: nat)
    requires k < |words| && j < 8 && i == 8 * k + j && n > 0 && (i + n - 1) / 8 < |words|
    requires Joined(words, i + 1, n - 1) == above == words[k] / Power(j + 1)
    ensures Joined(words, i, n) == words[k] / Power(j)
  {
    NibbleAt(words, k, j, i);
    NextDigit(words[k], Power(j));
    assert Power(j + 1) == N_VALUES * Power(j);
  }

  lemma SmallQuotient(w: nat, p: nat)
    requires w < p
    ensures w / p == 0
  {
  }

  /** The nibbles of word k from number i on; the last one of the word is number last. */
  lemma {:induction false} JoinedIs(words: seq<nat>, k: nat, j: nat, i: nat, n: nat, last: nat)
    requires k < |words| && j < 8 && words[k] < Power(8) && i == 8 * k + j && n == 8 - j && last == i + n - 1 && last / 8 == k
    ensures Joined(words, i, n) == words[k] / Power(j)
    decreases n
  {
    if j < 7 {
      JoinedIs(words, k, j + 1, i + 1, n - 1, last);
    } else {
      SmallQuotient(words[k], Power(8));
    }
    JoinedMore(words, k, j, i, n, words[k] / Power(j + 1));
  }

  lemma PowerEight()
    ensures Power(8) == 0x1_0000_0000
  {
    assert Power(2) == 256 && Power(4) == N_VALUES * (N_VALUES * Power(2));
    assert Power(6) == N_VALUES * (N_VALUES * Power(4)) && Power(8) == N_VALUES * (N_VALUES * Power(6));
  }

  /** The eight nibbles of a word, from the first one on, are its digits to base 16, least significant first. */
  lemma NibblesAreDigits(words: seq<nat>, k: nat)
    requires k < |words| && words[k] < 0x1_0000_0000
    ensures (8 * k + 7) / 8 < |words| && Joined(words, 8 * k, 8) == words[k]
  {
    PowerEight();
    WordOf(k, 7);
    JoinedIs(words, k, 0, 8 * k, 8, 8 * k + 7);
  }

  /** The words read, the length of the payload, and the number of bytes from its start to the last one captured. */
  datatype Packet = Packet(words: seq<nat>, payloadLen: int, captured: int) {
    /** valid_blocks: how many nibbles of the payload were captured. */
    function ValidBlocks(): int {
      (if payloadLen > captured then captured else payloadLen) * 8 / N_RANDOM_BIT
    }
  }

  predicate Readable(p: Packet) {
    |p.words| == 2
  }

  /** The value counted for position i: the test lets one nibble beyond the valid ones pass. */
  function Value(p: Packet, i: nat): (v: nat)
    requires Readable(p) && i < N_BLOCK
    ensures v < N_VALUES
  {
    if i <= p.ValidBlocks() then Nibble(p.words, i) else 0
  }

  /** cols[i][v] counts the packets with value v at position i. */
  datatype Random = Random(cols: seq<seq<nat>>, n: nat)

  predicate Shaped(r: Random) {
    |r.cols| == N_BLOCK && forall i :: 0 <= i < N_BLOCK ==> |r.cols[i]| == N_VALUES
  }

  function Fresh(): (r: Random)
    ensures Shaped(r)
  {
    Random(seq(N_BLOCK, _ => seq(N_VALUES, _ => 0)), 0)
  }

  function Bump(col: seq<nat>, v: nat): seq<nat>
    requires v < |col|
  {
    col[v := col[v] + 1]
  }

  /** update_randomness */
  function Update(r: Random, p: Packet): (t: Random)
    requires Shaped(r) && Readable(p)
    ensures Shaped(t)
  {
    Random(seq(N_BLOCK, i requires 0 <= i < N_BLOCK => Bump(r.cols[i], Value(p, i))), r.n + 1)
  }

  predicate AllReadable(ps: seq<Packet>) {
    forall k :: 0 <= k < |ps| ==> Readable(ps[k])
  }

  function Run(ps: seq<Packet>): (r: Random)
    requires AllReadable(ps)
    ensures Shaped(r) && r.n == |ps|
  {
    if ps == [] then Fresh() else Update(Run(ps[..|ps| - 1]), ps[|ps| - 1])
  }

  // ---- what the columns count ----

  /** How many packets have value v at position i. */
  function Count(ps: seq<Packet>, i: nat, v: nat): nat
    requires AllReadable(ps) && i < N_BLOCK
  {
    if ps == [] then 0 else Count(ps[..|ps| - 1], i, v) + if Value(ps[|ps| - 1], i) == v then 1 else 0
  }

  lemma {:induction false} ColumnsCount(ps: seq<Packet>, i: nat, v: nat)
    requires AllReadable(ps) && i < N_BLOCK && v < N_VALUES
    ensures Run(ps).cols[i][v] == Count(ps, i, v)
  {
    if ps != [] {
      ColumnsCount(ps[..|ps| - 1], i, v);
    }
  }

  lemma {:induction false} BumpAddsOne(col: seq<nat>, v: nat)
    requires v < |col|
    ensures Sum(Bump(col, v)) == Sum(col) + 1
  {
    if v > 0 {
      BumpAddsOne(col[1..], v - 1);
      assert Bump(col, v)[1..] == Bump(col[1..], v - 1);
    }
  }

  lemma {:induction false} ZerosSumToZero(k: nat)
    ensures Sum(seq(k, _ => 0)) == 0
  {
    if k > 0 {
      ZerosSumToZero(k - 1);
      assert seq(k, _ => 0)[1..] == seq(k - 1, _ => 0);
    }
  }

  /** Every column sums to the number of packets. */
  lemma {:induction false} ColumnsSum(ps: seq<Packet>, i: nat)
    requires AllReadable(ps) && i < N_BLOCK
    ensures Sum(Run(ps).cols[i]) == |ps|
  {
    if ps == [] {
      ZerosSumToZero(N_VALUES);
    } else {
      ColumnsSum(ps[..|ps| - 1], i);
      BumpAddsOne(Run(ps[..|ps| - 1]).cols[i], Value(ps[|ps| - 1], i));
    }
  }

  // ---- the chi-square statistic ----

  function Expectation(n: nat): real {
    n as real / N_VALUES as real
  }

  /** The loops of print_skype_conn_stats_TCP for one column. */
  function ChiSquare(col: seq<nat>, n: nat): real
    requires n > 0
  {
    Distances(col, Expectation(n)) / Expectation(n)
  }

  /** The statistic is 16 times the sum of squares over n, less n. */
  lemma ChiSquareIs(col: seq<nat>, n: nat)
    requires n > 0 && |col| == N_VALUES && Sum(col) == n
    ensures ChiSquare(col, n) * n as real == (16 * SumOfSquares(col) - n * n) as real
  {
    var e, r, q := Expectation(n), n as real, SumOfSquares(col) as real;
    DistancesExpand(col, e);
    assert 16.0 * e == r;
    var d := Distances(col, e);
    assert d == q - 2.0 * e * r + 16.0 * e * e;
    assert 16.0 * e * e == r * e;
    assert d == q - e * r;
    assert ChiSquare(col, n) * e == d;
    assert ChiSquare(col, n) * r == 16.0 * d;
    assert 16.0 * (e * r) == r * r;
    assert r * r == (n * n) as real;
  }

  predicate AllEqual(xs: seq<int>) {
    forall i :: 0 <= i < |xs| ==> xs[i] == xs[0]
  }

  lemma {:induction false} EqualSums(xs: seq<int>, c: int)
    requires forall i :: 0 <= i < |xs| ==> xs[i] == c
    ensures Sum(xs) == |xs| * c && SumOfSquares(xs) == |xs| * (c * c)
  {
    if xs != [] {
      EqualSums(xs[1..], c);
    }
  }

  /** A gap between the sum of squares and the square of the sum is not closed by one more value. */
  lemma GapStays(x: int, s: int, q: int, m: int)
    requires m > 0 && m * q > s * s
    ensures (m + 1) * (x * x + q) > (x + s) * (x + s)
  {
    StepGap(x, s, q, m);
    SquarePositive(s - m * x);
    var gap := (m + 1) * (x * x + q) - (x + s) * (x + s);
    assert (m + 1) * (m * q - s * s) > 0 by { PositiveProduct(m + 1, m * q - s * s); }
    PositiveGap(m, gap);
  }

  /** One more value than m equal ones, different from them, opens a gap. */
  lemma GapOpens(x: int, c: int, m: int)
    requires m > 0 && c != x
    ensures (m + 1) * (x * x + m * (c * c)) > (x + m * c) * (x + m * c)
  {
    SquarePositive(x - c);
    PositiveProduct(m, (x - c) * (x - c));
    ExpandGap(x, c, m);
  }

  lemma ExpandGap(x: int, c: int, m: int)
    ensures (m + 1) * (x * x + m * (c * c)) - (x + m * c) * (x + m * c) == m * ((x - c) * (x - c))
  {
    assert (x - c) * (x - c) == x * x - 2 * (x * c) + c * c;
    assert (x + m * c) * (x + m * c) == x * x + 2 * (m * (x * c)) + m * (m * (c * c));
  }

  lemma PositiveProduct(a: int, b: int)
    requires a > 0 && b > 0
    ensures a * b > 0
  {
  }

  lemma PositiveGap(m: int, gap: int)
    requires m > 0 && m * gap > 0
    ensures gap > 0
  {
  }

  /** Values that are not all equal: the sum of squares is strictly larger. */
  lemma {:induction false} UnequalSquares(xs: seq<int>)
    requires !AllEqual(xs)
    ensures |xs| * SumOfSquares(xs) > Sum(xs) * Sum(xs)
  {
    var x, rest := xs[0], xs[1..];
    if AllEqual(rest) {
      var i :| 0 <= i < |xs| && xs[i] != x;
      assert xs[i] == rest[i - 1] == rest[0];
      EqualSums(rest, rest[0]);
      GapOpens(x, rest[0], |rest|);
    } else {
      UnequalSquares(rest);
      GapStays(x, Sum(rest), SumOfSquares(rest), |rest|);
    }
  }

  /** Equality in the inequality between the sum of squares and the square of the sum. */
  lemma SquaresLeast(xs: seq<int>)
    ensures |xs| * SumOfSquares(xs) == Sum(xs) * Sum(xs) <==> AllEqual(xs)
  {
    if !AllEqual(xs) {
      UnequalSquares(xs);
    } else if xs != [] {
      EqualSums(xs, xs[0]);
      SquareOfProduct(|xs|, xs[0]);
    }
  }

  lemma SquareOfProduct(n: int, c: int)
    ensures n * (n * (c * c)) == (n * c) * (n * c)
  {
  }

  /** How far the inequality is from equality after one more value: m times the gap is the old gap times m + 1, plus a square. */
  lemma StepGap(x: int, s: int, q: int, m: int)
    requires m >= 0
    ensures m * ((m + 1) * (x * x + q) - (x + s) * (x + s)) == (m + 1) * (m * q - s * s) + (s - m * x) * (s - m * x)
  {
  }

  predicate NonNegative(xs: seq<int>) {
    forall i :: 0 <= i < |xs| ==> xs[i] >= 0
  }

  /** One entry holds the whole sum. */
  ghost predicate OneHasAll(xs: seq<int>) {
    exists i :: 0 <= i < |xs| && xs[i] == Sum(xs)
  }

  lemma {:induction false} SumNonNegative(xs: seq<int>)
    requires NonNegative(xs)
    ensures Sum(xs) >= 0 && forall i :: 0 <= i < |xs| ==> xs[i] <= Sum(xs)
    ensures Sum(xs) == 0 ==> SumOfSquares(xs) == 0
  {
    if xs != [] {
      var rest := xs[1..];
      SumNonNegative(rest);
      assert forall i :: 0 < i < |xs| ==> xs[i] == rest[i - 1];
    }
  }

  lemma {:induction false} EntryBounds(xs: seq<int>, i: nat)
    requires NonNegative(xs) && i < |xs|
    ensures SumOfSquares(xs) >= xs[i] * xs[i]
  {
    SumsOfSamples(xs[1..]);
    SquarePositive(xs[0]);
    if i > 0 {
      EntryBounds(xs[1..], i - 1);
    }
  }

  /** The sum of squares is at most the square of the sum, with equality when one entry holds everything. */
  lemma {:induction false} SquaresMost(xs: seq<int>)
    requires NonNegative(xs) && xs != []
    ensures SumOfSquares(xs) <= Sum(xs) * Sum(xs)
    ensures SumOfSquares(xs) == Sum(xs) * Sum(xs) <==> OneHasAll(xs)
  {
    var x, rest := xs[0], xs[1..];
    var s, q := Sum(rest), SumOfSquares(rest);
    SumNonNegative(rest);
    assert (x + s) * (x + s) == x * x + 2 * (x * s) + s * s;
    assert x * s >= 0;
    if rest == [] {
      assert xs[0] == Sum(xs);
    } else {
      SquaresMost(rest);
      if OneHasAll(xs) {
        var i :| 0 <= i < |xs| && xs[i] == Sum(xs);
        EntryBounds(xs, i);
      }
      if q + x * x == (x + s) * (x + s) {
        assert x * s == 0 && q == s * s;
        if s == 0 {
          assert xs[0] == Sum(xs);
        } else {
          assert x == 0;
          var j :| 0 <= j < |rest| && rest[j] == s;
          assert xs[j + 1] == Sum(xs);
        }
      }
    }
  }

  lemma QuotientBounds(y: real, n: nat, k: int)
    requires n > 0 && y * n as real == k as real && 0 <= k <= 15 * (n * n)
    ensures 0.0 <= y <= 15.0 * n as real
    ensures y == 0.0 <==> k == 0
    ensures y == 15.0 * n as real <==> k == 15 * (n * n)
  {
    var r := n as real;
    var top := 15.0 * r;
    assert top * r == (15 * (n * n)) as real by { assert r * r == (n * n) as real; }
    if y < 0.0 {
      NegativeProduct(y, r);
    }
    if y > top {
      NegativeProduct(top - y, r);
    }
    if y * r == top * r {
      assert y == y * r / r == top * r / r == top;
    }
    if y * r == 0.0 {
      assert y == y * r / r;
    }
  }

  lemma NegativeProduct(y: real, r: real)
    requires y < 0.0 && r > 0.0
    ensures y * r < 0.0
  {
  }

  lemma SquaresBounds(col: seq<nat>, n: nat)
    requires |col| == N_VALUES && Sum(col) == n
    ensures 0 <= 16 * SumOfSquares(col) - n * n <= 15 * (n * n)
    ensures 16 * SumOfSquares(col) == n * n <==> AllEqual(col)
    ensures SumOfSquares(col) == n * n <==> OneHasAll(col)
  {
    SumsOfSamples(col);
    SquaresLeast(col);
    SquaresMost(col);
  }

  lemma ColumnBounds(col: seq<nat>, n: nat)
    requires n > 0 && |col| == N_VALUES && Sum(col) == n
    ensures 0.0 <= ChiSquare(col, n) <= 15.0 * n as real
    ensures ChiSquare(col, n) == 0.0 <==> AllEqual(col)
    ensures ChiSquare(col, n) == 15.0 * n as real <==> OneHasAll(col)
  {
    var y, k := ChiSquare(col, n), 16 * SumOfSquares(col) - n * n;
    SquaresBounds(col, n);
    ChiSquareIs(col, n);
    QuotientBounds(y, n, k);
  }

  /**
   After any run of n packets the statistic of every column lies between 0 and 15 n; it is 0 exactly when all values are
   equally frequent, and 15 n exactly when one value took all packets.
   */
  lemma ChiSquareBounds(ps: seq<Packet>, i: nat)
    requires AllReadable(ps) && ps != [] && i < N_BLOCK
    ensures var col, n := Run(ps).cols[i], |ps|;
            && 0.0 <= ChiSquare(col, n) <= 15.0 * n as real
            && (ChiSquare(col, n) == 0.0 <==> AllEqual(col))
            && (ChiSquare(col, n) == 15.0 * n as real <==> OneHasAll(col))
  {
    ColumnsSum(ps, i);
    ColumnBounds(Run(ps).cols[i], |ps|);
  }

  /** The threshold below which the columns pass for random. */
  const THRESHOLD := 150.0

  /** Nine packets or less pass whatever they hold; ten equal ones do not. */
  lemma ThresholdNeedsTen(ps: seq<Packet>, i: nat)
    requires AllReadable(ps) && ps != [] && i < N_BLOCK
    ensures |ps| < 10 ==> ChiSquare(Run(ps).cols[i], |ps|) < THRESHOLD
    ensures |ps| >= 10 && OneHasAll(Run(ps).cols[i]) ==> ChiSquare(Run(ps).cols[i], |ps|) >= THRESHOLD
  {
    ChiSquareBounds(ps, i);
  }

  // ---- the nibble beyond the payload ----

  /** Nibble i lies in a byte of the payload, and that byte was captured. */
  predicate InPayload(p: Packet, i: nat) {
    i / 2 < p.payloadLen && i / 2 < p.captured
  }

  function Min(a: int, b: int): int {
    if a < b then a else b
  }

  /**
   Two packets that agree in length and in every captured nibble of their payload are counted alike, except for the low
   nibble of the first byte that is not captured payload.
   */
  lemma OneNibbleBeyond(p: Packet, q: Packet, i: nat)
    requires Readable(p) && Readable(q) && p.payloadLen == q.payloadLen && p.captured == q.captured && i < N_BLOCK
    requires forall k :: 0 <= k < N_BLOCK && InPayload(p, k) ==> Nibble(p.words, k) == Nibble(q.words, k)
    ensures Value(p, i) == Value(q, i) <==>
            i != 2 * Min(p.payloadLen, p.captured) || Nibble(p.words, i) == Nibble(q.words, i)
  {
    assert p.ValidBlocks() == q.ValidBlocks() == 2 * Min(p.payloadLen, p.captured);
    assert i < 2 * Min(p.payloadLen, p.captured) <==> InPayload(p, i);
  }

  /** With a payload as long as the callers demand, a packet has such a nibble exactly if fewer than eight bytes were captured. */
  lemma BeyondOnlyWhenCutShort(p: Packet)
    requires p.payloadLen >= N_BLOCK * N_RANDOM_BIT / 8
    ensures (exists i: nat :: i < N_BLOCK && i <= p.ValidBlocks() && !InPayload(p, i)) <==> 0 <= p.captured < 8
  {
    if 0 <= p.captured < 8 {
      assert p.ValidBlocks() == 2 * p.captured && !InPayload(p, 2 * p.captured);
    }
  }
}
