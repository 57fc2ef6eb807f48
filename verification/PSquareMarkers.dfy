/** One percentile of the P-square estimator, its four arrays updated in place. */
module PSquareMarkers {
  import opened Common
  import opened PSquare

  function Pair(a: int, b: int): nat {
    if a > b then 1 else 0
  }

  /** How many pairs of the five heights are out of order. */
  function Inversions(y: seq<int>): nat
    requires |y| == 5
  {
    Pair(y[0], y[1]) + Pair(y[0], y[2]) + Pair(y[0], y[3]) + Pair(y[0], y[4]) + Pair(y[1], y[2])
    + Pair(y[1], y[3]) + Pair(y[1], y[4]) + Pair(y[2], y[3]) + Pair(y[2], y[4]) + Pair(y[3], y[4])
  }

  lemma SwapRemovesInversion(y: seq<int>, i: nat)
    requires |y| == 5 && i < 4 && y[i] > y[i + 1]
    ensures var z := y[i := y[i + 1]][i + 1 := y[i]];
            Inversions(z) < Inversions(y) && multiset(z) == multiset(y)
  {
  }

  method Swap(y: array<int>, i: nat)
    requires y.Length == 5 && i < 4 && y[i] > y[i + 1]
    modifies y
    ensures y[i] == old(y[i + 1]) && y[i + 1] == old(y[i]) && forall j :: 0 <= j < 5 && j != i && j != i + 1 ==> y[j] == old(y[j])
    ensures Inversions(y[..]) < old(Inversions(y[..])) && multiset(y[..]) == multiset(old(y[..]))
  {
    ghost var was := y[..];
    y[i], y[i + 1] := y[i + 1], y[i];
    SwapRemovesInversion(was, i);
    assert y[..] == was[i := was[i + 1]][i + 1 := was[i]];
  }

  /** The bubble sort of the first five samples: passes over the array until one of them swaps nothing. */
  method BubbleSort(y: array<int>)
    requires y.Length == 5
    modifies y
    ensures y[..] == Sort(old(y[..]))
  {
    var i, swapped := 0, false;
    while i <= 4 || swapped
      invariant 0 <= i <= 5
      invariant multiset(y[..]) == multiset(old(y[..]))
      invariant !swapped ==> forall j :: 0 <= j < i && j < 4 ==> y[j] <= y[j + 1]
      decreases Inversions(y[..]), swapped, 5 - i
    {
      if i == 5 {
        i, swapped := 0, false;
      }
      if i != 4 && y[i] > y[i + 1] {
        Swap(y, i);
        swapped := true;
      }
      i := i + 1;
    }
    SortSorts(old(y[..]));
    SortedIsUnique(y[..], Sort(old(y[..])));
  }

  class Percentile {
    const p: real
    const y: array<int>
    const x: array<int>
    const n: array<real>
    const dn: array<real>
    var count: nat

    ghost predicate Shaped()
      reads this
    {
      y.Length == 5 && x.Length == 5 && n.Length == 5 && dn.Length == 5 && y != x && n != dn
    }

    ghost function Value(): Markers
      reads this, y, x, n, dn
    {
      Markers(y[..], x[..], n[..], dn[..], count)
    }

    constructor (p: real)
      ensures Shaped() && this.p == p && Value() == Blank()
      ensures fresh(y) && fresh(x) && fresh(n) && fresh(dn)
    {
      this.p := p;
      y, x := new int[5](_ => 0), new int[5](_ => 0);
      n, dn := new real[5](_ => 0.0), new real[5](_ => 0.0);
      count := 0;
    }

    method SetDesired()
      requires Shaped()
      modifies n, dn
      ensures n[..] == Desired(p) && dn[..] == Increments(p)
    {
      n[0], n[1], n[2], n[3], n[4] := 1.0, 1.0 + 2.0 * p, 1.0 + 4.0 * p, 3.0 + 2.0 * p, 5.0;
      dn[0], dn[1], dn[2], dn[3], dn[4] := 0.0, p / 2.0, p, (1.0 + p) / 2.0, 1.0;
    }

    /** The initialization phase. */
    method Store(q: int)
      requires Shaped() && count < 5
      modifies this, y, x, n, dn
      ensures Shaped() && Value() == Fill(p, old(Value()), q)
    {
      count := count + 1;
      if count == 1 {
        SetDesired();
      }
      y[count - 1] := q;
      x[count - 1] := count;
      if count == 5 {
        BubbleSort(y);
      }
    }

    method ShiftPositions(k: int)
      requires Shaped() && 1 <= k <= 4
      modifies x
      ensures x[..] == Shift(old(x[..]), k)
    {
      var j := k;
      while j < 5
        invariant k <= j <= 5
        invariant forall i :: 0 <= i < 5 ==> x[i] == old(x[i]) + if k <= i < j then 1 else 0
      {
        x[j] := x[j] + 1;
        j := j + 1;
      }
    }

    method AdvanceDesired()
      requires Shaped()
      modifies n
      ensures n[..] == Advance(old(n[..]), dn[..])
    {
      var i := 0;
      while i < 5
        invariant 0 <= i <= 5
        invariant forall j :: 0 <= j < 5 ==> n[j] == old(n[j]) + if j < i then dn[j] else 0.0
      {
        n[i] := n[i] + dn[i];
        i := i + 1;
      }
    }

    /** The height of marker i when it moves by d. */
    method AdjustHeight(i: int, d: int)
      requires Shaped() && 1 <= i <= 3 && (d == 1 || d == -1) && x[i - 1] < x[i] < x[i + 1]
      modifies y
      ensures y[..] == old(y[..])[i := Height(old(y[..]), x[..], i, d)]
    {
      var yp2 := Parabola(y[..], x[..], i, d);
      var iy, yi, yii := y[i - 1], y[i], y[i + 1];
      y[i] := yp2;
      if iy > yp2 || yp2 > yii {
        if d == 1 {
          y[i] := Trunc(yi as real + (yii - yi) as real / (x[i + 1] - x[i]) as real);
        }
        if d == -1 {
          y[i] := Trunc(yi as real - (iy - yi) as real / (x[i - 1] - x[i]) as real);
        }
      }
    }

    /** One round of the loop that adjusts the markers. */
    method AdjustMarker(i: int)
      requires Shaped() && 1 <= i <= 3 && Strict(x[..])
      modifies y, x
      ensures Strict(x[..])
      ensures Adjust(y[..], x[..], n[..], i + 1) == Adjust(old(y[..]), old(x[..]), n[..], i)
    {
      var dd := n[i] - x[i] as real;
      var d := if dd >= 0.0 then 1 else -1;
      ghost var y0, x0 := y[..], x[..];
      assert x0[i - 1] < x0[i] < x0[i + 1];
      if (dd >= 1.0 && x[i + 1] - x[i] > 1) || (dd <= -1.0 && x[i - 1] - x[i] < -1) {
        AdjustHeight(i, d);
        x[i] := x[i] + d;
        assert x[..] == x0[i := x0[i] + d];
        AdjustMoves(y0, x0, n[..], i, d);
      } else {
        AdjustStays(y0, x0, n[..], i);
      }
    }

    method AdjustMarkers()
      requires Shaped() && Strict(x[..])
      modifies y, x
      ensures (y[..], x[..]) == Adjust(old(y[..]), old(x[..]), n[..], 1)
    {
      var i := 1;
      while i <= 3
        invariant 1 <= i <= 4 && Strict(x[..])
        invariant Adjust(y[..], x[..], n[..], i) == Adjust(old(y[..]), old(x[..]), n[..], 1)
      {
        AdjustMarker(i);
        i := i + 1;
      }
    }

    /** The chain of comparisons; it also moves the smallest or the largest height. */
    method FindCell(q: int) returns (k: int)
      requires Shaped()
      modifies y
      ensures k == Cell(old(y[..]), q) && y[..] == Extremes(old(y[..]), q)
    {
      k := -1;
      if q < y[0] {
        y[0] := q;
        k := 1;
      } else if q >= y[0] && q < y[1] {
        k := 1;
      } else if q >= y[1] && q < y[2] {
        k := 2;
      } else if q >= y[2] && q < y[3] {
        k := 3;
      } else if q >= y[3] && q < y[4] {
        k := 4;
      } else if q > y[4] {
        y[4] := q;
        k := 4;
      }
    }

    /** The markers move, once the cell of the sample is known. */
    method MoveMarkers(k: int)
      requires Shaped() && Strict(x[..]) && 1 <= k <= 4
      modifies y, x, n
      ensures Shaped() && n[..] == Advance(old(n[..]), dn[..]) && Strict(Shift(old(x[..]), k))
      ensures (y[..], x[..]) == Adjust(old(y[..]), Shift(old(x[..]), k), n[..], 1)
    {
      AdvanceDesired();
      ghost var was := x[..];
      ShiftPositions(k);
      assert Strict(Shift(was, k));
      AdjustMarkers();
    }

    /** A sample after the fifth. */
    method AddLater(q: int) returns (ok: bool)
      requires Shaped() && Strict(x[..])
      modifies this, y, x, n
      ensures Shaped()
      ensures ok == Later(old(Value()), q).Some? && (ok ==> Value() == Later(old(Value()), q).value)
    {
      ghost var m := Value();
      count := count + 1;
      var k := FindCell(q);
      ok := k >= 0;
      if ok {
        CellInRange(m.y, q);
        MoveMarkers(k);
      }
    }

    /** PSquare; false where the program exits because the sample fell in no cell. */
    method Add(q: int) returns (ok: bool, estimate: int)
      requires Shaped() && (count >= 5 ==> Strict(x[..]))
      modifies this, y, x, n, dn
      ensures Shaped()
      ensures old(count) < 5 ==> ok && Value() == Fill(p, old(Value()), q)
      ensures old(count) >= 5 ==> ok == Later(old(Value()), q).Some? && (ok ==> Value() == Later(old(Value()), q).value)
      ensures ok ==> estimate == y[2]
    {
      ok := true;
      if count < 5 {
        Store(q);
      } else {
        ok := AddLater(q);
      }
      estimate := y[2];
    }
  }

  lemma AdjustMoves(y: seq<int>, x: seq<int>, n: seq<real>, i: int, d: int)
    requires |y| == 5 && |x| == 5 && |n| == 5 && 1 <= i <= 3 && Strict(x) && Move(x, n, i) == d != 0
    requires x[i - 1] < x[i] < x[i + 1]
    ensures Strict(x[i := x[i] + d])
    ensures Adjust(y, x, n, i) == Adjust(y[i := Height(y, x, i, d)], x[i := x[i] + d], n, i + 1)
  {
    MoveKeepsStrict(x, n, i);
  }

  lemma AdjustStays(y: seq<int>, x: seq<int>, n: seq<real>, i: int)
    requires |y| == 5 && |x| == 5 && |n| == 5 && 1 <= i <= 3 && Strict(x) && Move(x, n, i) == 0
    ensures Adjust(y, x, n, i) == Adjust(y, x, n, i + 1)
  {
  }

  lemma CellInRange(y: seq<int>, q: int)
    requires |y| == 5
    ensures Cell(y, q) == -1 || 1 <= Cell(y, q) <= 4
  {
  }
}
