/** The histogram record in place: two buffers, one of them current, and the global data they are added to. */
module HistogramBuffers {
  import opened Common
  import opened Histograms
  import opened Percentiles

  class DoubleHisto {
    const shape: Shape
    const firstData: array<int>
    const secondData: array<int>
    const globalData: array<int>
    var currentData: array<int>

    ghost predicate Valid()
      reads this
    {
      && ShapeOk(shape)
      && firstData.Length == secondData.Length == globalData.Length == shape.cols + 3
      && firstData != secondData && firstData != globalData && secondData != globalData
      && (currentData == firstData || currentData == secondData)
    }

    /** whats_frozen */
    function WhatsFrozen(): array<int>
      reads this
    {
      if currentData == firstData then secondData else firstData
    }

    ghost function Value(): Histogram
      reads this, firstData, secondData, globalData, currentData
    {
      Histogram(currentData[..], WhatsFrozen()[..], globalData[..])
    }

    constructor (shape: Shape)
      requires ShapeOk(shape)
      ensures Valid() && this.shape == shape && Value() == Run(shape, [])
      ensures fresh(firstData) && fresh(secondData) && fresh(globalData)
    {
      this.shape := shape;
      firstData := new int[shape.cols + 3](_ => 0);
      secondData := new int[shape.cols + 3](_ => 0);
      globalData := new int[shape.cols + 3](_ => 0);
      currentData := firstData;
    }

    /** __add_histo */
    method AddHisto(v: real)
      requires Valid()
      modifies currentData
      ensures Valid() && Value() == Step(shape, old(Value()), Sample(v))
    {
      if v < shape.min as real {
        currentData[0] := currentData[0] + 1;
      } else if v >= shape.max as real {
        currentData[shape.cols + 1] := currentData[shape.cols + 1] + 1;
      } else {
        IndexIs(shape, v);
        IndexBeyond(shape, v);
        var i := CDiv(Trunc(v) + shape.size - shape.min, shape.size);
        currentData[i] := currentData[i] + 1;
        currentData[shape.cols + 2] := currentData[shape.cols + 2] + 1;
      }
    }

    /** swap_histo, with the global histogram. */
    method SwapHisto()
      requires Valid()
      modifies this`currentData, globalData
      ensures Valid() && Value() == Step(shape, old(Value()), Swap)
    {
      var i := 0;
      while i < globalData.Length
        invariant 0 <= i <= globalData.Length && Valid()
        invariant currentData == old(currentData) && currentData[..] == old(currentData[..])
        invariant forall k :: 0 <= k < globalData.Length ==>
                    globalData[k] == old(globalData[k]) + if k < i then currentData[k] else 0
      {
        globalData[i] := globalData[i] + currentData[i];
        i := i + 1;
      }
      currentData := if currentData == firstData then secondData else firstData;
    }

    /** clear_histo */
    method ClearHisto()
      requires Valid()
      modifies WhatsFrozen()
      ensures Valid() && Value() == Step(shape, old(Value()), Clear)
    {
      var frozen := WhatsFrozen();
      var i := 0;
      while i < frozen.Length
        invariant 0 <= i <= frozen.Length
        invariant forall k :: 0 <= k < i ==> frozen[k] == 0
      {
        frozen[i] := 0;
        i := i + 1;
      }
      assert frozen[..] == Zeros(shape);
    }

    /** The percentile search of rrdtool_update. */
    method PercentileOf(prc: real) returns (edge: Option<int>)
      requires Valid()
      ensures edge == Percentile(shape, WhatsFrozen()[..], prc)
    {
      var frozen := WhatsFrozen();
      ghost var f := frozen[..];
      var num := shape.cols + 1;
      var target := prc * frozen[num + 1] as real / 100.0;
      var j, cdf := 0, 0;
      while j < num
        invariant 0 <= j <= num
        invariant Search(f, num, target, 0, 0) == Search(f, num, target, j, cdf)
      {
        cdf := cdf + frozen[j];
        if cdf as real >= target {
          return Some(shape.min + (j - 1) * shape.size);
        }
        j := j + 1;
      }
      assert Search(f, num, target, j, cdf) == None;
      assert target == Target(prc, f[shape.cols + 2]);
      assert Percentile(shape, f, prc) == None;
      edge := None;
    }

    /** One indexed bin: it is taken off the last bin, in place. */
    method ReportIndex(frozen: array<int>, idx: int) returns (hits: int)
      requires ShapeOk(shape) && frozen.Length == shape.cols + 3 && 0 <= Position(shape, idx) <= shape.cols + 2
      modifies frozen
      ensures hits == old(frozen[Position(shape, idx)])
      ensures frozen[..] == old(frozen[..])[shape.cols + 2 := old(frozen[shape.cols + 2]) - hits]
    {
      var pos := CDiv(idx - shape.min, shape.size) + 1;
      hits := frozen[pos];
      frozen[shape.cols + 2] := frozen[shape.cols + 2] - hits;
    }

    /** The same after the bins before it have been reported. */
    method ReportNext(frozen: array<int>, idx: int, ghost f: seq<int>, ghost ps: seq<nat>, ghost i: nat,
                      ghost soFar: seq<int>) returns (hits: int)
      requires ShapeOk(shape) && frozen.Length == shape.cols + 3 == |f| && InArray(f, ps) && i < |ps|
      requires ps[i] == Position(shape, idx) && TakenOff(f, ps[..i], frozen[..], soFar)
      modifies frozen
      ensures TakenOff(f, ps[..i + 1], frozen[..], soFar + [hits])
    {
      ghost var g := frozen[..];
      hits := ReportIndex(frozen, idx);
      TakeOff(f, ps[..i], ps[i], g, frozen[..], soFar, hits);
      assert ps[..i + 1] == ps[..i] + [ps[i]];
    }

    /** The indexed bins of rrdtool_update, one after the other. */
    method ReportIndexes(idx: seq<int>) returns (hits: seq<int>, others: int)
      requires Valid() && WithinReach(shape, idx)
      modifies WhatsFrozen()
      ensures var f, ps := old(WhatsFrozen()[..]), Positions(shape, idx);
              && hits == Hits(f, ps) && others == Others(f, f[shape.cols + 2], ps)
              && WhatsFrozen()[..] == f[shape.cols + 2 := others]
    {
      var frozen := WhatsFrozen();
      ghost var f, ps := frozen[..], Positions(shape, idx);
      var last := shape.cols + 2;
      hits := [];
      var i := 0;
      while i < |idx|
        invariant 0 <= i <= |idx| && TakenOff(f, ps[..i], frozen[..], hits)
      {
        var hit := ReportNext(frozen, idx[i], f, ps, i, hits);
        hits := hits + [hit];
        i := i + 1;
      }
      assert ps[..i] == ps;
      others := frozen[last];
    }
  }

  /** The hits reported for the bins ps of f, one after the other. */
  function Hits(f: seq<int>, ps: seq<nat>): seq<int>
    requires InArray(f, ps)
  {
    if ps == [] then [] else
      var rest := ps[..|ps| - 1];
      Hits(f, rest) + [Hit(f, Others(f, f[|f| - 1], rest), ps[|ps| - 1])]
  }

  /** After the bins ps of f have been reported, the buffer is g. */
  ghost predicate TakenOff(f: seq<int>, ps: seq<nat>, g: seq<int>, hits: seq<int>)
    requires InArray(f, ps)
  {
    hits == Hits(f, ps) && g == f[|f| - 1 := Others(f, f[|f| - 1], ps)]
  }

  lemma TakeOff(f: seq<int>, ps: seq<nat>, p: nat, g: seq<int>, g': seq<int>, hits: seq<int>, hit: int)
    requires InArray(f, ps) && p < |f| && TakenOff(f, ps, g, hits)
    requires hit == g[p] && g' == g[|f| - 1 := g[|f| - 1] - hit]
    ensures TakenOff(f, ps + [p], g', hits + [hit])
  {
    assert (ps + [p])[..|ps|] == ps;
  }

  /** The bins of all indexes are in the array. */
  predicate WithinReach(h: Shape, idx: seq<int>)
    requires ShapeOk(h)
  {
    forall i :: 0 <= i < |idx| ==> h.min - 2 * h.size < idx[i] < h.max + 2 * h.size
  }

  /** The bins of the indexes, in order. */
  function Positions(h: Shape, idx: seq<int>): (ps: seq<nat>)
    requires ShapeOk(h) && WithinReach(h, idx)
    ensures |ps| == |idx| && forall i :: 0 <= i < |ps| ==> ps[i] == Position(h, idx[i]) && 0 <= ps[i] <= h.cols + 2
  {
    if idx == [] then [] else
      PositionInArray(h, idx[0]);
      [Position(h, idx[0])] + Positions(h, idx[1..])
  }
}
