/** The nibble histograms of one direction, updated in place, and the loops that compute the statistic from them. */
module RandomStats {
  import opened Randomness
  import opened Statistics

  class RandomStat {
    const bitHisto: array2<nat>
    var nSamples: nat
    ghost var vals: Random

    /** The array has a row for every value and a column for every position. */
    ghost predicate Valid()
      reads this, bitHisto
    {
      && bitHisto.Length0 == N_VALUES && bitHisto.Length1 == N_BLOCK
      && Shaped(vals) && nSamples == vals.n
      && forall v, i {:trigger bitHisto[v, i]} {:trigger vals.cols[i][v]} ::
           0 <= v < N_VALUES && 0 <= i < N_BLOCK ==> bitHisto[v, i] == vals.cols[i][v]
    }

    constructor ()
      ensures Valid() && vals == Fresh() && fresh(bitHisto)
    {
      bitHisto := new nat[N_VALUES, N_BLOCK]((_, _) => 0);
      nSamples, vals := 0, Fresh();
    }

    /** update_randomness: word after word, nibble after nibble. */
    method UpdateRandomness(p: Packet)
      requires Valid() && Readable(p)
      modifies this`nSamples, this`vals, bitHisto
      ensures Valid() && vals == Update(old(vals), p)
    {
      ghost var r := vals;
      var validBlocks := p.ValidBlocks();
      var i, word := 0, 0;
      while i < N_BLOCK
        invariant 0 <= i <= N_BLOCK && i == 8 * word && nSamples == r.n
        invariant forall v, k {:trigger bitHisto[v, k]} :: 0 <= v < N_VALUES && 0 <= k < N_BLOCK ==>
                    bitHisto[v, k] == r.cols[k][v] + if k < i && Value(p, k) == v then 1 else 0
      {
        var j := 0;
        while j < 8 && i < N_BLOCK
          invariant 0 <= j <= 8 && i == 8 * word + j && i <= N_BLOCK && nSamples == r.n
          invariant forall v, k {:trigger bitHisto[v, k]} :: 0 <= v < N_VALUES && 0 <= k < N_BLOCK ==>
                      bitHisto[v, k] == r.cols[k][v] + if k < i && Value(p, k) == v then 1 else 0
        {
          var bits := 0;
          if i <= validBlocks {
            bits := p.words[word] / Power(j) % N_VALUES;
          }
          assert i / 8 == word && i % 8 == j;
          bitHisto[bits, i] := bitHisto[bits, i] + 1;
          i := i + 1;
          j := j + 1;
        }
        word := word + 1;
      }
      nSamples := nSamples + 1;
      vals := Update(r, p);
    }

    /** The inner loop of the statistic, for column j. */
    method ChiSquareOf(j: nat) returns (chi: real)
      requires Valid() && nSamples > 0 && j < N_BLOCK
      ensures chi == ChiSquare(vals.cols[j], nSamples)
    {
      var expected := nSamples as real / N_VALUES as real;
      chi := 0.0;
      var i := 0;
      while i < N_VALUES
        invariant 0 <= i <= N_VALUES
        invariant chi + Distances(vals.cols[j][i..], expected) == Distances(vals.cols[j], expected)
      {
        assert vals.cols[j][i..][1..] == vals.cols[j][i + 1..];
        assert bitHisto[i, j] == vals.cols[j][i];
        chi := chi + (bitHisto[i, j] as real - expected) * (bitHisto[i, j] as real - expected);
        i := i + 1;
      }
      chi := chi / expected;
    }

    /** The statistics of all columns. */
    method ChiSquares() returns (chi: array<real>)
      requires Valid() && nSamples > 0
      ensures fresh(chi) && chi.Length == N_BLOCK
      ensures forall j :: 0 <= j < N_BLOCK ==> chi[j] == ChiSquare(vals.cols[j], nSamples)
    {
      chi := new real[N_BLOCK](_ => 0.0);
      var j := 0;
      while j < N_BLOCK
        invariant 0 <= j <= N_BLOCK
        invariant forall k :: 0 <= k < j ==> chi[k] == ChiSquare(vals.cols[k], nSamples)
      {
        var c := ChiSquareOf(j);
        chi[j] := c;
        j := j + 1;
      }
    }
  }
}
