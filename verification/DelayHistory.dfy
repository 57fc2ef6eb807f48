/**
 The delay fields of one direction's statistics record, updated in place: both histories are fixed-size arrays and every
 loop over them is proved against the functions of BaseDelay.
 */
module DelayHistory {
  import opened Common
  import opened BaseDelay

  class UtpDelays {
    const delayBaseHist: array<int>
    const curGrossDelayHist: array<int>
    var delayBase: int
    var curDelayIdx: nat
    var lastRollover: int

    ghost predicate Valid()
      reads this
    {
      delayBaseHist != curGrossDelayHist && 0 < delayBaseHist.Length && curDelayIdx < curGrossDelayHist.Length
    }

    ghost function Value(): Est
      reads this, delayBaseHist, curGrossDelayHist
    {
      Est(delayBaseHist[..], delayBase, curGrossDelayHist[..], curDelayIdx, lastRollover)
    }

    constructor (b: nat, c: nat)
      requires 0 < b && 0 < c
      ensures Valid() && fresh(delayBaseHist) && fresh(curGrossDelayHist)
      ensures Value() == NewEst(b, c)
    {
      delayBaseHist := new int[b](_ => 0);
      curGrossDelayHist := new int[c](_ => 0);
      delayBase, curDelayIdx, lastRollover := 0, 0, 0;
    }

    method MinDelayBase() returns (min: int)
      requires Valid()
      ensures min == Min(delayBaseHist[..])
    {
      min := delayBaseHist[0];
      var i := 1;
      while i < delayBaseHist.Length
        invariant 1 <= i <= delayBaseHist.Length
        invariant min in delayBaseHist[..i] && forall k :: 0 <= k < i ==> min <= delayBaseHist[k]
      {
        if delayBaseHist[i] < min {
          min := delayBaseHist[i];
        }
        i := i + 1;
      }
      MinIs(delayBaseHist[..], min);
    }

    method GetQueueingDelay(filtering: bool) returns (qd: int)
      requires Valid()
      ensures qd == QueueingDelay(Value(), filtering)
    {
      var filtered := curGrossDelayHist[0];
      if filtering {
        var i := 1;
        while i < curGrossDelayHist.Length
          invariant 1 <= i <= curGrossDelayHist.Length
          invariant Smallest(curGrossDelayHist[..], i, filtered) == Smallest(curGrossDelayHist[..], 1, curGrossDelayHist[0])
        {
          if (curGrossDelayHist[i] < filtered && curGrossDelayHist[i] > 0) || filtered == 0 {
            filtered := curGrossDelayHist[i];
          }
          i := i + 1;
        }
      }
      qd := filtered - delayBase;
    }

    method FillHistory(g: int)
      requires Valid()
      modifies delayBaseHist
      ensures delayBaseHist[..] == Fill(old(delayBaseHist[..]), g)
    {
      var j := 0;
      while j < delayBaseHist.Length
        invariant 0 <= j <= delayBaseHist.Length
        invariant forall k :: 0 <= k < j ==> delayBaseHist[k] == Fill(old(delayBaseHist[..]), g)[k]
        invariant forall k :: j <= k < delayBaseHist.Length ==> delayBaseHist[k] == old(delayBaseHist[k])
      {
        if delayBaseHist[j] == 0 {
          delayBaseHist[j] := g;
        }
        j := j + 1;
      }
    }

    method ShiftHistory(g: int)
      requires Valid()
      modifies delayBaseHist
      ensures delayBaseHist[..] == old(delayBaseHist[..])[1..] + [g]
    {
      var i := 1;
      while i < delayBaseHist.Length
        invariant 1 <= i <= delayBaseHist.Length
        invariant forall k :: 0 <= k < i - 1 ==> delayBaseHist[k] == old(delayBaseHist[k + 1])
        invariant forall k :: i - 1 <= k < delayBaseHist.Length ==> delayBaseHist[k] == old(delayBaseHist[k])
      {
        delayBaseHist[i - 1] := delayBaseHist[i];
        i := i + 1;
      }
      delayBaseHist[delayBaseHist.Length - 1] := g;
    }

    /** The part of update_gross_delay_related_stuff that keeps the base-delay history. */
    method UpdateHistory(g: int, now: int)
      requires Valid()
      modifies delayBaseHist, this`lastRollover
      ensures delayBaseHist[..] == NextHist(old(Value()), g, now)
      ensures lastRollover == if RollsOver(old(Value()), now) then now else old(lastRollover)
    {
      var last := delayBaseHist.Length - 1;
      FillHistory(g);
      if now >= lastRollover && now - lastRollover > ROLLOVER {
        lastRollover := now;
        ShiftHistory(g);
      } else if g < delayBaseHist[last] {
        delayBaseHist[last] := g;
      }
    }

    method UpdateFiltered(g: int, now: int)
      requires Valid()
      modifies this, delayBaseHist, curGrossDelayHist
      ensures Valid() && Value() == Filtered(old(Value()), g, now)
    {
      UpdateHistory(g, now);
      delayBase := MinDelayBase();
      curGrossDelayHist[curDelayIdx] := g;
      RingStep(curDelayIdx, curGrossDelayHist.Length);
      curDelayIdx := (curDelayIdx + 1) % curGrossDelayHist.Length;
    }

    method UpdatePlain(g: int)
      requires Valid()
      modifies this, curGrossDelayHist
      ensures Valid() && Value() == Plain(old(Value()), g)
    {
      curGrossDelayHist[0] := g;
      if g < delayBase || delayBase == 0 {
        delayBase := g;
      }
    }

    method UpdateGrossDelayRelatedStuff(filtering: bool, g: int, now: int)
      requires Valid()
      modifies this, delayBaseHist, curGrossDelayHist
      ensures Valid()
      ensures Value() == Updated(old(Value()), filtering, g, now)
    {
      if filtering {
        UpdateFiltered(g, now);
      } else {
        UpdatePlain(g);
      }
    }
  }

  lemma RingStep(i: nat, n: nat)
    requires i < n
    ensures (i + 1) % n == NextSlot(i, n)
  {
  }

  lemma MinIs(s: seq<int>, m: int)
    requires s != [] && m in s && forall k :: 0 <= k < |s| ==> m <= s[k]
    ensures m == Min(s)
  {
  }
}
