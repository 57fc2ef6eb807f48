/** From measured delays to the log: when the estimates of BaseDelay meet what the windows ask of their samples. */
module BufferbloatRuns {
  import opened BaseDelay
  import opened ZeroDelays
  import Statistics
  import opened Windows
  import opened WindowRuns

  /** A packet as bufferbloat_analysis or chance_is_not_valid sees it; sec and usec are the capture time. */
  datatype Packet = Delayed(side: Side, sec: int, usec: int, gross: int) | Invalid(side: Side, sec: int)

  /** The delays of one direction, in order. */
  function DelaysOf(ps: seq<Packet>, side: Side): seq<Delay> {
    if ps == [] then [] else
      var p, rest := ps[|ps| - 1], DelaysOf(ps[..|ps| - 1], side);
      if p.Delayed? && p.side == side then rest + [Delay(p.gross, p.sec * 1_000_000 + p.usec)] else rest
  }

  /** The estimate after the last delay of one direction. */
  function Estimate(filtering: bool, b: nat, c: nat, ds: seq<Delay>): int
    requires 0 < b && 0 < c
  {
    QueueingDelay(if filtering then FilteredRun(b, c, ds) else PlainRun(c, ds), filtering)
  }

  /** The packets with the estimate of each delay. */
  function Estimated(filtering: bool, b: nat, c: nat, ps: seq<Packet>): (ev: seq<Event>)
    requires 0 < b && 0 < c
    ensures |ev| == |ps|
  {
    if ps == [] then [] else
      var p := ps[|ps| - 1];
      Estimated(filtering, b, c, ps[..|ps| - 1]) +
      [match p
       case Delayed(side, sec, _, gross) => Sample(side, sec, Estimate(filtering, b, c, DelaysOf(ps, side)), gross)
       case Invalid(side, sec) => Chance(side, sec)]
  }

  /** Capture times after the epoch, delays that are not negative, and invalid packets only with SAMPLES_VALIDITY. */
  predicate Plausible(v: bool, ps: seq<Packet>) {
    forall i :: 0 <= i < |ps| ==> ps[i].sec > 0 && (ps[i].Invalid? ==> v) && (ps[i].Delayed? ==> ps[i].gross >= 0)
  }

  lemma {:induction false} DelaysPlausible(v: bool, ps: seq<Packet>, side: Side)
    requires Plausible(v, ps)
    ensures NoneNegative(DelaysOf(ps, side))
  {
    if ps != [] {
      DelaysPlausible(v, ps[..|ps| - 1], side);
    }
  }

  lemma {:induction false} EstimatedTimed(filtering: bool, v: bool, b: nat, c: nat, ps: seq<Packet>)
    requires 0 < b && 0 < c && Plausible(v, ps)
    ensures Timed(v, Estimated(filtering, b, c, ps))
  {
    if ps != [] {
      EstimatedTimed(filtering, v, b, c, ps[..|ps| - 1]);
    }
  }

  // ---- delays that fit ----

  /**
   What the newest delay has to do with those before it. Without FILTERING nothing. With it, a delay of zero has no other
   among the last c, and a positive one meets a remembered delay that is no larger than any positive one of the last c.
   */
  ghost predicate Fits(filtering: bool, b: nat, c: nat, ds: seq<Delay>)
    requires ds != []
  {
    filtering ==> if ds[|ds| - 1].gross == 0 then forall k :: Recent(ds, c, k) ==> ds[k].gross == 0
                  else exists x :: Remembered(ds, b, x) && BelowRecent(ds, c, x)
  }

  lemma FitsIs(filtering: bool, b: nat, c: nat, ds: seq<Delay>)
    requires 0 < b && 0 < c && ds != [] && NoneNegative(ds)
    ensures Fits(filtering, b, c, ds) <==> 0 <= Estimate(filtering, b, c, ds) <= ds[|ds| - 1].gross
  {
    if filtering {
      UpperBound(b, c, ds);
      LowerBound(b, c, ds);
    } else {
      PlainWithinGross(c, ds);
    }
  }

  /** Every delay fits those of its direction before it. */
  ghost predicate AllFit(filtering: bool, b: nat, c: nat, ps: seq<Packet>) {
    ps != [] ==>
      var p := ps[|ps| - 1];
      && AllFit(filtering, b, c, ps[..|ps| - 1])
      && (p.Delayed? ==> Fits(filtering, b, c, DelaysOf(ps, p.side)))
  }

  /** Positive delays fit if the history is as long as the filter; without FILTERING all do. */
  lemma {:induction false} PositiveDelaysFit(filtering: bool, v: bool, b: nat, c: nat, ps: seq<Packet>)
    requires 0 < b && 0 < c && Plausible(v, ps)
    requires filtering ==> c <= b && forall i :: 0 <= i < |ps| && ps[i].Delayed? ==> ps[i].gross > 0
    ensures AllFit(filtering, b, c, ps)
  {
    if ps != [] {
      var p, rest := ps[|ps| - 1], ps[..|ps| - 1];
      assert Plausible(v, rest);
      PositiveDelaysFit(filtering, v, b, c, rest);
      if filtering && p.Delayed? {
        var ds := DelaysOf(ps, p.side);
        DelaysPlausible(v, ps, p.side);
        DelaysPositive(ps, p.side);
        QueueingDelayWithinGross(b, c, ds);
        FitsIs(true, b, c, ds);
      }
    }
  }

  lemma {:induction false} DelaysPositive(ps: seq<Packet>, side: Side)
    requires forall i :: 0 <= i < |ps| && ps[i].Delayed? ==> ps[i].gross > 0
    ensures AllPositive(DelaysOf(ps, side))
  {
    if ps != [] {
      DelaysPositive(ps[..|ps| - 1], side);
    }
  }

  lemma {:induction false} FittingIsBounded(filtering: bool, v: bool, b: nat, c: nat, ps: seq<Packet>)
    requires 0 < b && 0 < c && Plausible(v, ps) && AllFit(filtering, b, c, ps)
    ensures WithinGross(Estimated(filtering, b, c, ps))
  {
    if ps != [] {
      FittingIsBounded(filtering, v, b, c, ps[..|ps| - 1]);
      var p := ps[|ps| - 1];
      if p.Delayed? {
        DelaysPlausible(v, ps, p.side);
        FitsIs(filtering, b, c, DelaysOf(ps, p.side));
      }
    }
  }

  // ---- the self-checks ----

  /**
   The self-checks over whole runs of delays, zeros included, whatever the interleaving of both directions: the program
   survives exactly if time never goes back, no close finds more than a million chances, and the estimates keep every second
   sane. While all delays fit, they do. A program that survives has logged every second's samples.
   */
  lemma SelfChecksOnRealDelays(filtering: bool, v: bool, b: nat, c: nat, ps: seq<Packet>)
    requires 0 < b && 0 < c && Plausible(v, ps) && ps != []
    ensures var ev := Estimated(filtering, b, c, ps);
            && (Run(v, ev).Some? <==> Ordered(ev) && !TooMany(v, ev) && Sane(ev))
            && (Run(v, ev).Some? ==> Run(v, ev).value.log == Expected(v, ev, ev[0].sec, Last(ev)))
            && (AllFit(filtering, b, c, ps) ==> Sane(ev))
  {
    EstimatedTimed(filtering, v, b, c, ps);
    RunGroupsBySecond(v, Estimated(filtering, b, c, ps));
    if AllFit(filtering, b, c, ps) {
      FittingIsBounded(filtering, v, b, c, ps);
      BoundedIsSane(Estimated(filtering, b, c, ps));
    }
  }

  lemma EstimateAfterOne(b: nat, c: nat, ds: seq<Delay>)
    requires 0 < b && 0 < c && |ds| == 1 && ds[0].gross > 0
    ensures 0 <= Estimate(true, b, c, ds)
  {
    var m := StaysKept(ds, 0);
    assert Remembered(ds, b, ds[0].gross) && BelowRecent(ds, c, ds[0].gross);
    LowerBound(b, c, ds);
  }

  lemma EstimateAfterZeros(b: nat, c: nat, ds: seq<Delay>)
    requires 0 < b && 2 <= |ds| <= c && ds[0].gross > 0 && forall k :: 0 < k < |ds| ==> ds[k].gross == 0
    ensures Estimate(true, b, c, ds) == ds[0].gross
  {
    BaseAfterZero(b, c, ds);
    FilterReturns(b, c, ds);
    assert Recent(ds, c, 0);
  }

  lemma ThreeSamples(side: Side, s: int, p: Event, q: Event, r: Event)
    requires p.Sample? && q.Sample? && r.Sample? && p.side == q.side == r.side == side && p.sec == q.sec == r.sec == s
    ensures TotalsOf([p, q, r], side, s, s + 1).sum == p.qd + q.qd + r.qd
    ensures TotalsOf([p, q, r], side, s, s + 1).gross == p.gross + q.gross + r.gross
  {
    assert [] + [p] == [p] && [p] + [q] == [p, q] && [p, q] + [r] == [p, q, r];
    Append([], p, side, s, s + 1);
    Append([p], q, side, s, s + 1);
    Append([p, q], r, side, s, s + 1);
  }

  lemma EstimatedOneMore(filtering: bool, b: nat, c: nat, ps: seq<Packet>, p: Packet, ds: seq<Delay>)
    requires 0 < b && 0 < c && p.Delayed? && ds == DelaysOf(ps, p.side) + [Delay(p.gross, p.sec * 1_000_000 + p.usec)]
    ensures DelaysOf(ps + [p], p.side) == ds
    ensures Estimated(filtering, b, c, ps + [p])
         == Estimated(filtering, b, c, ps) + [Sample(p.side, p.sec, Estimate(filtering, b, c, ds), p.gross)]
  {
    assert (ps + [p])[..|ps|] == ps;
  }

  /** A delay and two zeros of one direction and second. */
  predicate DelayAndZeros(p: Packet, q: Packet, r: Packet) {
    && p.Delayed? && q.Delayed? && r.Delayed? && p.side == q.side == r.side
    && 0 < p.sec == q.sec == r.sec && p.gross > 0 == q.gross == r.gross
  }

  lemma ZerosEstimated(b: nat, c: nat, p: Packet, q: Packet, r: Packet) returns (x: int)
    requires 0 < b && 3 <= c && DelayAndZeros(p, q, r)
    ensures 0 <= x && Estimated(true, b, c, [p, q, r])
                   == [Sample(p.side, p.sec, x, p.gross), Sample(p.side, p.sec, p.gross, 0), Sample(p.side, p.sec, p.gross, 0)]
  {
    var d, e, f := Delay(p.gross, p.sec * 1_000_000 + p.usec), Delay(0, q.sec * 1_000_000 + q.usec), Delay(0, r.sec * 1_000_000 + r.usec);
    assert [] + [p] == [p] && [p] + [q] == [p, q] && [p, q] + [r] == [p, q, r];
    EstimatedOneMore(true, b, c, [], p, [d]);
    EstimatedOneMore(true, b, c, [p], q, [d, e]);
    EstimatedOneMore(true, b, c, [p, q], r, [d, e, f]);
    EstimateAfterOne(b, c, [d]);
    EstimateAfterZeros(b, c, [d, e]);
    EstimateAfterZeros(b, c, [d, e, f]);
    x := Estimate(true, b, c, [d]);
  }

  lemma Overshoot(v: bool, side: Side, s: int, x: int, d: int, ev: seq<Event>)
    requires s > 0 && 0 <= x && 0 < d && ev == [Sample(side, s, x, d), Sample(side, s, d, 0), Sample(side, s, d, 0)]
    ensures Run(v, ev).None?
  {
    ThreeSamples(side, s, ev[0], ev[1], ev[2]);
    NotSane(v, ev);
  }

  /**
   With FILTERING, a delay and two zeros within one second of one direction end the program, although time never goes back:
   both zeros are estimated at that delay.
   */
  lemma ZerosEndTheProgram(v: bool, b: nat, c: nat, p: Packet, q: Packet, r: Packet)
    requires 0 < b && 3 <= c && DelayAndZeros(p, q, r)
    ensures Run(v, Estimated(true, b, c, [p, q, r])).None?
  {
    var x := ZerosEstimated(b, c, p, q, r);
    Overshoot(v, p.side, p.sec, x, p.gross, Estimated(true, b, c, [p, q, r]));
  }

  lemma NotSane(v: bool, ev: seq<Event>)
    requires Timed(v, ev) && ev != [] && !LastSane(ev)
    ensures Run(v, ev).None?
  {
    SaneRest(ev);
    RunGroupsBySecond(v, ev);
  }

  /** The estimates of one direction in seconds lo to hi - 1. */
  function Estimates(ev: seq<Event>, side: Side, lo: int, hi: int): seq<int> {
    if ev == [] then [] else
      var e, rest := ev[|ev| - 1], Estimates(ev[..|ev| - 1], side, lo, hi);
      if e.Sample? && e.side == side && lo <= e.sec < hi then rest + [e.qd] else rest
  }

  lemma {:induction false} TotalsAreSums(ev: seq<Event>, side: Side, lo: int, hi: int)
    ensures var t, xs := TotalsOf(ev, side, lo, hi), Estimates(ev, side, lo, hi);
            t.count == |xs| && t.sum == Statistics.Sum(xs) && t.sum2 == Statistics.SumOfSquares(xs)
  {
    if ev != [] {
      TotalsAreSums(ev[..|ev| - 1], side, lo, hi);
      var e, rest := ev[|ev| - 1], Estimates(ev[..|ev| - 1], side, lo, hi);
      if e.Sample? {
        Statistics.SumConcat(rest, [e.qd]);
      }
    }
  }

  /** The differences of running totals that a window hands to Stdev never make it take the root of a negative number. */
  lemma WindowErrorIsReal(v: bool, ev: seq<Event>, side: Side, s: int)
    requires ReportAt(v, ev, side, s).samples > 2
    ensures var r := ReportAt(v, ev, side, s); Statistics.Radicand(r.sum, r.sum2, r.samples) >= 0.0
  {
    TotalsAreSums(ev, side, s, s + 1);
    Statistics.RadicandNeverNegative(Estimates(ev, side, s, s + 1));
  }
}
