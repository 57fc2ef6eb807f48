/** The statistics over windows: each direction counts the windows in which it had samples, and adds up their means. */
module WindowTotals {
  import opened Common
  import opened Windows

  /** The columns of one direction in the line of a closed window. */
  function Columns(line: Line, side: Side): Report {
    if side == C2S then line.first else line.second
  }

  datatype Sums = Sums(windows: int, means: int, squares: int)

  /** What a line adds for one direction: nothing without samples. */
  function OfLine(line: Line, side: Side): Sums {
    var r := Columns(line, side);
    if r.samples == 0 then Sums(0, 0, 0) else Sums(1, r.mean, r.mean * r.mean)
  }

  function Add(a: Sums, b: Sums): Sums {
    Sums(a.windows + b.windows, a.means + b.means, a.squares + b.squares)
  }

  function OfLog(log: seq<Line>, side: Side): Sums {
    if log == [] then Sums(0, 0, 0) else Add(OfLog(log[..|log| - 1], side), OfLine(log[|log| - 1], side))
  }

  /** The totals of a direction are those of its columns in the log. */
  predicate TotalsOk(d: Dir, log: seq<Line>, side: Side) {
    Sums(d.notVoid, d.winSum, d.winSum2) == OfLog(log, side)
  }

  lemma OfLogAppend(log: seq<Line>, line: Line, side: Side)
    ensures OfLog(log + [line], side) == Add(OfLog(log, side), OfLine(line, side))
  {
    assert (log + [line])[..|log|] == log;
  }

  predicate NoSamples(lines: seq<Line>) {
    forall i :: 0 <= i < |lines| ==> lines[i].first.samples == 0 == lines[i].second.samples
  }

  const NONE := Sums(0, 0, 0)

  lemma EmptyLine(log: seq<Line>, line: Line, side: Side)
    requires line.first.samples == 0 == line.second.samples
    ensures OfLog(log + [line], side) == OfLog(log, side)
  {
    assert OfLine(line, side) == NONE;
    OfLogAppend(log, line, side);
    AddNone(OfLog(log, side));
  }

  lemma AddNone(a: Sums)
    ensures Add(a, NONE) == a
  {
  }

  lemma {:induction false} EmptyLinesAddNothing(log: seq<Line>, lines: seq<Line>, side: Side)
    requires NoSamples(lines)
    ensures OfLog(log + lines, side) == OfLog(log, side)
    decreases |lines|
  {
    if lines == [] {
      assert log + lines == log;
    } else {
      var next := log + [lines[0]];
      assert OfLog(next, side) == OfLog(log, side) by {
        EmptyLine(log, lines[0], side);
      }
      assert next + lines[1..] == log + lines;
      EmptyLinesAddNothing(next, lines[1..], side);
    }
  }

  lemma {:induction false} VoidsAreEmpty(v: bool, mine: Dir, other: Dir, edge: int)
    requires Samples(mine) == 0 == Samples(other) && Voids(v, mine, other, edge).Some?
    ensures NoSamples(Voids(v, mine, other, edge).value)
    decreases mine.lastEdge - edge
  {
    if edge < mine.lastEdge {
      VoidsAreEmpty(v, Printed(mine, edge), Printed(other, edge), edge + 1);
    }
  }

  lemma ClosedAdds(v: bool, d: Dir, now: int, line: Line, side: Side)
    requires Columns(line, side) == ReportOf(v, d)
    ensures var c := Closed(v, d, now);
            Sums(c.notVoid, c.winSum, c.winSum2) == Add(Sums(d.notVoid, d.winSum, d.winSum2), OfLine(line, side))
  {
  }

  /** Closing a direction adds exactly its columns of the new line. */
  lemma ClosedTotals(v: bool, d: Dir, now: int, log: seq<Line>, line: Line, side: Side)
    requires TotalsOk(d, log, side) && Columns(line, side) == ReportOf(v, d)
    ensures TotalsOk(Closed(v, d, now), log + [line], side)
  {
    ClosedAdds(v, d, now, line, side);
    OfLogAppend(log, line, side);
  }

  predicate BothOk(st: Stats) {
    TotalsOk(st.c2s, st.log, C2S) && TotalsOk(st.s2c, st.log, S2C)
  }

  lemma ClosedHasNoSamples(v: bool, d: Dir, now: int)
    ensures Samples(Closed(v, d, now)) == 0
  {
  }

  /** One direction after the close and after the lines of the seconds without packets. */
  lemma SideKeepsTotals(v: bool, d: Dir, now: int, log: seq<Line>, line: Line, voids: seq<Line>, side: Side)
    requires TotalsOk(d, log, side) && Columns(line, side) == ReportOf(v, d) && NoSamples(voids)
    ensures TotalsOk(Closed(v, d, now), log + [line] + voids, side)
  {
    ClosedTotals(v, d, now, log, line, side);
    EmptyLinesAddNothing(log + [line], voids, side);
  }

  lemma VoidsOfClose(v: bool, mine: Dir, other: Dir, edge: int, now: int)
    requires var a, b := Closed(v, Printed(mine, edge), now), Closed(v, Printed(other, edge), now).(lastQd := 0);
             Voids(v, a, b, edge + 1).Some?
    ensures var a, b := Closed(v, Printed(mine, edge), now), Closed(v, Printed(other, edge), now).(lastQd := 0);
            NoSamples(Voids(v, a, b, edge + 1).value)
  {
    ClosedHasNoSamples(v, Printed(mine, edge), now);
    ClosedHasNoSamples(v, Printed(other, edge), now);
    VoidsAreEmpty(v, Closed(v, Printed(mine, edge), now), Closed(v, Printed(other, edge), now).(lastQd := 0), edge + 1);
  }

  lemma PutKeepsTotals(st: Stats, side: Side, a: Dir, b: Dir)
    requires TotalsOk(a, st.log, side) && TotalsOk(b, st.log, Flip(side))
    ensures BothOk(Put(st, side, a, b))
  {
  }

  /** Both directions after the close; last is the edge of the last line. */
  lemma PairKeepsTotals(v: bool, st: Stats, side: Side, now: int, voids: seq<Line>, last: int)
    requires BothOk(st) && NoSamples(voids)
    ensures var mine, other := Of(st, side), Of(st, Flip(side));
            var log := st.log + [WindowLine(v, side, mine, other)] + voids;
            BothOk(Put(st.(log := log), side, Printed(Closed(v, Printed(mine, mine.lastEdge), now), last),
                       Printed(Closed(v, Printed(other, mine.lastEdge), now).(lastQd := 0), last)))
  {
    var mine, other := Of(st, side), Of(st, Flip(side));
    var line := WindowLine(v, side, mine, other);
    var edge, log := mine.lastEdge, st.log + [line] + voids;
    SideKeepsTotals(v, Printed(mine, edge), now, st.log, line, voids, side);
    SideKeepsTotals(v, Printed(other, edge), now, st.log, line, voids, Flip(side));
    PutKeepsTotals(st.(log := log), side, Printed(Closed(v, Printed(mine, edge), now), last),
                   Printed(Closed(v, Printed(other, edge), now).(lastQd := 0), last));
  }

  lemma CloseKeepsTotals(v: bool, st: Stats, side: Side, now: int)
    requires BothOk(st) && CloseBoth(v, st, side, now).Some?
    ensures BothOk(CloseBoth(v, st, side, now).value)
  {
    var mine, other := Of(st, side), Of(st, Flip(side));
    var edge := mine.lastEdge;
    if !MayClose(v, mine, other, now) {
      CloseBothFails(v, st, side, now);
    } else {
      var a, b := Closed(v, Printed(mine, edge), now), Closed(v, Printed(other, edge), now).(lastQd := 0);
      var voids := if v then Voids(v, a, b, edge + 1) else Some([]);
      CloseBothUnfolds(v, st, side, now, a, b, voids);
      if v {
        VoidsOfClose(v, mine, other, edge, now);
      }
      PairKeepsTotals(v, st, side, now, voids.value, if v then now - 1 else edge);
    }
  }

  lemma WindowedKeepsTotals(v: bool, st: Stats, side: Side, now: int)
    requires BothOk(st) && Windowed(v, st, side, now).Some?
    ensures BothOk(Windowed(v, st, side, now).value)
  {
    var mine, other := Of(st, side), Of(st, Flip(side));
    if mine.lastEdge != 0 && now != mine.lastEdge && Consistent(v, mine, other) {
      CloseKeepsTotals(v, st, side, now);
    }
  }

  lemma StepKeepsTotals(v: bool, st: Stats, e: Event)
    requires BothOk(st) && Step(v, st, e).Some?
    ensures BothOk(Step(v, st, e).value)
  {
    WindowedKeepsTotals(v, st, e.side, e.sec);
  }

  /** After any run, the windowed totals of each direction are the number, sum and sum of squares of the means it logged. */
  lemma {:induction false} WindowTotalsMatchLog(v: bool, ev: seq<Event>)
    requires Run(v, ev).Some?
    ensures BothOk(Run(v, ev).value)
  {
    if ev != [] {
      var rest := ev[..|ev| - 1];
      WindowTotalsMatchLog(v, rest);
      StepKeepsTotals(v, Run(v, rest).value, ev[|ev| - 1]);
    }
  }
}
