/**
 The statistics records of both directions of a connection, updated in place, and the log they are printed to. Methods
 return false where a self-check ends the program.
 */
module UtpStats {
  import opened Common
  import opened Windows
  import BaseDelay
  import DelayHistory

  class Log {
    var lines: seq<Line>

    constructor ()
      ensures lines == []
    {
      lines := [];
    }
  }

  class UtpStat {
    var qdMeasuredCount: int
    var qdCalculationChances: int
    var qdMeasuredSum: int
    var qdMeasuredSum2: int
    var grossDlyMeasuredSum: int
    var qdSamplesUntilLastWindow: int
    var qdCalculationChancesUntilLastWindow: int
    var sampleQdSumUntilLastWindow: int
    var sampleQdSum2UntilLastWindow: int
    var grossDlySumUntilLastWindow: int
    var notVoidWindows: int
    var windowedQdSum: int
    var windowedQdSum2: int
    var lastPrintedWindowEdge: int
    var lastWindowEdge: int
    var lastUnwindowedQdSample: int

    ghost function Value(): Dir
      reads this
    {
      Dir(qdMeasuredCount, qdCalculationChances, qdMeasuredSum, qdMeasuredSum2, grossDlyMeasuredSum,
          qdSamplesUntilLastWindow, qdCalculationChancesUntilLastWindow, sampleQdSumUntilLastWindow,
          sampleQdSum2UntilLastWindow, grossDlySumUntilLastWindow, notVoidWindows, windowedQdSum, windowedQdSum2,
          lastPrintedWindowEdge, lastWindowEdge, lastUnwindowedQdSample)
    }

    constructor ()
      ensures Value() == FRESH
    {
      qdMeasuredCount, qdCalculationChances, qdMeasuredSum, qdMeasuredSum2, grossDlyMeasuredSum := 0, 0, 0, 0, 0;
      qdSamplesUntilLastWindow, qdCalculationChancesUntilLastWindow, sampleQdSumUntilLastWindow := 0, 0, 0;
      sampleQdSum2UntilLastWindow, grossDlySumUntilLastWindow, notVoidWindows, windowedQdSum := 0, 0, 0, 0;
      windowedQdSum2, lastPrintedWindowEdge, lastWindowEdge, lastUnwindowedQdSample := 0, 0, 0, 0;
    }

    /** The columns of this direction, and whether the checks before printing them pass. */
    method PrintLastWindowDirectional(v: bool, qdWindow: int) returns (ok: bool, r: Report)
      requires qdWindow == Mean(Value())
      ensures ok == Printable(v, Value()) && r == ReportOf(v, Value())
    {
      var samples := qdMeasuredCount - qdSamplesUntilLastWindow;
      var chances := qdCalculationChances - qdCalculationChancesUntilLastWindow;
      var grossWindow := -1;
      ok := samples >= 0 && (v ==> samples <= chances);
      if samples > 0 {
        grossWindow := CDiv(grossDlyMeasuredSum - grossDlySumUntilLastWindow, samples);
        ok := ok && grossWindow >= 0;
      }
      ok := ok && grossWindow >= qdWindow;
      r := Report(if v then chances else -1, samples, qdMeasuredSum - sampleQdSumUntilLastWindow,
                  qdMeasuredSum2 - sampleQdSum2UntilLastWindow, qdWindow, grossWindow, qdMeasuredSum);
    }

    method UpdateBufferbloatWindowedValues(v: bool, windowQd: int, samples: int) returns (ok: bool)
      requires samples == Samples(Value()) && windowQd == Mean(Value()) && samples >= 0
      modifies this
      ensures var d := old(Value());
              ok == ((samples == 0 ==> d.sumSnap == d.sum && d.sum2Snap == d.sum2 && d.grossSnap == d.gross)
                     && (v ==> d.chances <= MOST_CHANCES))
      ensures Value() == Closed(v, old(Value()), old(lastWindowEdge))
    {
      ok := samples == 0 ==> sampleQdSumUntilLastWindow == qdMeasuredSum && sampleQdSum2UntilLastWindow == qdMeasuredSum2 &&
                             grossDlySumUntilLastWindow == grossDlyMeasuredSum;
      if samples != 0 {
        sampleQdSumUntilLastWindow := qdMeasuredSum;
        qdSamplesUntilLastWindow := qdMeasuredCount;
        sampleQdSum2UntilLastWindow := qdMeasuredSum2;
        notVoidWindows := notVoidWindows + 1;
        windowedQdSum := windowedQdSum + windowQd;
        windowedQdSum2 := windowedQdSum2 + windowQd * windowQd;
        grossDlySumUntilLastWindow := grossDlyMeasuredSum;
      }
      assert Value() == Snapped(old(Value()));
      if v {
        qdCalculationChancesUntilLastWindow := qdCalculationChances;
        ok := ok && qdCalculationChancesUntilLastWindow <= MOST_CHANCES;
      }
    }

    method CloseWindow(v: bool, now: int) returns (ok: bool, r: Report)
      modifies this
      ensures ok == Closable(v, old(Value()), now)
      ensures ok ==> r == ReportOf(v, old(Value())) && Value() == Closed(v, old(Value()), now)
    {
      r := Report(0, 0, 0, 0, 0, 0, 0);
      ok := now > lastWindowEdge && qdMeasuredCount >= qdSamplesUntilLastWindow;
      if !ok { return; }
      var samples := qdMeasuredCount - qdSamplesUntilLastWindow;
      var qdWindow, sum := -1, -1;
      if samples != 0 {
        sum := qdMeasuredSum - sampleQdSumUntilLastWindow;
        ok := !(sum <= 0 && lastUnwindowedQdSample != 0);
        if !ok { return; }
        qdWindow := CDiv(sum, samples);
      }
      ok := qdMeasuredSum - sampleQdSumUntilLastWindow >= 0 && sampleQdSumUntilLastWindow >= 0 &&
            grossDlyMeasuredSum - grossDlySumUntilLastWindow >= sum;
      if !ok { return; }
      ok, r := PrintLastWindowDirectional(v, qdWindow);
      if !ok { return; }
      ok := UpdateBufferbloatWindowedValues(v, qdWindow, samples);
      lastWindowEdge := now;
    }
  }

  /** Both records and the log as the state of the model. */
  ghost function State(mine: UtpStat, other: UtpStat, log: Log, side: Side): Stats
    reads mine, other, log
  {
    if side == C2S then Stats(mine.Value(), other.Value(), log.lines) else Stats(other.Value(), mine.Value(), log.lines)
  }

  method CheckDirection(v: bool, d: UtpStat) returns (ok: bool)
    ensures ok == DirConsistent(v, d.Value())
  {
    ok := d.grossDlyMeasuredSum - d.grossDlySumUntilLastWindow >= d.qdMeasuredSum - d.sampleQdSumUntilLastWindow &&
          d.qdSamplesUntilLastWindow <= d.qdMeasuredCount &&
          (v ==> d.qdCalculationChancesUntilLastWindow <= d.qdCalculationChances &&
                 d.qdMeasuredCount <= d.qdCalculationChances &&
                 d.qdSamplesUntilLastWindow <= d.qdCalculationChancesUntilLastWindow);
  }

  method CheckDirectionConsistencyLight(v: bool, mine: UtpStat, other: UtpStat) returns (ok: bool)
    ensures ok == Consistent(v, mine.Value(), other.Value())
  {
    var a := CheckDirection(v, mine);
    var b := CheckDirection(v, other);
    ok := mine.lastPrintedWindowEdge == other.lastPrintedWindowEdge && mine.lastWindowEdge == other.lastWindowEdge && a && b;
  }

  /** One line about a second without packets. */
  method PrintVoidWindow(v: bool, mine: UtpStat, other: UtpStat, edge: int, now: int) returns (ok: bool, line: Line)
    requires Samples(mine.Value()) == 0 == Samples(other.Value())
    ensures ok == (LineInOrder(v, mine.Value(), edge, now) && Printable(v, mine.Value()) && Printable(v, other.Value()))
    ensures line == VoidLine(v, mine.Value(), other.Value(), edge)
  {
    ok := edge > mine.lastPrintedWindowEdge &&
          (v && mine.lastPrintedWindowEdge != 0 ==> edge == mine.lastPrintedWindowEdge + 1) && edge < now;
    var okA, first := mine.PrintLastWindowDirectional(v, -1);
    var okB, second := other.PrintLastWindowDirectional(v, -1);
    ok := ok && okA && okB;
    line := Line(edge, first, second);
  }

  lemma VoidsStep(v: bool, a: Dir, b: Dir, edge: int)
    requires edge < a.lastEdge
    requires LineInOrder(v, a, edge, a.lastEdge) && Printable(v, a) && Printable(v, b)
    ensures match Voids(v, Printed(a, edge), Printed(b, edge), edge + 1)
            case None => Voids(v, a, b, edge) == None
            case Some(rest) => Voids(v, a, b, edge) == Some([VoidLine(v, a, b, edge)] + rest)
  {
  }

  /** The lines still to come, after the ones in done; None if a check fails on the way. */
  function Prepend(done: seq<Line>, rest: Option<seq<Line>>): (r: Option<seq<Line>>)
    ensures done == [] ==> r == rest
  {
    match rest
    case None => None
    case Some(lines) => assert done == [] ==> done + lines == lines; Some(done + lines)
  }

  lemma PrependStep(done: seq<Line>, line: Line, rest: Option<seq<Line>>, all: Option<seq<Line>>)
    requires match rest case None => all == None case Some(r) => all == Some([line] + r)
    ensures Prepend(done, all) == Prepend(done + [line], rest)
  {
    if rest.Some? {
      assert done + ([line] + rest.value) == done + [line] + rest.value;
    }
  }

  /** One round of the loop over the seconds without packets. */
  method PrintAndAdvance(v: bool, mine: UtpStat, other: UtpStat, log: Log, edge: int, now: int) returns (ok: bool, line: Line)
    requires mine != other && edge < now == mine.lastWindowEdge
    requires Samples(mine.Value()) == 0 == Samples(other.Value())
    modifies mine`lastPrintedWindowEdge, other`lastPrintedWindowEdge, log
    ensures ok ==> mine.Value() == Printed(old(mine.Value()), edge) && other.Value() == Printed(old(other.Value()), edge)
                   && log.lines == old(log.lines) + [line]
    ensures !ok ==> Voids(v, old(mine.Value()), old(other.Value()), edge) == None
    ensures ok ==> var all, rest := Voids(v, old(mine.Value()), old(other.Value()), edge), Voids(v, mine.Value(), other.Value(), edge + 1);
                   match rest case None => all == None case Some(r) => all == Some([line] + r)
  {
    ghost var x, y := mine.Value(), other.Value();
    ok, line := PrintVoidWindow(v, mine, other, edge, now);
    if !ok { return; }
    VoidsStep(v, x, y, edge);
    log.lines := log.lines + [line];
    mine.lastPrintedWindowEdge := edge;
    other.lastPrintedWindowEdge := edge;
  }

  /** The loop over the seconds without packets; both directions are closed. */
  method PrintVoidWindows(v: bool, mine: UtpStat, other: UtpStat, log: Log, first: int, now: int) returns (ok: bool)
    requires mine != other && first <= now && mine.lastWindowEdge == now
    requires Samples(mine.Value()) == 0 == Samples(other.Value())
    requires mine.lastPrintedWindowEdge == other.lastPrintedWindowEdge == first - 1
    modifies mine`lastPrintedWindowEdge, other`lastPrintedWindowEdge, log
    ensures var voids := Voids(v, old(mine.Value()), old(other.Value()), first);
            && ok == voids.Some?
            && (ok ==> mine.Value() == Printed(old(mine.Value()), now - 1) && other.Value() == Printed(old(other.Value()), now - 1)
                       && log.lines == old(log.lines) + voids.value)
  {
    var edge := first;
    ghost var a, b := mine.Value(), other.Value();
    ghost var done: seq<Line> := [];
    while edge < mine.lastWindowEdge
      invariant first <= edge <= now == mine.lastWindowEdge
      invariant mine.Value() == Printed(a, edge - 1) && other.Value() == Printed(b, edge - 1)
      invariant log.lines == old(log.lines) + done
      invariant Prepend(done, Voids(v, mine.Value(), other.Value(), edge)) == Voids(v, a, b, first)
    {
      ghost var all := Voids(v, mine.Value(), other.Value(), edge);
      var line;
      ok, line := PrintAndAdvance(v, mine, other, log, edge, now);
      if !ok { return; }
      PrependStep(done, line, Voids(v, mine.Value(), other.Value(), edge + 1), all);
      done := done + [line];
      edge := edge + 1;
    }
    ok := true;
  }

  /** close_window for both directions, client to server first; the line is complete when both pass. */
  method CloseInOrder(v: bool, mine: UtpStat, other: UtpStat, side: Side, now: int) returns (ok: bool, first: Report, second: Report)
    requires mine != other
    modifies mine, other
    ensures ok == (Closable(v, old(mine.Value()), now) && Closable(v, old(other.Value()), now))
    ensures ok ==> mine.Value() == Closed(v, old(mine.Value()), now) && other.Value() == Closed(v, old(other.Value()), now)
    ensures ok ==> first == ReportOf(v, old(if side == C2S then mine.Value() else other.Value()))
                   && second == ReportOf(v, old(if side == C2S then other.Value() else mine.Value()))
  {
    var again;
    if side == C2S {
      ok, first := mine.CloseWindow(v, now);
      again, second := other.CloseWindow(v, now);
    } else {
      ok, first := other.CloseWindow(v, now);
      again, second := mine.CloseWindow(v, now);
    }
    ok := ok && again;
  }

  /** The checks before a window is closed, other than those of close_window. */
  method CheckBeforeClose(v: bool, mine: UtpStat, other: UtpStat, now: int) returns (ok: bool)
    ensures ok == (LineInOrder(v, mine.Value(), mine.lastWindowEdge, now) && SeenSomething(v, mine.Value(), other.Value()))
  {
    ok := mine.lastWindowEdge > mine.lastPrintedWindowEdge &&
          (v && mine.lastPrintedWindowEdge != 0 ==> mine.lastWindowEdge == mine.lastPrintedWindowEdge + 1) &&
          mine.lastWindowEdge < now;
    if v {
      ok := ok && (mine.qdCalculationChances - mine.qdCalculationChancesUntilLastWindow > 0 ||
                   other.qdCalculationChances - other.qdCalculationChancesUntilLastWindow > 0);
    } else {
      ok := ok && (mine.qdMeasuredCount - mine.qdSamplesUntilLastWindow > 0 ||
                   other.qdMeasuredCount - other.qdSamplesUntilLastWindow > 0);
    }
  }

  /** The checks after both directions are closed. */
  method CheckAfterClose(v: bool, mine: UtpStat, other: UtpStat) returns (ok: bool)
    ensures ok == AllAbsorbed(v, mine.Value(), other.Value())
  {
    ok := mine.qdMeasuredCount == mine.qdSamplesUntilLastWindow && other.qdMeasuredCount == other.qdSamplesUntilLastWindow &&
          (v ==> mine.qdCalculationChances == mine.qdCalculationChancesUntilLastWindow &&
                 other.qdCalculationChances == other.qdCalculationChancesUntilLastWindow);
    var consistent := CheckDirectionConsistencyLight(v, mine, other);
    ok := ok && consistent;
  }

  /** What follows the close of both directions: the seconds without packets, then the checks. */
  method PrintRest(v: bool, mine: UtpStat, other: UtpStat, log: Log, edge: int, now: int) returns (ok: bool)
    requires mine != other && edge < now && mine.lastWindowEdge == now
    requires Samples(mine.Value()) == 0 == Samples(other.Value())
    requires mine.lastPrintedWindowEdge == other.lastPrintedWindowEdge == edge
    modifies mine`lastPrintedWindowEdge, other`lastPrintedWindowEdge, log
    ensures var a, b, last := old(mine.Value()), old(other.Value()), if v then now - 1 else edge;
            var voids := if v then Voids(v, a, b, edge + 1) else Some([]);
            && ok == (voids.Some? && AllAbsorbed(v, Printed(a, last), Printed(b, last)))
            && (ok ==> mine.Value() == Printed(a, last) && other.Value() == Printed(b, last)
                       && log.lines == old(log.lines) + voids.value)
  {
    if v {
      ok := PrintVoidWindows(v, mine, other, log, edge + 1, now);
      if !ok { return; }
    }
    ok := CheckAfterClose(v, mine, other);
  }

  /** The checks before the close and the close itself; the line is the one to be printed. */
  method CloseWindows(v: bool, mine: UtpStat, other: UtpStat, side: Side, now: int) returns (ok: bool, line: Line)
    requires mine != other && mine.lastWindowEdge == other.lastWindowEdge && mine.lastPrintedWindowEdge == other.lastPrintedWindowEdge
    modifies mine, other
    ensures ok == MayClose(v, old(mine.Value()), old(other.Value()), now)
    ensures ok ==> var edge := old(mine.lastWindowEdge);
                   && mine.Value() == Closed(v, Printed(old(mine.Value()), edge), now)
                   && other.Value() == Closed(v, Printed(old(other.Value()), edge), now).(lastQd := 0)
                   && line == WindowLine(v, side, old(mine.Value()), old(other.Value()))
  {
    var edge := mine.lastWindowEdge;
    line := Line(edge, Report(0, 0, 0, 0, 0, 0, 0), Report(0, 0, 0, 0, 0, 0, 0));
    ok := CheckBeforeClose(v, mine, other, now);
    if !ok { return; }
    mine.lastPrintedWindowEdge := edge;
    other.lastPrintedWindowEdge := edge;
    var first, second;
    ok, first, second := CloseInOrder(v, mine, other, side, now);
    other.lastUnwindowedQdSample := 0;
    line := Line(edge, first, second);
  }

  /** The closing branch of windowed_queueing_delay. */
  method CloseBothWindows(v: bool, mine: UtpStat, other: UtpStat, log: Log, side: Side, now: int) returns (ok: bool)
    requires mine != other && mine.lastWindowEdge == other.lastWindowEdge && mine.lastPrintedWindowEdge == other.lastPrintedWindowEdge
    modifies mine, other, log
    ensures var r := CloseBoth(v, old(State(mine, other, log, side)), side, now);
            ok == r.Some? && (ok ==> State(mine, other, log, side) == r.value)
  {
    var edge := mine.lastWindowEdge;
    ghost var st := State(mine, other, log, side);
    var line;
    ok, line := CloseWindows(v, mine, other, side, now);
    if !ok {
      CloseBothFails(v, st, side, now);
      return;
    }
    ghost var a, b := mine.Value(), other.Value();
    CloseBothUnfolds(v, st, side, now, a, b, if v then Voids(v, a, b, edge + 1) else Some([]));
    log.lines := log.lines + [line];
    ok := PrintRest(v, mine, other, log, edge, now);
  }

  method WindowedQueueingDelay(v: bool, mine: UtpStat, other: UtpStat, log: Log, side: Side, now: int) returns (ok: bool)
    requires mine != other
    modifies mine, other, log
    ensures var r := Windowed(v, old(State(mine, other, log, side)), side, now);
            ok == r.Some? && (ok ==> State(mine, other, log, side) == r.value)
  {
    ok := CheckDirectionConsistencyLight(v, mine, other);
    if !ok { return; }
    if mine.lastWindowEdge == 0 {
      mine.lastWindowEdge := now;
      other.lastWindowEdge := now;
    } else if now != mine.lastWindowEdge {
      ok := CloseBothWindows(v, mine, other, log, side, now);
    }
  }

  method ChanceIsNotValid(mine: UtpStat, other: UtpStat, log: Log, side: Side, now: int) returns (ok: bool)
    requires mine != other
    modifies mine, other, log
    ensures var r := NotValid(true, old(State(mine, other, log, side)), side, now);
            ok == r.Some? && (ok ==> State(mine, other, log, side) == r.value)
  {
    ok := WindowedQueueingDelay(true, mine, other, log, side, now);
    if !ok { return; }
    mine.qdCalculationChances := mine.qdCalculationChances + 1;
    mine.lastUnwindowedQdSample := 0;
  }

  method SeesSomething(v: bool, a: UtpStat, b: UtpStat) returns (ok: bool)
    ensures ok == SeenSomething(v, a.Value(), b.Value())
  {
    if v {
      ok := a.qdCalculationChances - a.qdCalculationChancesUntilLastWindow > 0 ||
            b.qdCalculationChances - b.qdCalculationChancesUntilLastWindow > 0;
    } else {
      ok := a.qdMeasuredCount - a.qdSamplesUntilLastWindow > 0 || b.qdMeasuredCount - b.qdSamplesUntilLastWindow > 0;
    }
  }

  /** The self-checks of bufferbloat_analysis before the packet is handled. */
  method CheckBeforeAnalysis(v: bool, mine: UtpStat, other: UtpStat) returns (ok: bool)
    ensures ok == (Consistent(v, mine.Value(), other.Value()) && LastSampleKept(mine.Value()) &&
                   !(mine.notVoidWindows != 0 && other.notVoidWindows != 0 && !SeenSomething(v, mine.Value(), other.Value())))
  {
    ok := CheckDirectionConsistencyLight(v, mine, other);
    var seen := SeesSomething(v, mine, other);
    ok := ok && !(mine.qdMeasuredSum - mine.sampleQdSumUntilLastWindow <= 0 && mine.lastUnwindowedQdSample != 0) &&
          (seen || mine.notVoidWindows == 0 || other.notVoidWindows == 0);
  }

  /** The self-checks after it is counted. */
  method CheckAfterAnalysis(v: bool, mine: UtpStat, other: UtpStat) returns (ok: bool)
    ensures ok == (Consistent(v, mine.Value(), other.Value()) && LastSampleKept(mine.Value()) &&
                   !(mine.notVoidWindows != 0 && other.notVoidWindows != 0 && !SeenSomething(v, mine.Value(), mine.Value())))
  {
    ok := CheckDirectionConsistencyLight(v, mine, other);
    var seen := SeesSomething(v, mine, mine);
    ok := ok && !(mine.qdMeasuredSum - mine.sampleQdSumUntilLastWindow <= 0 && mine.lastUnwindowedQdSample != 0) &&
          (seen || mine.notVoidWindows == 0 || other.notVoidWindows == 0);
  }

  method CountSample(v: bool, d: UtpStat, qd: int, gross: int)
    modifies d
    ensures d.Value() == Counted(v, old(d.Value()), qd, gross)
  {
    if v {
      d.qdCalculationChances := d.qdCalculationChances + 1;
    }
    d.qdMeasuredCount := d.qdMeasuredCount + 1;
    d.qdMeasuredSum := d.qdMeasuredSum + qd;
    d.qdMeasuredSum2 := d.qdMeasuredSum2 + qd * qd;
    d.lastUnwindowedQdSample := qd;
    d.grossDlyMeasuredSum := d.grossDlyMeasuredSum + gross;
  }

  /** bufferbloat_analysis once the estimate qd is known. */
  method AnalyseSample(v: bool, mine: UtpStat, other: UtpStat, log: Log, side: Side, now: int, qd: int, gross: int) returns (ok: bool)
    requires mine != other
    modifies mine, other, log
    ensures var r := Analyse(v, old(State(mine, other, log, side)), side, now, qd, gross);
            ok == r.Some? && (ok ==> State(mine, other, log, side) == r.value)
  {
    ok := CheckBeforeAnalysis(v, mine, other);
    if !ok { return; }
    ok := WindowedQueueingDelay(v, mine, other, log, side, now);
    if !ok { return; }
    CountSample(v, mine, qd, gross);
    ok := CheckAfterAnalysis(v, mine, other);
  }

  /** The delay part of bufferbloat_analysis; time is in microseconds. */
  method Measure(delays: DelayHistory.UtpDelays, filtering: bool, gross: int, now: int) returns (qd: int)
    requires delays.Valid()
    modifies delays, delays.delayBaseHist, delays.curGrossDelayHist
    ensures delays.Valid() && delays.Value() == BaseDelay.Updated(old(delays.Value()), filtering, gross, now)
    ensures qd == BaseDelay.QueueingDelay(delays.Value(), filtering)
  {
    delays.UpdateGrossDelayRelatedStuff(filtering, gross, now);
    qd := delays.GetQueueingDelay(filtering);
  }

  /** bufferbloat_analysis: the delay histories of the direction give the estimate that is counted. */
  method BufferbloatAnalysis(v: bool, filtering: bool, delays: DelayHistory.UtpDelays, mine: UtpStat, other: UtpStat, log: Log,
                             side: Side, sec: int, usec: int, gross: int)
    returns (ok: bool, qd: int)
    requires mine != other && delays.Valid()
    modifies mine, other, log, delays, delays.delayBaseHist, delays.curGrossDelayHist
    ensures delays.Valid()
    ensures delays.Value() == BaseDelay.Updated(old(delays.Value()), filtering, gross, sec * 1_000_000 + usec)
    ensures qd == BaseDelay.QueueingDelay(delays.Value(), filtering)
    ensures var r := Analyse(v, old(State(mine, other, log, side)), side, sec, qd, gross);
            ok == r.Some? && (ok ==> State(mine, other, log, side) == r.value)
  {
    qd := Measure(delays, filtering, gross, sec * 1_000_000 + usec);
    ok := AnalyseSample(v, mine, other, log, side, sec, qd, gross);
  }
}
