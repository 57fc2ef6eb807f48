/**
 The one-second windows over the queueing-delay samples of both directions of a connection. Each direction keeps running
 totals and a copy of them taken when the last window was closed. The self-checks that end the program (SEVERE_DEBUG) are
 part of the model: a step that trips one has no successor state.
 */
module Windows {

  import opened Common

  datatype Side = C2S | S2C

  function Flip(s: Side): Side {
    if s == C2S then S2C else C2S
  }

  /** The most chances a direction may have counted when a window is closed. */
  const MOST_CHANCES := 1_000_000

  /** The running totals of one direction; names ending in Snap are the values at the last close. */
  datatype Dir = Dir(count: int, chances: int, sum: int, sum2: int, gross: int,
                     countSnap: int, chancesSnap: int, sumSnap: int, sum2Snap: int, grossSnap: int,
                     notVoid: int, winSum: int, winSum2: int, lastPrinted: int, lastEdge: int, lastQd: int)

  /** What one direction contributes to a line of the log; -1 stands for a dash. */
  datatype Report = Report(chances: int, samples: int, sum: int, sum2: int, mean: int, grossMean: int, total: int)

  /** A line of the log: the left edge of the window, then the two groups of columns in the order they are written. */
  datatype Line = Line(edge: int, first: Report, second: Report)

  datatype Stats = Stats(c2s: Dir, s2c: Dir, log: seq<Line>)

  const FRESH := Dir(0, 0, 0, 0, 0, 0, 0, 0, 0, 0, 0, 0, 0, 0, 0, 0)
  const START := Stats(FRESH, FRESH, [])

  function Of(st: Stats, side: Side): Dir {
    if side == C2S then st.c2s else st.s2c
  }

  function Put(st: Stats, side: Side, mine: Dir, other: Dir): Stats {
    if side == C2S then st.(c2s := mine, s2c := other) else st.(c2s := other, s2c := mine)
  }

  /** The integer mean of n values, -1 for none. */
  function MeanOf(sum: int, n: int): int {
    if n > 0 then CDiv(sum, n) else -1
  }

  function Samples(d: Dir): int {
    d.count - d.countSnap
  }

  function Mean(d: Dir): int {
    MeanOf(d.sum - d.sumSnap, Samples(d))
  }

  function GrossMean(d: Dir): int {
    MeanOf(d.gross - d.grossSnap, Samples(d))
  }

  /** print_last_window_directional. */
  function ReportOf(v: bool, d: Dir): Report {
    Report(if v then d.chances - d.chancesSnap else -1, Samples(d), d.sum - d.sumSnap, d.sum2 - d.sum2Snap, Mean(d),
           GrossMean(d), d.sum)
  }

  // ---- the self-checks ----

  /** check_direction_consistency_light, the part about one direction. */
  predicate DirConsistent(v: bool, d: Dir) {
    && d.gross - d.grossSnap >= d.sum - d.sumSnap
    && d.countSnap <= d.count
    && (v ==> d.chancesSnap <= d.chances && d.count <= d.chances && d.countSnap <= d.chancesSnap)
  }

  predicate Consistent(v: bool, a: Dir, b: Dir) {
    a.lastPrinted == b.lastPrinted && a.lastEdge == b.lastEdge && DirConsistent(v, a) && DirConsistent(v, b)
  }

  /** Something was seen in one of the directions since the last close. */
  predicate SeenSomething(v: bool, a: Dir, b: Dir) {
    if v then a.chances - a.chancesSnap > 0 || b.chances - b.chancesSnap > 0 else Samples(a) > 0 || Samples(b) > 0
  }

  /** A non-zero last sample has not been lost. */
  predicate LastSampleKept(d: Dir) {
    !(d.sum - d.sumSnap <= 0 && d.lastQd != 0)
  }

  /** The checks of print_last_window_general for a line about second edge. */
  predicate LineInOrder(v: bool, d: Dir, edge: int, now: int) {
    edge > d.lastPrinted && (v && d.lastPrinted != 0 ==> edge == d.lastPrinted + 1) && edge < now
  }

  /** The checks of print_last_window_directional. */
  predicate Printable(v: bool, d: Dir) {
    && Samples(d) >= 0
    && (v ==> Samples(d) <= d.chances - d.chancesSnap)
    && (Samples(d) > 0 ==> GrossMean(d) >= 0)
    && GrossMean(d) >= Mean(d)
  }

  /** The checks of close_window and update_bufferbloat_windowed_values. */
  predicate Closable(v: bool, d: Dir, now: int) {
    && now > d.lastEdge
    && (Samples(d) > 0 ==> LastSampleKept(d))
    && d.sum - d.sumSnap >= 0 && d.sumSnap >= 0
    && d.gross - d.grossSnap >= (if Samples(d) > 0 then d.sum - d.sumSnap else -1)
    && Printable(v, d)
    && (Samples(d) == 0 ==> d.sumSnap == d.sum && d.sum2Snap == d.sum2 && d.grossSnap == d.gross)
    && (v ==> d.chances <= MOST_CHANCES)
  }

  // ---- the steps ----

  /** The copies that are taken, and the window that is counted, only when the direction had samples. */
  function Snapped(d: Dir): Dir {
    if Samples(d) == 0 then d else
      d.(countSnap := d.count, sumSnap := d.sum, sum2Snap := d.sum2, grossSnap := d.gross,
         notVoid := d.notVoid + 1, winSum := d.winSum + Mean(d), winSum2 := d.winSum2 + Mean(d) * Mean(d))
  }

  /** close_window: the chances are always copied. */
  function Closed(v: bool, d: Dir, now: int): Dir {
    Snapped(d).(chancesSnap := if v then d.chances else d.chancesSnap, lastEdge := now)
  }

  /** Both directions after printing the line about second edge. */
  function Printed(d: Dir, edge: int): Dir {
    d.(lastPrinted := edge)
  }

  /** The line of a window that is being closed: client to server first. */
  function WindowLine(v: bool, side: Side, mine: Dir, other: Dir): Line {
    if side == C2S then Line(mine.lastEdge, ReportOf(v, mine), ReportOf(v, other))
    else Line(mine.lastEdge, ReportOf(v, other), ReportOf(v, mine))
  }

  /** The line of a second without packets: the direction of the packet that closes the window first. */
  function VoidLine(v: bool, mine: Dir, other: Dir, edge: int): Line {
    Line(edge, ReportOf(v, mine), ReportOf(v, other))
  }

  /** The loop that prints the seconds without packets, from edge on; both directions are closed. */
  function Voids(v: bool, mine: Dir, other: Dir, edge: int): Option<seq<Line>>
    decreases mine.lastEdge - edge
  {
    if edge >= mine.lastEdge then Some([])
    else if !LineInOrder(v, mine, edge, mine.lastEdge) || !Printable(v, mine) || !Printable(v, other) then None
    else
      match Voids(v, Printed(mine, edge), Printed(other, edge), edge + 1)
      case None => None
      case Some(lines) => Some([VoidLine(v, mine, other, edge)] + lines)
  }

  predicate MayClose(v: bool, mine: Dir, other: Dir, now: int) {
    && LineInOrder(v, mine, mine.lastEdge, now)
    && (v && mine.lastPrinted != 0 ==> mine.lastEdge == mine.lastPrinted + 1)
    && SeenSomething(v, mine, other)
    && Closable(v, mine, now) && Closable(v, other, now)
  }

  /** The checks after both directions are closed. */
  predicate AllAbsorbed(v: bool, a: Dir, b: Dir) {
    && a.count == a.countSnap && b.count == b.countSnap
    && (v ==> a.chances == a.chancesSnap && b.chances == b.chancesSnap)
    && Consistent(v, a, b)
  }

  /** The closing branch of windowed_queueing_delay for a packet of the given side in second now. */
  function CloseBoth(v: bool, st: Stats, side: Side, now: int): Option<Stats> {
    var mine, other := Of(st, side), Of(st, Flip(side));
    if !MayClose(v, mine, other, now) then None
    else
      var edge := mine.lastEdge;
      var a := Closed(v, Printed(mine, edge), now);
      var b := Closed(v, Printed(other, edge), now).(lastQd := 0);
      var voids := if v then Voids(v, a, b, edge + 1) else Some([]);
      if voids == None then None
      else
        var last := if v then now - 1 else edge;
        var a', b' := Printed(a, last), Printed(b, last);
        if !AllAbsorbed(v, a', b') then None
        else Some(Put(st.(log := st.log + [WindowLine(v, side, mine, other)] + voids.value), side, a', b'))
  }

  lemma CloseBothFails(v: bool, st: Stats, side: Side, now: int)
    requires !MayClose(v, Of(st, side), Of(st, Flip(side)), now)
    ensures CloseBoth(v, st, side, now) == None
  {
  }

  lemma CloseBothUnfolds(v: bool, st: Stats, side: Side, now: int, a: Dir, b: Dir, voids: Option<seq<Line>>)
    requires var mine, other := Of(st, side), Of(st, Flip(side));
             && MayClose(v, mine, other, now)
             && a == Closed(v, Printed(mine, mine.lastEdge), now) && b == Closed(v, Printed(other, mine.lastEdge), now).(lastQd := 0)
             && voids == if v then Voids(v, a, b, mine.lastEdge + 1) else Some([])
    ensures var mine, other, edge := Of(st, side), Of(st, Flip(side)), Of(st, side).lastEdge;
            var last := if v then now - 1 else edge;
            CloseBoth(v, st, side, now) ==
            if voids.Some? && AllAbsorbed(v, Printed(a, last), Printed(b, last))
            then Some(Put(st.(log := st.log + [WindowLine(v, side, mine, other)] + voids.value), side, Printed(a, last), Printed(b, last)))
            else None
  {
  }

  /**
   windowed_queueing_delay. The subtraction of the seconds is unsigned, so the closing branch is taken whenever they differ.
   */
  function Windowed(v: bool, st: Stats, side: Side, now: int): Option<Stats> {
    var mine, other := Of(st, side), Of(st, Flip(side));
    if !Consistent(v, mine, other) then None
    else if mine.lastEdge == 0 then Some(Put(st, side, mine.(lastEdge := now), other.(lastEdge := now)))
    else if now != mine.lastEdge then CloseBoth(v, st, side, now)
    else Some(st)
  }

  /** The totals after one more sample. */
  function Counted(v: bool, d: Dir, qd: int, gross: int): Dir {
    d.(chances := if v then d.chances + 1 else d.chances, count := d.count + 1, sum := d.sum + qd,
       sum2 := d.sum2 + qd * qd, lastQd := qd, gross := d.gross + gross)
  }

  /** A packet: one that gives a sample, or (with SAMPLES_VALIDITY) a chance for one that is not valid. */
  datatype Event = Sample(side: Side, sec: int, qd: int, gross: int) | Chance(side: Side, sec: int)

  /** bufferbloat_analysis, after the delays of the packet are known. */
  function Analyse(v: bool, st: Stats, side: Side, now: int, qd: int, gross: int): Option<Stats> {
    var mine, other := Of(st, side), Of(st, Flip(side));
    if !Consistent(v, mine, other) || !LastSampleKept(mine) then None
    else if mine.notVoid != 0 && other.notVoid != 0 && !SeenSomething(v, mine, other) then None
    else
      match Windowed(v, st, side, now)
      case None => None
      case Some(w) =>
        var d, o := Counted(v, Of(w, side), qd, gross), Of(w, Flip(side));
        if !Consistent(v, d, o) || !LastSampleKept(d) then None
        else if d.notVoid != 0 && o.notVoid != 0 && !SeenSomething(v, d, d) then None
        else Some(Put(w, side, d, o))
  }

  /** chance_is_not_valid. */
  function NotValid(v: bool, st: Stats, side: Side, now: int): Option<Stats> {
    match Windowed(v, st, side, now)
    case None => None
    case Some(w) => Some(Put(w, side, Of(w, side).(chances := Of(w, side).chances + 1, lastQd := 0), Of(w, Flip(side))))
  }

  function Step(v: bool, st: Stats, e: Event): Option<Stats> {
    match e
    case Sample(side, sec, qd, gross) => Analyse(v, st, side, sec, qd, gross)
    case Chance(side, sec) => NotValid(v, st, side, sec)
  }

  /** All packets of a connection, or None if a self-check ended the program. */
  function Run(v: bool, ev: seq<Event>): Option<Stats> {
    if ev == [] then Some(START) else
      match Run(v, ev[..|ev| - 1])
      case None => None
      case Some(st) => Step(v, st, ev[|ev| - 1])
  }
}
