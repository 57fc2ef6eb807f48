/** Times with microseconds, and the time average of a quantity that jumps, in exact arithmetic. */
module Averages {

  const US_PER_SEC := 1_000_000

  datatype Timeval = Timeval(sec: int, usec: int)

  predicate Normal(t: Timeval) {
    0 <= t.usec < US_PER_SEC
  }

  function Micros(t: Timeval): int {
    t.sec * US_PER_SEC + t.usec
  }

  /** tv_sub */
  function TvSub(a: Timeval, b: Timeval): Timeval {
    if a.usec >= b.usec then Timeval(a.sec - b.sec, a.usec - b.usec)
    else Timeval(a.sec - 1 - b.sec, a.usec + (US_PER_SEC - b.usec))
  }

  /** tv_add */
  function TvAdd(a: Timeval, b: Timeval): Timeval {
    var usec := a.usec + b.usec;
    if usec >= US_PER_SEC then Timeval(a.sec + b.sec + 1, usec - US_PER_SEC) else Timeval(a.sec + b.sec, usec)
  }

  /** tv_cmp */
  function TvCmp(a: Timeval, b: Timeval): int {
    if a.sec > b.sec then 1 else if a.sec < b.sec then -1
    else if a.usec > b.usec then 1 else if a.usec == b.usec then 0 else -1
  }

  predicate TvLessThan(a: Timeval, b: Timeval) {
    a.sec < b.sec || (a.sec == b.sec && a.usec < b.usec)
  }

  /** elapsed: microseconds from a to b, 0 when b is earlier. */
  function Elapsed(a: Timeval, b: Timeval): int {
    if TvLessThan(b, a) then 0 else Micros(TvSub(b, a))
  }

  /** On normal times the operations are those on microseconds, and their results are normal again. */
  lemma TimesAreMicros(a: Timeval, b: Timeval)
    requires Normal(a) && Normal(b)
    ensures Normal(TvSub(a, b)) && Micros(TvSub(a, b)) == Micros(a) - Micros(b)
    ensures Normal(TvAdd(a, b)) && Micros(TvAdd(a, b)) == Micros(a) + Micros(b)
    ensures TvCmp(a, b) == if Micros(a) > Micros(b) then 1 else if Micros(a) == Micros(b) then 0 else -1
    ensures TvLessThan(a, b) <==> Micros(a) < Micros(b)
    ensures Elapsed(a, b) == if Micros(b) < Micros(a) then 0 else Micros(b) - Micros(a)
  {
  }

  /** A normal time is determined by its microseconds. */
  lemma NormalIsUnique(a: Timeval, b: Timeval)
    requires Normal(a) && Normal(b) && Micros(a) == Micros(b)
    ensures a == b
  {
  }

  /** Adding and subtracting undo each other. */
  lemma SubUndoesAdd(a: Timeval, b: Timeval)
    requires Normal(a) && Normal(b)
    ensures TvSub(TvAdd(a, b), b) == a && TvAdd(TvSub(a, b), b) == a
  {
    TimesAreMicros(a, b);
    TimesAreMicros(TvAdd(a, b), b);
    TimesAreMicros(TvSub(a, b), b);
    NormalIsUnique(TvSub(TvAdd(a, b), b), a);
    NormalIsUnique(TvAdd(TvSub(a, b), b), a);
  }

  // ---- the average ----

  /** The record: start of the interval, last change, present value, integral so far in milliseconds. */
  datatype Ave = Ave(t0: Timeval, t: Timeval, n: real, tot: real)

  datatype Op = Arrival(at: Timeval) | Departure(at: Timeval) | NewStep(at: Timeval, val: real) | Reading(at: Timeval)

  /** The integral up to tc. */
  function Accrue(s: Ave, tc: Timeval): Ave {
    s.(tot := s.tot + Elapsed(s.t, tc) as real / 1000.0 * s.n, t := tc)
  }

  /** AVE_arrival, AVE_departure, AVE_new_step, and what AVE_get_stat leaves behind. */
  function Step(s: Ave, op: Op): Ave {
    var a := Accrue(s, op.at);
    match op
    case Arrival(_) => a.(n := a.n + 1.0)
    case Departure(_) => a.(n := a.n - 1.0)
    case NewStep(_, val) => a.(n := val)
    case Reading(at) => a.(tot := 0.0, t0 := at)
  }

  /** What AVE_get_stat returns. */
  function Average(s: Ave, tc: Timeval): real
    requires Elapsed(s.t0, tc) != 0
  {
    Accrue(s, tc).tot / Elapsed(s.t0, tc) as real * 1000.0
  }

  /** The record after the calls ops; it was set up at start. */
  function Run(start: Timeval, ops: seq<Op>): Ave {
    if ops == [] then Ave(start, start, 0.0, 0.0) else Step(Run(start, ops[..|ops| - 1]), ops[|ops| - 1])
  }

  // ---- the quantity, from the calls alone ----

  function Arrivals(ops: seq<Op>): nat {
    if ops == [] then 0 else Arrivals(ops[..|ops| - 1]) + if ops[|ops| - 1].Arrival? then 1 else 0
  }

  function Departures(ops: seq<Op>): nat {
    if ops == [] then 0 else Departures(ops[..|ops| - 1]) + if ops[|ops| - 1].Departure? then 1 else 0
  }

  /** How many calls there are up to the last new step, that one included. */
  function UpToStep(ops: seq<Op>): (k: nat)
    ensures k <= |ops| && (k > 0 ==> ops[k - 1].NewStep?)
  {
    if ops == [] then 0 else if ops[|ops| - 1].NewStep? then |ops| else UpToStep(ops[..|ops| - 1])
  }

  /** The value of the last new step among the first k calls, if that is where it is. */
  function StepValue(ops: seq<Op>, k: nat): real
    requires k <= |ops| && (k > 0 ==> ops[k - 1].NewStep?)
  {
    if k > 0 then ops[k - 1].val else 0.0
  }

  /** What has arrived, less what has departed. */
  function Net(ops: seq<Op>): int {
    Arrivals(ops) - Departures(ops)
  }

  /** The value of the last new step, or 0, and what has arrived since, less what has departed. */
  function Quantity(ops: seq<Op>): real {
    StepValue(ops, UpToStep(ops)) + Net(ops[UpToStep(ops)..]) as real
  }

  /** The time of the last call. */
  function LastCall(start: Timeval, ops: seq<Op>): Timeval {
    if ops == [] then start else ops[|ops| - 1].at
  }

  /** The time of the last reading. */
  function LastReading(start: Timeval, ops: seq<Op>): Timeval {
    if ops == [] then start
    else if ops[|ops| - 1].Reading? then ops[|ops| - 1].at else LastReading(start, ops[..|ops| - 1])
  }

  /** Normal times that do not go back. */
  predicate Timely(start: Timeval, ops: seq<Op>) {
    Normal(start) && (ops != [] ==>
      var rest, at := ops[..|ops| - 1], ops[|ops| - 1].at;
      Timely(start, rest) && Normal(at) && Micros(LastCall(start, rest)) <= Micros(at))
  }

  /** The quantity was at value for a time. */
  datatype Piece = Piece(value: real, micros: int)

  /** The piece of the course from the last of the calls ops to time tc. */
  function NextPiece(start: Timeval, ops: seq<Op>, tc: Timeval): Piece {
    Piece(Quantity(ops), Micros(tc) - Micros(LastCall(start, ops)))
  }

  /** The course of the quantity since the last reading. */
  function Course(start: Timeval, ops: seq<Op>): seq<Piece> {
    if ops == [] || ops[|ops| - 1].Reading? then [] else
      var rest := ops[..|ops| - 1];
      Course(start, rest) + [NextPiece(start, rest, ops[|ops| - 1].at)]
  }

  lemma NetAppend(ops: seq<Op>, op: Op)
    ensures Net(ops + [op]) == Net(ops) + if op.Arrival? then 1 else if op.Departure? then -1 else 0
  {
    assert (ops + [op])[..|ops|] == ops;
  }

  lemma UpToStepAppend(ops: seq<Op>, op: Op)
    ensures UpToStep(ops + [op]) == if op.NewStep? then |ops| + 1 else UpToStep(ops)
  {
    assert (ops + [op])[..|ops|] == ops;
  }

  lemma QuantityIs(ops: seq<Op>, k: nat, value: real, net: int)
    requires k == UpToStep(ops) && value == StepValue(ops, k) && net == Net(ops[k..])
    ensures Quantity(ops) == value + net as real
  {
  }

  lemma QuantityAppend(ops: seq<Op>, op: Op)
    ensures Quantity(ops + [op]) ==
            match op
            case Arrival(_) => Quantity(ops) + 1.0
            case Departure(_) => Quantity(ops) - 1.0
            case NewStep(_, val) => val
            case Reading(_) => Quantity(ops)
  {
    var t := ops + [op];
    UpToStepAppend(ops, op);
    if op.NewStep? {
      assert t[|t|..] == [];
      QuantityIs(t, |t|, op.val, 0);
    } else {
      var k := UpToStep(ops);
      var net := Net(ops[k..]);
      assert t[k..] == ops[k..] + [op];
      NetAppend(ops[k..], op);
      QuantityIs(ops, k, StepValue(ops, k), net);
      QuantityIs(t, k, StepValue(ops, k), net + if op.Arrival? then 1 else if op.Departure? then -1 else 0);
    }
  }

  /** The record follows the calls. */
  lemma {:induction false} RecordFollows(start: Timeval, ops: seq<Op>)
    ensures var s := Run(start, ops);
            s.n == Quantity(ops) && s.t == LastCall(start, ops) && s.t0 == LastReading(start, ops)
  {
    if ops == [] {
      assert ops[0..] == [];
    } else {
      var rest, op := ops[..|ops| - 1], ops[|ops| - 1];
      RecordFollows(start, rest);
      QuantityAppend(rest, op);
      assert rest + [op] == ops;
    }
  }

  function Area(ps: seq<Piece>): real {
    if ps == [] then 0.0 else
      var p := ps[|ps| - 1];
      Area(ps[..|ps| - 1]) + p.value * p.micros as real
  }

  function Length(ps: seq<Piece>): int {
    if ps == [] then 0 else Length(ps[..|ps| - 1]) + ps[|ps| - 1].micros
  }

  /** One more piece, in milliseconds and in microseconds. */
  lemma Grow(tot: real, n: real, m: real, area: real)
    requires tot * 1000.0 == area
    ensures (tot + m / 1000.0 * n) * 1000.0 == area + n * m
  {
    assert m / 1000.0 * n * 1000.0 == n * m by {
      var k := m / 1000.0;
      assert k * 1000.0 == m;
      assert k * n * 1000.0 == n * (k * 1000.0);
    }
  }

  lemma AccrueAddsPiece(s: Ave, tc: Timeval, ps: seq<Piece>, p: Piece)
    requires Normal(s.t) && Normal(tc) && Micros(s.t) <= Micros(tc) && s.tot * 1000.0 == Area(ps)
    requires p == Piece(s.n, Micros(tc) - Micros(s.t))
    ensures Accrue(s, tc).tot * 1000.0 == Area(ps + [p]) && Length(ps + [p]) == Length(ps) + p.micros
  {
    TimesAreMicros(s.t, tc);
    Grow(s.tot, s.n, p.micros as real, Area(ps));
    LengthAppend(ps, p);
  }

  lemma {:induction false} TimelyNormal(start: Timeval, ops: seq<Op>)
    requires Timely(start, ops)
    ensures Normal(LastCall(start, ops)) && Normal(LastReading(start, ops))
  {
    if ops != [] { TimelyNormal(start, ops[..|ops| - 1]); }
  }

  /** The course is as long as the time since the last reading, and no piece of it is negative. */
  lemma {:induction false} CourseLength(start: Timeval, ops: seq<Op>)
    requires Timely(start, ops)
    ensures Length(Course(start, ops)) == Micros(LastCall(start, ops)) - Micros(LastReading(start, ops))
    ensures forall i :: 0 <= i < |Course(start, ops)| ==> Course(start, ops)[i].micros >= 0
  {
    if ops != [] {
      var rest := ops[..|ops| - 1];
      CourseLength(start, rest);
      LengthAppend(Course(start, rest), NextPiece(start, rest, ops[|ops| - 1].at));
    }
  }

  /** The record holds the area under the course. */
  lemma {:induction false} RecordIsArea(start: Timeval, ops: seq<Op>)
    requires Timely(start, ops)
    ensures Run(start, ops).tot * 1000.0 == Area(Course(start, ops))
  {
    if ops != [] {
      var rest, op := ops[..|ops| - 1], ops[|ops| - 1];
      RecordIsArea(start, rest);
      RecordFollows(start, rest);
      TimelyNormal(start, rest);
      AccrueAddsPiece(Run(start, rest), op.at, Course(start, rest), NextPiece(start, rest, op.at));
    }
  }

  /** The course up to tc. */
  function CourseTo(start: Timeval, ops: seq<Op>, tc: Timeval): seq<Piece> {
    Course(start, ops) + [NextPiece(start, ops, tc)]
  }

  lemma LengthAppend(ps: seq<Piece>, p: Piece)
    ensures Length(ps + [p]) == Length(ps) + p.micros && Area(ps + [p]) == Area(ps) + p.value * p.micros as real
  {
    assert (ps + [p])[..|ps|] == ps;
  }

  lemma {:induction false} LengthNotNegative(ps: seq<Piece>)
    requires forall i :: 0 <= i < |ps| ==> ps[i].micros >= 0
    ensures Length(ps) >= 0
  {
    if ps != [] {
      LengthNotNegative(ps[..|ps| - 1]);
    }
  }

  lemma Scaled(tot: real, length: real, area: real)
    requires length != 0.0 && tot * 1000.0 == area
    ensures tot / length * 1000.0 * length == area
  {
    assert tot / length * length == tot;
  }

  /** The time average of a course: times its length it is the area under it. */
  ghost predicate IsAverage(avg: real, ps: seq<Piece>) {
    avg * Length(ps) as real == Area(ps)
  }

  lemma AverageTimesLength(s: Ave, tc: Timeval, ps: seq<Piece>)
    requires Accrue(s, tc).tot * 1000.0 == Area(ps) && Elapsed(s.t0, tc) == Length(ps) != 0
    ensures IsAverage(Average(s, tc), ps)
  {
    Scaled(Accrue(s, tc).tot, Length(ps) as real, Area(ps));
  }

  /** What AVE_get_stat has at hand at tc. */
  lemma CourseToIs(start: Timeval, ops: seq<Op>, tc: Timeval)
    requires Timely(start, ops + [Reading(tc)])
    ensures var s, c := Run(start, ops), CourseTo(start, ops, tc);
            && Accrue(s, tc).tot * 1000.0 == Area(c)
            && Elapsed(s.t0, tc) == Length(c) >= 0
            && forall i :: 0 <= i < |c| ==> c[i].micros >= 0
  {
    assert (ops + [Reading(tc)])[..|ops|] == ops;
    RecordIsArea(start, ops);
    RecordFollows(start, ops);
    TimelyNormal(start, ops);
    CourseLength(start, ops);
    LengthNotNegative(Course(start, ops));
    TimesAreMicros(LastReading(start, ops), tc);
    AccrueAddsPiece(Run(start, ops), tc, Course(start, ops), NextPiece(start, ops, tc));
  }

  /** A reading is the time average since the reading before. */
  lemma ReadingIsTimeAverage(start: Timeval, ops: seq<Op>, tc: Timeval)
    requires Timely(start, ops + [Reading(tc)]) && Length(CourseTo(start, ops, tc)) != 0
    ensures Elapsed(Run(start, ops).t0, tc) != 0 && IsAverage(Average(Run(start, ops), tc), CourseTo(start, ops, tc))
  {
    CourseToIs(start, ops, tc);
    AverageTimesLength(Run(start, ops), tc, CourseTo(start, ops, tc));
  }

  lemma Monotone(a: real, b: real, m: real)
    requires a <= b && m >= 0.0
    ensures a * m <= b * m
  {
  }

  /** The bounds, after one more piece. */
  lemma StepBounds(lo: real, hi: real, l: real, area: real, v: real, m: real, more: real, total: real)
    requires lo * l <= area <= hi * l && m >= 0.0 && (m > 0.0 ==> lo <= v <= hi)
    requires more == l + m && total == area + v * m
    ensures lo * more <= total <= hi * more
  {
    if m > 0.0 {
      Monotone(lo, v, m);
      Monotone(v, hi, m);
    }
    assert lo * (l + m) == lo * l + lo * m;
    assert hi * (l + m) == hi * l + hi * m;
  }

  /** The last piece adds its length. */
  lemma LastLength(ps: seq<Piece>)
    requires ps != []
    ensures Length(ps) as real == Length(ps[..|ps| - 1]) as real + ps[|ps| - 1].micros as real
  {
  }

  /** Pieces of length l and this area. */
  lemma {:induction false} AreaBounds(ps: seq<Piece>, lo: real, hi: real, l: real, area: real)
    requires forall i :: 0 <= i < |ps| ==> ps[i].micros >= 0
    requires forall i :: 0 <= i < |ps| && ps[i].micros > 0 ==> lo <= ps[i].value <= hi
    requires l == Length(ps) as real && area == Area(ps)
    ensures lo * l <= area <= hi * l
  {
    if ps == [] {
      NoLength(lo, l);
      NoLength(hi, l);
    } else {
      var p, rest := ps[|ps| - 1], ps[..|ps| - 1];
      LastLength(ps);
      AreaBounds(rest, lo, hi, Length(rest) as real, Area(rest));
      StepBounds(lo, hi, Length(rest) as real, Area(rest), p.value, p.micros as real, l, area);
    }
  }

  lemma NoLength(v: real, l: real)
    requires l == 0.0
    ensures v * l == 0.0
  {
  }

  lemma Cancel(a: real, b: real, l: real)
    requires l > 0.0 && a * l <= b * l
    ensures a <= b
  {
    if a > b {
      NegativeProduct(b - a, l);
    }
  }

  lemma NegativeProduct(a: real, l: real)
    requires a < 0.0 && l > 0.0
    ensures a * l < 0.0
  {
  }

  lemma Between(avg: real, l: real, area: real, lo: real, hi: real)
    requires l > 0.0 && avg * l == area && lo * l <= area <= hi * l
    ensures lo <= avg <= hi
  {
    Cancel(lo, avg, l);
    Cancel(avg, hi, l);
  }

  /** All values held for some time lie between lo and hi. */
  ghost predicate HeldWithin(ps: seq<Piece>, lo: real, hi: real) {
    forall i :: 0 <= i < |ps| && ps[i].micros > 0 ==> lo <= ps[i].value <= hi
  }

  lemma AverageBetween(avg: real, ps: seq<Piece>, lo: real, hi: real)
    requires IsAverage(avg, ps) && Length(ps) > 0 && HeldWithin(ps, lo, hi) && forall i :: 0 <= i < |ps| ==> ps[i].micros >= 0
    ensures lo <= avg <= hi
  {
    AreaBounds(ps, lo, hi, Length(ps) as real, Area(ps));
    Between(avg, Length(ps) as real, Area(ps), lo, hi);
  }

  /** A reading lies between the smallest and the largest value that the quantity held for some time in the interval. */
  lemma ReadingWithinValues(start: Timeval, ops: seq<Op>, tc: Timeval, lo: real, hi: real)
    requires Timely(start, ops + [Reading(tc)]) && Length(CourseTo(start, ops, tc)) != 0
    requires HeldWithin(CourseTo(start, ops, tc), lo, hi)
    ensures Elapsed(Run(start, ops).t0, tc) != 0 && lo <= Average(Run(start, ops), tc) <= hi
  {
    ReadingIsTimeAverage(start, ops, tc);
    CourseToIs(start, ops, tc);
    AverageBetween(Average(Run(start, ops), tc), CourseTo(start, ops, tc), lo, hi);
  }

  // ---- the record in place ----

  class WinStat {
    var t0: Timeval
    var t: Timeval
    var n: real
    var tot: real

    ghost function Value(): Ave
      reads this
    {
      Ave(t0, t, n, tot)
    }

    /** AVE_init */
    constructor (tc: Timeval)
      ensures Value() == Run(tc, [])
    {
      t0, t, n, tot := tc, tc, 0.0, 0.0;
    }

    method Arrive(tc: Timeval)
      modifies this
      ensures Value() == Step(old(Value()), Arrival(tc))
    {
      tot := tot + Elapsed(t, tc) as real / 1000.0 * n;
      n := n + 1.0;
      t := tc;
    }

    method Depart(tc: Timeval)
      modifies this
      ensures Value() == Step(old(Value()), Departure(tc))
    {
      tot := tot + Elapsed(t, tc) as real / 1000.0 * n;
      n := n - 1.0;
      t := tc;
    }

    method Jump(tc: Timeval, val: real)
      modifies this
      ensures Value() == Step(old(Value()), NewStep(tc, val))
    {
      tot := tot + Elapsed(t, tc) as real / 1000.0 * n;
      n := val;
      t := tc;
    }

    /** AVE_get_stat */
    method GetStat(tc: Timeval) returns (avg: real)
      requires Elapsed(t0, tc) != 0
      modifies this
      ensures avg == Average(old(Value()), tc) && Value() == Step(old(Value()), Reading(tc))
    {
      tot := tot + Elapsed(t, tc) as real / 1000.0 * n;
      avg := tot / Elapsed(t0, tc) as real * 1000.0;
      tot := 0.0;
      t := tc;
      t0 := tc;
    }
  }
}
