/**
 Files that share a limited number of descriptors: when none is left, the open file used least recently is closed, and it
 is reopened at its old position when it is used again.
 */
module ManyFiles {

  import opened Common

  type Bytes = seq<int>

  /** A stream as the operating system keeps it is its position; the file keeps the position of its last close. */
  datatype File = File(name: string, stream: Option<nat>, fptr: nat)

  /** Positions in open and closed run from the least to the most recent. */
  datatype State = State(files: seq<File>, open: seq<nat>, closed: seq<nat>, disk: map<string, Bytes>)

  const NOTHING := State([], [], [], map[])

  // ---- what is done to an open file ----

  datatype Action = Write(data: Bytes) | SeekTo(offset: nat) | Tell

  /** Writing beyond the end fills the gap with zeros; writing nothing changes nothing. */
  function Overwrite(c: Bytes, pos: nat, data: Bytes): Bytes {
    if data == [] then c else
      var padded := if pos <= |c| then c else c + seq(pos - |c|, _ => 0);
      padded[..pos] + data + if pos + |data| <= |padded| then padded[pos + |data|..] else []
  }

  /** The new contents, the new position and what the caller gets. */
  function Apply(a: Action, c: Bytes, pos: nat): (Bytes, nat, int) {
    match a
    case Write(data) => (Overwrite(c, pos, data), pos + |data|, |data|)
    case SeekTo(offset) => (c, offset, 0)
    case Tell => (c, pos, pos)
  }

  function Contents(disk: map<string, Bytes>, name: string): Bytes {
    if name in disk then disk[name] else []
  }

  /**
   full says that the descriptors are used up at that moment. Pipe is Mfpipe, with the number of attempts that failed for
   want of descriptors.
   */
  datatype Op = Open(name: string, full: bool) | Act(id: nat, action: Action, full: bool) | Pipe(failures: nat)

  // ---- the program ----

  function Without(s: seq<nat>, id: nat): seq<nat> {
    if s == [] then [] else if s[0] == id then s[1..] else [s[0]] + Without(s[1..], id)
  }

  /** M_closeold; with no open file it works on the end of the list, which is not a file. */
  function CloseOld(st: State): Option<State>
    requires st.open != [] ==> st.open[0] < |st.files| && st.files[st.open[0]].stream.Some?
  {
    if st.open == [] then None else
      var id := st.open[0];
      var f := st.files[id];
      Some(State(st.files[id := File(f.name, None, f.stream.value)], st.open[1..], st.closed + [id], st.disk))
  }

  /** Room for one more stream. */
  function MakeRoom(st: State, full: bool): Option<State>
    requires Ok(st)
  {
    if full then CloseOld(st) else Some(st)
  }

  /** Mfopen: the file is emptied and opened, and is the one used most recently. */
  function OpenFile(st: State, name: string, full: bool): Option<State>
    requires Ok(st)
  {
    match MakeRoom(st, full)
    case None => None
    case Some(t) => Some(State(t.files + [File(name, Some(0), 0)], t.open + [|t.files|], t.closed, t.disk[name := []]))
  }

  /** Mcheck: the file is open, at its position, and is the one used most recently. */
  function Check(st: State, id: nat, full: bool): Option<State>
    requires Ok(st) && id < |st.files|
  {
    if st.files[id].stream.Some? then Some(st.(open := Without(st.open, id) + [id])) else
      match MakeRoom(st, full)
      case None => None
      case Some(t) =>
        var f := t.files[id];
        Some(State(t.files[id := f.(stream := Some(f.fptr))], t.open + [id], Without(t.closed, id), t.disk))
  }

  /** The action on the file itself. */
  function Perform(st: State, id: nat, a: Action): (State, int)
    requires id < |st.files| && st.files[id].stream.Some?
  {
    var f := st.files[id];
    var (c, pos, out) := Apply(a, Contents(st.disk, f.name), f.stream.value);
    (st.(files := st.files[id := f.(stream := Some(pos))], disk := st.disk[f.name := c]), out)
  }

  /** Every file is on one of the lists once, on the open one exactly when it has a stream. */
  ghost predicate Ok(st: State) {
    && (forall id :: 0 <= id < |st.files| && st.files[id].stream.Some? ==> id in st.open && id !in st.closed)
    && (forall id :: 0 <= id < |st.files| && st.files[id].stream.None? ==> id in st.closed && id !in st.open)
    && (forall i :: 0 <= i < |st.open| ==> st.open[i] < |st.files|)
    && (forall i :: 0 <= i < |st.closed| ==> st.closed[i] < |st.files|)
    && Distinct(st.open) && Distinct(st.closed)
  }

  ghost predicate Distinct(s: seq<nat>) {
    forall i, j :: 0 <= i < j < |s| ==> s[i] != s[j]
  }

  // ---- what the steps keep ----

  lemma {:induction false} WithoutIs(s: seq<nat>, id: nat)
    requires Distinct(s)
    ensures Distinct(Without(s, id)) && id !in Without(s, id)
    ensures forall x :: x != id ==> (x in Without(s, id) <==> x in s)
  {
    if s != [] {
      WithoutIs(s[1..], id);
      assert s == [s[0]] + s[1..];
      if s[0] != id {
        var t := Without(s[1..], id);
        assert s[0] !in s[1..] && s[0] !in t;
      }
    }
  }

  lemma CloseOldOk(st: State)
    requires Ok(st) && st.open != []
    ensures CloseOld(st).Some? && Ok(CloseOld(st).value)
  {
    var id := st.open[0];
    var t := CloseOld(st).value;
    assert st.open == [id] + t.open;
    assert id !in t.open;
    assert forall i :: 0 <= i < |t.open| ==> t.open[i] == st.open[i + 1];
  }

  lemma MakeRoomOk(st: State, full: bool)
    requires Ok(st)
    ensures MakeRoom(st, full) == None <==> full && st.open == []
    ensures MakeRoom(st, full).Some? ==> Ok(MakeRoom(st, full).value) && |MakeRoom(st, full).value.files| == |st.files|
  {
    if full && st.open != [] {
      CloseOldOk(st);
    }
  }

  lemma OpenFileOk(st: State, name: string, full: bool)
    requires Ok(st)
    ensures OpenFile(st, name, full) == None <==> full && st.open == []
    ensures OpenFile(st, name, full).Some? ==> Ok(OpenFile(st, name, full).value)
  {
    MakeRoomOk(st, full);
    if !(full && st.open == []) {
      var t := MakeRoom(st, full).value;
      var u := OpenFile(st, name, full).value;
      assert forall i :: 0 <= i < |t.open| ==> u.open[i] == t.open[i];
      forall id | 0 <= id < |u.files|
        ensures if u.files[id].stream.Some? then id in u.open && id !in u.closed else id in u.closed && id !in u.open
      {
        if id < |t.files| {
          assert u.files[id] == t.files[id];
        }
      }
    }
  }

  lemma AppendDistinct(s: seq<nat>, id: nat)
    requires Distinct(s) && id !in s
    ensures Distinct(s + [id]) && forall x :: x in s + [id] <==> x in s || x == id
  {
  }

  /** Bringing file id to the end of the open list, with a stream. */
  lemma ToTailOk(st: State, id: nat, f: File)
    requires Ok(st) && id < |st.files| && f.stream.Some?
    ensures Ok(State(st.files[id := f], Without(st.open, id) + [id], Without(st.closed, id), st.disk))
  {
    WithoutIs(st.open, id);
    WithoutIs(st.closed, id);
    var open, closed := Without(st.open, id), Without(st.closed, id);
    assert forall i :: 0 <= i < |open| ==> open[i] in st.open;
    assert forall i :: 0 <= i < |closed| ==> closed[i] in st.closed;
    var u := State(st.files[id := f], open + [id], closed, st.disk);
    AppendDistinct(open, id);
    forall x | 0 <= x < |u.files|
      ensures if u.files[x].stream.Some? then x in u.open && x !in u.closed else x in u.closed && x !in u.open
    {
      if x != id {
        assert u.files[x] == st.files[x];
      }
    }
  }

  lemma {:induction false} WithoutAbsent(s: seq<nat>, id: nat)
    requires id !in s
    ensures Without(s, id) == s
  {
    if s != [] {
      WithoutAbsent(s[1..], id);
    }
  }

  lemma CheckOk(st: State, id: nat, full: bool)
    requires Ok(st) && id < |st.files|
    ensures Check(st, id, full) == None <==> st.files[id].stream.None? && full && st.open == []
    ensures Check(st, id, full).Some? ==>
              var u := Check(st, id, full).value;
              Ok(u) && |u.files| == |st.files| && u.files[id].stream.Some?
  {
    if st.files[id].stream.Some? {
      WithoutAbsent(st.closed, id);
      ToTailOk(st, id, st.files[id]);
      assert st.files[id := st.files[id]] == st.files;
    } else {
      MakeRoomOk(st, full);
      if MakeRoom(st, full).Some? {
        var t := MakeRoom(st, full).value;
        assert t.files[id].stream.None?;
        WithoutAbsent(t.open, id);
        ToTailOk(t, id, t.files[id].(stream := Some(t.files[id].fptr)));
      }
    }
  }

  // ---- the reference: no limit on descriptors ----

  /** Every file has its own position all the time. */
  datatype Ideal = Ideal(files: seq<(string, nat)>, disk: map<string, Bytes>)

  function IdealStep(m: Ideal, op: Op): (Ideal, int)
    requires op.Act? ==> op.id < |m.files|
  {
    match op
    case Open(name, _) => (Ideal(m.files + [(name, 0)], m.disk[name := []]), 0)
    case Act(id, a, _) =>
      var (name, pos) := m.files[id];
      var (c, pos', out) := Apply(a, Contents(m.disk, name), pos);
      (Ideal(m.files[id := (name, pos')], m.disk[name := c]), out)
    case Pipe(_) => (m, 0)
  }

  function Position(f: File): (string, nat) {
    (f.name, if f.stream.Some? then f.stream.value else f.fptr)
  }

  function Positions(files: seq<File>): seq<(string, nat)> {
    seq(|files|, i requires 0 <= i < |files| => Position(files[i]))
  }

  /** What the state stands for: evicted files are at the position they were closed at. */
  function View(st: State): Ideal {
    Ideal(Positions(st.files), st.disk)
  }

  lemma CloseOldIsInvisible(st: State)
    requires Ok(st) && st.open != []
    ensures View(CloseOld(st).value) == View(st)
  {
    assert Positions(CloseOld(st).value.files) == Positions(st.files);
  }

  lemma CheckIsInvisible(st: State, id: nat, full: bool)
    requires Ok(st) && id < |st.files| && Check(st, id, full).Some?
    ensures View(Check(st, id, full).value) == View(st)
  {
    if st.files[id].stream.None? {
      MakeRoomOk(st, full);
      if full {
        CloseOldIsInvisible(st);
      }
      var t := MakeRoom(st, full).value;
      assert Positions(Check(st, id, full).value.files) == Positions(t.files);
    }
  }

  /** The files evicted for a pipe. */
  function Evict(st: State, n: nat): Option<State>
    requires Ok(st)
    decreases n
  {
    if n == 0 then Some(st) else
      match CloseOld(st)
      case None => None
      case Some(t) => CloseOldOk(st); Evict(t, n - 1)
  }

  lemma {:induction false} EvictOk(st: State, n: nat)
    requires Ok(st)
    ensures Evict(st, n) == None <==> n > |st.open|
    ensures Evict(st, n).Some? ==>
              var t := Evict(st, n).value;
              Ok(t) && View(t) == View(st) && t.open == st.open[n..] && |t.files| == |st.files|
    decreases n
  {
    if n > 0 && st.open != [] {
      CloseOldOk(st);
      CloseOldIsInvisible(st);
      EvictOk(CloseOld(st).value, n - 1);
    }
  }

  /** One call; None once the program has ended. Three failures end Mfpipe. */
  function Step(st: State, op: Op): (r: Option<(State, int)>)
    requires Ok(st) && (op.Act? ==> op.id < |st.files|)
  {
    match op
    case Open(name, full) => (match OpenFile(st, name, full) case None => None case Some(t) => Some((t, 0)))
    case Act(id, a, full) => (match Check(st, id, full) case None => None case Some(t) => CheckOk(st, id, full); Some(Perform(t, id, a)))
    case Pipe(failures) => if failures >= 3 then None else (match Evict(st, failures) case None => None case Some(t) => Some((t, 0)))
  }

  /** What the program runs out of: an evictable file when one is needed. */
  predicate Starved(st: State, op: Op)
    requires op.Act? ==> op.id < |st.files|
  {
    match op
    case Open(_, full) => full && st.open == []
    case Act(id, _, full) => full && st.files[id].stream.None? && st.open == []
    case Pipe(failures) => failures >= 3 || failures > |st.open|
  }

  lemma PerformIsIdeal(st: State, id: nat, a: Action, full: bool)
    requires Ok(st) && id < |st.files| && st.files[id].stream.Some?
    ensures var (t, out) := Perform(st, id, a);
            Ok(t) && |t.files| == |st.files| && (View(t), out) == IdealStep(View(st), Act(id, a, full))
  {
    var (t, out) := Perform(st, id, a);
    assert Positions(t.files) == Positions(st.files)[id := Position(t.files[id])];
  }

  /** One call does what it does without a limit, unless there is no file to evict. */
  lemma StepIsIdeal(st: State, op: Op)
    requires Ok(st) && (op.Act? ==> op.id < |st.files|)
    ensures Step(st, op) == None <==> Starved(st, op)
    ensures Step(st, op).Some? ==>
              var (t, out) := Step(st, op).value;
              Ok(t) && (View(t), out) == IdealStep(View(st), op)
  {
    match op
    case Open(name, full) =>
      OpenFileOk(st, name, full);
      MakeRoomOk(st, full);
      if OpenFile(st, name, full).Some? {
        if full {
          CloseOldIsInvisible(st);
        }
        var t := MakeRoom(st, full).value;
        assert Positions(OpenFile(st, name, full).value.files) == Positions(t.files) + [(name, 0)];
      }
    case Act(id, a, full) =>
      CheckOk(st, id, full);
      if Check(st, id, full).Some? {
        CheckIsInvisible(st, id, full);
        PerformIsIdeal(Check(st, id, full).value, id, a, full);
      }
    case Pipe(failures) =>
      EvictOk(st, failures);
  }

  // ---- whole runs ----

  function Opened(ops: seq<Op>): nat {
    if ops == [] then 0 else Opened(ops[..|ops| - 1]) + if ops[|ops| - 1].Open? then 1 else 0
  }

  /** Files are used after they are opened. */
  predicate Proper(ops: seq<Op>) {
    ops != [] ==>
      var rest, op := ops[..|ops| - 1], ops[|ops| - 1];
      Proper(rest) && (op.Act? ==> op.id < Opened(rest))
  }

  function IdealRun(ops: seq<Op>): (r: (Ideal, seq<int>))
    requires Proper(ops)
    ensures |r.0.files| == Opened(ops)
  {
    if ops == [] then (Ideal([], map[]), []) else
      var (m, outs) := IdealRun(ops[..|ops| - 1]);
      var (m', out) := IdealStep(m, ops[|ops| - 1]);
      (m', outs + [out])
  }

  /** The states after each call; None once the program has ended. */
  function Run(ops: seq<Op>): (r: Option<(State, seq<int>)>)
    requires Proper(ops)
    ensures r.Some? ==> Ok(r.value.0) && |r.value.0.files| == Opened(ops)
  {
    if ops == [] then Some((NOTHING, [])) else
      match Run(ops[..|ops| - 1])
      case None => None
      case Some(p) =>
        StepIsIdeal(p.0, ops[|ops| - 1]);
        match Step(p.0, ops[|ops| - 1])
        case None => None
        case Some(q) => Some((q.0, p.1 + [q.1]))
  }

  /** Every file sees the same operations and every caller gets the same answers as with unlimited descriptors. */
  lemma {:induction false} RunIsIdeal(ops: seq<Op>)
    requires Proper(ops) && Run(ops).Some?
    ensures (View(Run(ops).value.0), Run(ops).value.1) == IdealRun(ops)
  {
    if ops == [] {
      assert Positions([]) == [];
    } else {
      var rest := ops[..|ops| - 1];
      RunIsIdeal(rest);
      StepIsIdeal(Run(rest).value.0, ops[|ops| - 1]);
    }
  }

  // ---- least recently used ----

  /** When file id was used last: the number of the call, 0 for never. */
  function LastUse(ops: seq<Op>, id: nat): nat {
    if ops == [] then 0 else
      var rest, op := ops[..|ops| - 1], ops[|ops| - 1];
      if (op.Open? && id == Opened(rest)) || (op.Act? && id == op.id) then |ops| else LastUse(rest, id)
  }

  /** The open list runs from the file used least recently to the one used most recently. */
  ghost predicate ByUse(open: seq<nat>, ops: seq<Op>) {
    forall i, j :: 0 <= i < j < |open| ==> LastUse(ops, open[i]) < LastUse(ops, open[j])
  }

  lemma {:induction false} UsedBefore(ops: seq<Op>, id: nat)
    ensures LastUse(ops, id) <= |ops|
  {
    if ops != [] {
      UsedBefore(ops[..|ops| - 1], id);
    }
  }

  lemma {:induction false} WithoutKeepsOrder(s: seq<nat>, id: nat, ops: seq<Op>)
    requires ByUse(s, ops)
    ensures ByUse(Without(s, id), ops) && forall x :: x in Without(s, id) ==> x in s
  {
    if s != [] && s[0] != id {
      var rest, t := s[1..], Without(s[1..], id);
      assert forall i :: 0 <= i < |rest| ==> rest[i] == s[i + 1];
      WithoutKeepsOrder(rest, id, ops);
      forall i | 0 <= i < |t|
        ensures LastUse(ops, s[0]) < LastUse(ops, t[i])
      {
        assert t[i] in rest;
      }
    }
  }

  /** A file that is used moves to the end; the others keep their last use. */
  lemma UseAtEnd(open: seq<nat>, id: nat, ops: seq<Op>, op: Op)
    requires ByUse(open, ops) && id !in open
    requires (op.Open? && id == Opened(ops)) || (op.Act? && id == op.id)
    ensures ByUse(open + [id], ops + [op])
  {
    assert (ops + [op])[..|ops|] == ops;
    forall i | 0 <= i < |open|
      ensures LastUse(ops + [op], open[i]) == LastUse(ops, open[i]) <= |ops|
    {
      UsedBefore(ops, open[i]);
    }
  }

  lemma DropKeepsOrder(open: seq<nat>, n: nat, ops: seq<Op>)
    requires ByUse(open, ops) && n <= |open|
    ensures ByUse(open[n..], ops)
  {
  }

  lemma OpenKeepsOrder(st: State, ops: seq<Op>, name: string, full: bool)
    requires Ok(st) && |st.files| == Opened(ops) && ByUse(st.open, ops) && OpenFile(st, name, full).Some?
    ensures ByUse(OpenFile(st, name, full).value.open, ops + [Open(name, full)])
  {
    MakeRoomOk(st, full);
    DropKeepsOrder(st.open, if full then 1 else 0, ops);
    UseAtEnd(MakeRoom(st, full).value.open, |st.files|, ops, Open(name, full));
  }

  lemma CheckKeepsOrder(st: State, ops: seq<Op>, id: nat, a: Action, full: bool)
    requires Ok(st) && ByUse(st.open, ops) && id < |st.files| && Check(st, id, full).Some?
    ensures ByUse(Check(st, id, full).value.open, ops + [Act(id, a, full)])
  {
    if st.files[id].stream.Some? {
      WithoutIs(st.open, id);
      WithoutKeepsOrder(st.open, id, ops);
      UseAtEnd(Without(st.open, id), id, ops, Act(id, a, full));
    } else {
      MakeRoomOk(st, full);
      DropKeepsOrder(st.open, if full then 1 else 0, ops);
      UseAtEnd(MakeRoom(st, full).value.open, id, ops, Act(id, a, full));
    }
  }

  lemma PipeKeepsOrder(open: seq<nat>, ops: seq<Op>, failures: nat)
    requires ByUse(open, ops) && failures <= |open|
    ensures ByUse(open[failures..], ops + [Pipe(failures)])
  {
    DropKeepsOrder(open, failures, ops);
    assert (ops + [Pipe(failures)])[..|ops|] == ops;
    assert forall id: nat :: LastUse(ops + [Pipe(failures)], id) == LastUse(ops, id);
  }

  lemma StepKeepsOrder(st: State, ops: seq<Op>, op: Op)
    requires Ok(st) && |st.files| == Opened(ops) && ByUse(st.open, ops) && (op.Act? ==> op.id < |st.files|)
    requires Step(st, op).Some?
    ensures ByUse(Step(st, op).value.0.open, ops + [op])
  {
    match op
    case Open(name, full) =>
      OpenKeepsOrder(st, ops, name, full);
    case Act(id, a, full) =>
      CheckOk(st, id, full);
      CheckKeepsOrder(st, ops, id, a, full);
    case Pipe(failures) =>
      EvictOk(st, failures);
      PipeKeepsOrder(st.open, ops, failures);
  }

  /** After any run, the next file to be evicted is the open file used least recently. */
  lemma {:induction false} VictimIsLeastRecent(ops: seq<Op>)
    requires Proper(ops) && Run(ops).Some?
    ensures ByUse(Run(ops).value.0.open, ops)
  {
    if ops != [] {
      var rest := ops[..|ops| - 1];
      VictimIsLeastRecent(rest);
      StepKeepsOrder(Run(rest).value.0, rest, ops[|ops| - 1]);
      assert rest + [ops[|ops| - 1]] == ops;
    }
  }
}
