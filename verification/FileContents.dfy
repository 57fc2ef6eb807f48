/** What files hold, where they stand and what calls return, from the calls alone. */
module FileContents {
  import opened ManyFiles

  /** The name that file id was opened under. */
  function NameOf(ops: seq<Op>, id: nat): string {
    if ops == [] then "" else
      var rest, op := ops[..|ops| - 1], ops[|ops| - 1];
      if op.Open? && id == Opened(rest) then op.name else NameOf(rest, id)
  }

  /** Its position: 0 when it is opened, where it was last set, and further by all that was written since. */
  function PositionOf(ops: seq<Op>, id: nat): nat {
    if ops == [] then 0 else
      var rest, op := ops[..|ops| - 1], ops[|ops| - 1];
      if op.Open? && id == Opened(rest) then 0
      else if !op.Act? || op.id != id then PositionOf(rest, id)
      else match op.action
        case Write(data) => PositionOf(rest, id) + |data|
        case SeekTo(offset) => offset
        case Tell => PositionOf(rest, id)
  }

  /** The call writes to the file of this name. */
  predicate WritesTo(rest: seq<Op>, op: Op, name: string) {
    op.Act? && op.action.Write? && NameOf(rest, op.id) == name
  }

  /** How long the file of this name is: it is emptied when it is opened, and reaches as far as it was written since. */
  function SizeOf(ops: seq<Op>, name: string): nat {
    if ops == [] then 0 else
      var rest, op := ops[..|ops| - 1], ops[|ops| - 1];
      if op.Open? && op.name == name then 0
      else if WritesTo(rest, op, name) && op.action.data != [] && PositionOf(rest, op.id) + |op.action.data| > SizeOf(rest, name)
        then PositionOf(rest, op.id) + |op.action.data|
      else SizeOf(rest, name)
  }

  /** Byte k of it: the last one that was written there since it was opened, 0 if none was. */
  function ByteOf(ops: seq<Op>, name: string, k: nat): int {
    if ops == [] then 0 else
      var rest, op := ops[..|ops| - 1], ops[|ops| - 1];
      if op.Open? && op.name == name then 0
      else if WritesTo(rest, op, name) && PositionOf(rest, op.id) <= k < PositionOf(rest, op.id) + |op.action.data|
        then op.action.data[k - PositionOf(rest, op.id)]
      else ByteOf(rest, name, k)
  }

  predicate IsContents(c: Bytes, ops: seq<Op>, name: string) {
    |c| == SizeOf(ops, name) && forall k :: 0 <= k < |c| ==> c[k] == ByteOf(ops, name, k)
  }

  /** What a call returns after these. */
  function Answer(rest: seq<Op>, op: Op): int {
    if !op.Act? then 0 else
      match op.action
      case Write(data) => |data|
      case SeekTo(_) => 0
      case Tell => PositionOf(rest, op.id)
  }

  /** Byte k after a write, by what was there. */
  lemma OverwriteIs(c: Bytes, pos: nat, data: Bytes)
    ensures var t := Overwrite(c, pos, data);
            && |t| == (if data != [] && pos + |data| > |c| then pos + |data| else |c|)
            && forall k :: 0 <= k < |t| ==> t[k] == if pos <= k < pos + |data| then data[k - pos] else if k < |c| then c[k] else 0
  {
  }

  lemma {:induction false} NothingBeyond(ops: seq<Op>, name: string, k: nat)
    requires k >= SizeOf(ops, name)
    ensures ByteOf(ops, name, k) == 0
  {
    if ops != [] && !(ops[|ops| - 1].Open? && ops[|ops| - 1].name == name) {
      NothingBeyond(ops[..|ops| - 1], name, k);
    }
  }

  lemma WriteContents(ops: seq<Op>, rest: seq<Op>, op: Op, c: Bytes, name: string)
    requires ops != [] && rest == ops[..|ops| - 1] && op == ops[|ops| - 1] && WritesTo(rest, op, name) && IsContents(c, rest, name)
    ensures IsContents(Overwrite(c, PositionOf(rest, op.id), op.action.data), ops, name)
  {
    var pos, data := PositionOf(rest, op.id), op.action.data;
    var t := Overwrite(c, pos, data);
    OverwriteIs(c, pos, data);
    forall k | 0 <= k < |t| ensures t[k] == ByteOf(ops, name, k) {
      if k >= |c| { NothingBeyond(rest, name, k); }
    }
  }

  /** All files are as the calls say. */
  ghost predicate AsCalled(m: Ideal, ops: seq<Op>) {
    && |m.files| == Opened(ops)
    && (forall id :: 0 <= id < |m.files| ==> m.files[id] == (NameOf(ops, id), PositionOf(ops, id)))
    && (forall name :: IsContents(Contents(m.disk, name), ops, name))
  }

  lemma OpenAsCalled(m: Ideal, rest: seq<Op>, op: Op, ops: seq<Op>)
    requires AsCalled(m, rest) && op.Open? && ops != [] && rest == ops[..|ops| - 1] && op == ops[|ops| - 1]
    ensures AsCalled(IdealStep(m, op).0, ops)
  {
    var t := IdealStep(m, op).0;
    forall name ensures IsContents(Contents(t.disk, name), ops, name) {
      assert IsContents(Contents(m.disk, name), rest, name);
    }
  }

  lemma ActAsCalled(m: Ideal, rest: seq<Op>, op: Op, ops: seq<Op>)
    requires AsCalled(m, rest) && op.Act? && op.id < |m.files| && ops != [] && rest == ops[..|ops| - 1] && op == ops[|ops| - 1]
    ensures AsCalled(IdealStep(m, op).0, ops) && IdealStep(m, op).1 == Answer(rest, op)
  {
    var t := IdealStep(m, op).0;
    var own := NameOf(rest, op.id);
    forall name ensures IsContents(Contents(t.disk, name), ops, name) {
      assert IsContents(Contents(m.disk, name), rest, name);
      if op.action.Write? && name == own { WriteContents(ops, rest, op, Contents(m.disk, name), name); }
    }
  }

  lemma PipeAsCalled(m: Ideal, rest: seq<Op>, op: Op, ops: seq<Op>)
    requires AsCalled(m, rest) && op.Pipe? && ops != [] && rest == ops[..|ops| - 1] && op == ops[|ops| - 1]
    ensures AsCalled(m, ops)
  {
    forall name ensures IsContents(Contents(m.disk, name), ops, name) {
      assert IsContents(Contents(m.disk, name), rest, name);
    }
  }

  predicate AnsweredAsCalled(outs: seq<int>, ops: seq<Op>) {
    |outs| == |ops| && forall k :: 0 <= k < |ops| ==> outs[k] == Answer(ops[..k], ops[k])
  }

  lemma MoreAnswers(outs: seq<int>, rest: seq<Op>, op: Op, ops: seq<Op>, out: int)
    requires AnsweredAsCalled(outs, rest) && ops != [] && rest == ops[..|ops| - 1] && op == ops[|ops| - 1] && out == Answer(rest, op)
    ensures AnsweredAsCalled(outs + [out], ops)
  {
    forall k | 0 <= k < |ops| ensures (outs + [out])[k] == Answer(ops[..k], ops[k]) {
      if k < |rest| { assert rest[..k] == ops[..k] && rest[k] == ops[k]; }
    }
  }

  lemma {:induction false} IdealAsCalled(ops: seq<Op>)
    requires Proper(ops)
    ensures AsCalled(IdealRun(ops).0, ops) && AnsweredAsCalled(IdealRun(ops).1, ops)
  {
    if ops != [] {
      var rest, op := ops[..|ops| - 1], ops[|ops| - 1];
      var m := IdealRun(rest).0;
      IdealAsCalled(rest);
      match op {
        case Open(_, _) => OpenAsCalled(m, rest, op, ops);
        case Act(_, _, _) => ActAsCalled(m, rest, op, ops);
        case Pipe(_) => PipeAsCalled(m, rest, op, ops);
      }
      MoreAnswers(IdealRun(rest).1, rest, op, ops, IdealStep(m, op).1);
    }
  }

  /**
   After any run that does not end the program, every file stands where the calls for it leave it, every name holds the bytes last
   written to it since it was opened, and every call returned what those before it make of it, however often files were closed
   and reopened in between.
   */
  lemma FilesAsCalled(ops: seq<Op>)
    requires Proper(ops) && Run(ops).Some?
    ensures AsCalled(View(Run(ops).value.0), ops) && AnsweredAsCalled(Run(ops).value.1, ops)
  {
    RunIsIdeal(ops);
    IdealAsCalled(ops);
  }
}
