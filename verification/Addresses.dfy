/**
 The address counters: a chained hash table whose entries are kept when they are cleared, in two copies that are filled and
 printed in turn.
 */
module Addresses {

  const MAX_ADX_SLOTS := 70001

  datatype Counts = Counts(srcHits: nat, dstHits: nat, srcBytes: nat, dstBytes: nat)

  datatype Field = SrcHits | DstHits | SrcBytes | DstBytes

  function Get(c: Counts, f: Field): nat {
    match f
    case SrcHits => c.srcHits
    case DstHits => c.dstHits
    case SrcBytes => c.srcBytes
    case DstBytes => c.dstBytes
  }

  const NONE := Counts(0, 0, 0, 0)

  function Plus(a: Counts, b: Counts): Counts {
    Counts(a.srcHits + b.srcHits, a.dstHits + b.dstHits, a.srcBytes + b.srcBytes, a.dstBytes + b.dstBytes)
  }

  /** What one packet adds. */
  function One(isSource: bool, bytes: nat): Counts {
    if isSource then Counts(1, 0, bytes, 0) else Counts(0, 1, 0, bytes)
  }

  /** What a packet counts for: a hit of the side that its address is on, and its bytes there. */
  function Weight(isSource: bool, bytes: nat, f: Field): nat {
    match f
    case SrcHits => if isSource then 1 else 0
    case DstHits => if isSource then 0 else 1
    case SrcBytes => if isSource then bytes else 0
    case DstBytes => if isSource then 0 else bytes
  }

  datatype Entry = Entry(ip: nat, counts: Counts)

  const CLEARED := Entry(0, NONE)

  predicate HasHits(e: Entry) {
    e.counts.srcHits != 0 || e.counts.dstHits != 0
  }

  // ---- one chain ----

  /** add_adx on the chain of a slot: the first entry with this address, or with none, is taken; otherwise one is appended. */
  function AddChain(c: seq<Entry>, seed: nat, one: Counts): seq<Entry> {
    if c == [] then [Entry(seed, one)]
    else if c[0].ip == seed || c[0].ip == 0 then [Entry(seed, Plus(c[0].counts, one))] + c[1..]
    else [c[0]] + AddChain(c[1..], seed, one)
  }

  /** The entries print_adx prints: those with hits, up to the first one without. */
  function Lines(c: seq<Entry>): seq<Entry> {
    if c == [] || !HasHits(c[0]) then [] else [c[0]] + Lines(c[1..])
  }

  /** The chain after print_adx. */
  function ClearChain(c: seq<Entry>): seq<Entry> {
    if c == [] || !HasHits(c[0]) then c else [CLEARED] + ClearChain(c[1..])
  }

  /** What the entries of address a add up to, in one of the counters. */
  function Total(c: seq<Entry>, a: nat, f: Field): nat {
    if c == [] then 0 else (if c[0].ip == a then Get(c[0].counts, f) else 0) + Total(c[1..], a, f)
  }

  /** The counts an addition takes over from an entry of address 0 that it relabels. */
  function Captured(c: seq<Entry>, seed: nat): Counts {
    if c == [] || c[0].ip == seed then NONE else if c[0].ip == 0 then c[0].counts else Captured(c[1..], seed)
  }

  /** The addition counts for its own address and for no other. */
  ghost predicate Exact(c: seq<Entry>, seed: nat, one: Counts) {
    forall a: nat, f: Field ::
      Total(AddChain(c, seed, one), a, f) == Total(c, a, f) + if a == seed then Get(one, f) else 0
  }

  lemma {:induction false} AddMoves(c: seq<Entry>, seed: nat, one: Counts, a: nat, f: Field)
    ensures Total(AddChain(c, seed, one), a, f) ==
            Total(c, a, f) + (if a == seed then Get(one, f) + Get(Captured(c, seed), f) else 0)
            - if a == 0 then Get(Captured(c, seed), f) else 0
  {
    var d := AddChain(c, seed, one);
    if c == [] {
      assert Total(d[1..], a, f) == 0;
    } else if c[0].ip == seed || c[0].ip == 0 {
      assert d[1..] == c[1..];
    } else {
      AddMoves(c[1..], seed, one, a, f);
      assert d[1..] == AddChain(c[1..], seed, one);
    }
  }

  /** An addition counts for its own address only, exactly when it does not take over hits of address 0. */
  lemma AddIsExact(c: seq<Entry>, seed: nat, one: Counts)
    ensures Exact(c, seed, one) <==> seed == 0 || Captured(c, seed) == NONE
  {
    forall a: nat, f: Field
      ensures seed == 0 || Captured(c, seed) == NONE ==>
              Total(AddChain(c, seed, one), a, f) == Total(c, a, f) + if a == seed then Get(one, f) else 0
    {
      AddMoves(c, seed, one, a, f);
    }
    if Exact(c, seed, one) && seed != 0 {
      forall f: Field
        ensures Get(Captured(c, seed), f) == 0
      {
        AddMoves(c, seed, one, seed, f);
      }
      var k := Captured(c, seed);
      assert Get(k, SrcHits) == 0 && Get(k, DstHits) == 0 && Get(k, SrcBytes) == 0 && Get(k, DstBytes) == 0;
    }
  }

  /** A packet of address 0 followed by one of another address in its slot: both are reported for the second. */
  lemma ZeroIsCaptured(bytes: nat)
    ensures var c := AddChain(AddChain([], 0, One(true, bytes)), MAX_ADX_SLOTS, One(true, bytes));
            Total(c, 0, SrcHits) == 0 && Total(c, MAX_ADX_SLOTS, SrcHits) == 2
  {
    var first := AddChain([], 0, One(true, bytes));
    AddMoves([], 0, One(true, bytes), 0, SrcHits);
    AddMoves([], 0, One(true, bytes), MAX_ADX_SLOTS, SrcHits);
    AddMoves(first, MAX_ADX_SLOTS, One(true, bytes), 0, SrcHits);
    AddMoves(first, MAX_ADX_SLOTS, One(true, bytes), MAX_ADX_SLOTS, SrcHits);
  }

  predicate AllCleared(c: seq<Entry>) {
    forall i :: 0 <= i < |c| ==> c[i] == CLEARED
  }

  /** The entries in use come first and have different addresses, zero being the last one; the others are cleared. */
  predicate ChainOk(c: seq<Entry>, slot: nat, n: nat)
    requires n > 0
  {
    c == [] ||
    if !HasHits(c[0]) then AllCleared(c)
    else
      && c[0].ip % n == slot && ChainOk(c[1..], slot, n)
      && if c[0].ip == 0 then AllCleared(c[1..]) else forall i :: 1 <= i < |c| ==> c[i].ip != c[0].ip
  }

  lemma AddKeepsAddresses(c: seq<Entry>, seed: nat, one: Counts, ip: nat)
    requires ip != seed && forall i :: 0 <= i < |c| ==> c[i].ip != ip
    ensures forall i :: 0 <= i < |AddChain(c, seed, one)| ==> AddChain(c, seed, one)[i].ip != ip
  {
    if c != [] && c[0].ip != seed && c[0].ip != 0 {
      AddKeepsAddresses(c[1..], seed, one, ip);
    }
  }

  lemma ConsOk(e: Entry, c: seq<Entry>, slot: nat, n: nat)
    requires n > 0 && HasHits(e) && e.ip % n == slot && ChainOk(c, slot, n)
    requires AllCleared(c) || (e.ip != 0 && forall i :: 0 <= i < |c| ==> c[i].ip != e.ip)
    ensures ChainOk([e] + c, slot, n)
  {
    var d := [e] + c;
    assert d[1..] == c;
    assert forall i :: 1 <= i < |d| ==> d[i] == c[i - 1];
  }

  lemma {:induction false} AddKeepsChain(c: seq<Entry>, seed: nat, one: Counts, slot: nat, n: nat)
    requires n > 0 && ChainOk(c, slot, n) && seed % n == slot && HasHits(Entry(seed, one))
    ensures ChainOk(AddChain(c, seed, one), slot, n)
  {
    if c == [] {
      ConsOk(Entry(seed, one), c, slot, n);
      assert AddChain(c, seed, one) == [Entry(seed, one)] + c;
    } else {
      var rest := c[1..];
      if !HasHits(c[0]) {
        assert AllCleared(rest) && ChainOk(rest, slot, n);
      }
      if c[0].ip == seed || c[0].ip == 0 {
        assert forall i :: 0 <= i < |rest| ==> rest[i] == c[i + 1];
        ConsOk(Entry(seed, Plus(c[0].counts, one)), rest, slot, n);
      } else {
        AddKeepsChain(rest, seed, one, slot, n);
        AddKeepsAddresses(rest, seed, one, c[0].ip);
        ConsOk(c[0], AddChain(rest, seed, one), slot, n);
      }
    }
  }

  /** Whether address a has been counted. */
  predicate HasEntry(c: seq<Entry>, a: nat) {
    Total(c, a, SrcHits) + Total(c, a, DstHits) > 0
  }

  /** The counts taken over are all those of address zero, unless the address has an entry of its own. */
  lemma {:induction false} CapturedAreTheZeros(c: seq<Entry>, seed: nat, slot: nat, n: nat, f: Field)
    requires n > 0 && ChainOk(c, slot, n)
    ensures Get(Captured(c, seed), f) == if seed == 0 || HasEntry(c, seed) then 0 else Total(c, 0, f)
  {
    if c != [] {
      var rest := c[1..];
      if AllCleared(c) {
        ClearedCountsNothing(c, 0, f);
      } else if c[0].ip == 0 {
        ClearedCountsNothing(rest, 0, f);
        if seed != 0 {
          ClearedCountsNothing(rest, seed, SrcHits);
          ClearedCountsNothing(rest, seed, DstHits);
        }
      } else if c[0].ip != seed {
        CapturedAreTheZeros(rest, seed, slot, n, f);
      }
    }
  }

  /** Printing reports every address of the chain in full, and leaves nothing. */
  lemma {:induction false} PrintReportsAll(c: seq<Entry>, slot: nat, n: nat, a: nat, f: Field)
    requires n > 0 && ChainOk(c, slot, n)
    ensures Total(Lines(c), a, f) == Total(c, a, f) && Total(ClearChain(c), a, f) == 0
    ensures ChainOk(ClearChain(c), slot, n) && AllCleared(ClearChain(c))
  {
    if c != [] && HasHits(c[0]) {
      PrintReportsAll(c[1..], slot, n, a, f);
      assert Lines(c)[1..] == Lines(c[1..]) && ClearChain(c)[1..] == ClearChain(c[1..]);
    } else {
      ClearedCountsNothing(c, a, f);
    }
  }

  lemma {:induction false} ClearedCountsNothing(c: seq<Entry>, a: nat, f: Field)
    requires AllCleared(c)
    ensures Total(c, a, f) == 0
  {
    if c != [] {
      ClearedCountsNothing(c[1..], a, f);
    }
  }

  // ---- a table ----

  function Slot(a: nat, n: nat): nat
    requires n > 0
  {
    a % n
  }

  function Add(t: seq<seq<Entry>>, seed: nat, one: Counts): seq<seq<Entry>>
    requires t != []
  {
    var k := Slot(seed, |t|);
    t[k := AddChain(t[k], seed, one)]
  }

  /** The lines print_adx writes about the slots below k. */
  function Report(t: seq<seq<Entry>>, k: nat): seq<Entry>
    requires k <= |t|
  {
    if k == 0 then [] else Report(t, k - 1) + Lines(t[k - 1])
  }

  function Clear(t: seq<seq<Entry>>): seq<seq<Entry>> {
    seq(|t|, k requires 0 <= k < |t| => ClearChain(t[k]))
  }

  predicate TableOk(t: seq<seq<Entry>>) {
    t != [] && forall k :: 0 <= k < |t| ==> ChainOk(t[k], k, |t|)
  }

  /** What the table holds for address a. */
  function Held(t: seq<seq<Entry>>, a: nat, f: Field): int
    requires t != []
  {
    Total(t[Slot(a, |t|)], a, f)
  }

  lemma {:induction false} TotalConcat(c: seq<Entry>, d: seq<Entry>, a: nat, f: Field)
    ensures Total(c + d, a, f) == Total(c, a, f) + Total(d, a, f)
  {
    if c == [] {
      assert c + d == d;
    } else {
      TotalConcat(c[1..], d, a, f);
      assert (c + d)[1..] == c[1..] + d;
    }
  }

  lemma {:induction false} ElsewhereNothing(c: seq<Entry>, slot: nat, n: nat, a: nat, f: Field)
    requires n > 0 && ChainOk(c, slot, n) && Slot(a, n) != slot
    ensures Total(c, a, f) == 0
  {
    if c != [] {
      if HasHits(c[0]) {
        ElsewhereNothing(c[1..], slot, n, a, f);
      } else {
        ClearedCountsNothing(c, a, f);
      }
    }
  }

  lemma {:induction false} ReportTotal(t: seq<seq<Entry>>, k: nat, a: nat, f: Field)
    requires TableOk(t) && k <= |t|
    ensures Total(Report(t, k), a, f) == if Slot(a, |t|) < k then Held(t, a, f) else 0
  {
    if k > 0 {
      ReportTotal(t, k - 1, a, f);
      TotalConcat(Report(t, k - 1), Lines(t[k - 1]), a, f);
      PrintReportsAll(t[k - 1], k - 1, |t|, a, f);
      if Slot(a, |t|) != k - 1 {
        ElsewhereNothing(t[k - 1], k - 1, |t|, a, f);
      }
    }
  }

  /** What the next packet of this address takes over from address zero: all of it, if the address is new and in the same slot. */
  function TakenOver(t: seq<seq<Entry>>, seed: nat, f: Field): int
    requires t != []
  {
    if seed == 0 || Slot(seed, |t|) != 0 || Held(t, seed, SrcHits) + Held(t, seed, DstHits) > 0 then 0 else Held(t, 0, f)
  }

  /** How that changes the counts of address a. */
  function Moved(taken: int, seed: nat, a: nat): int {
    if a == seed then (if a == 0 then 0 else taken) else if a == 0 then -taken else 0
  }

  lemma AddToTable(t: seq<seq<Entry>>, seed: nat, one: Counts, a: nat, f: Field)
    requires TableOk(t) && HasHits(Entry(seed, one))
    ensures TableOk(Add(t, seed, one))
    ensures Held(Add(t, seed, one), a, f) ==
            Held(t, a, f) + (if a == seed then Get(one, f) else 0) + Moved(TakenOver(t, seed, f), seed, a)
  {
    var k := Slot(seed, |t|);
    AddKeepsChain(t[k], seed, one, k, |t|);
    AddMoves(t[k], seed, one, a, f);
    CapturedAreTheZeros(t[k], seed, k, |t|, f);
    if k != 0 {
      ElsewhereNothing(t[k], k, |t|, 0, f);
    }
  }

  lemma ClearTable(t: seq<seq<Entry>>, a: nat, f: Field)
    requires TableOk(t)
    ensures TableOk(Clear(t)) && Held(Clear(t), a, f) == 0
  {
    forall k | 0 <= k < |t|
      ensures ChainOk(Clear(t)[k], k, |t|) && Total(Clear(t)[k], a, f) == 0
    {
      PrintReportsAll(t[k], k, |t|, a, f);
    }
  }

  // ---- runs over both tables ----

  datatype Op = Packet(seed: nat, isSource: bool, bytes: nat) | Swap | Print

  /** cur is being filled, other is the one print_adx prints; pages are the reports so far. */
  datatype Buffers = Buffers(cur: seq<seq<Entry>>, other: seq<seq<Entry>>, pages: seq<seq<Entry>>)

  function EmptyTable(n: nat): seq<seq<Entry>> {
    seq(n, _ => [])
  }

  function Step(b: Buffers, op: Op): Buffers
    requires b.cur != []
  {
    match op
    case Packet(seed, isSource, bytes) => b.(cur := Add(b.cur, seed, One(isSource, bytes)))
    case Swap => b.(cur := b.other, other := b.cur)
    case Print => b.(other := Clear(b.other), pages := b.pages + [Report(b.other, |b.other|)])
  }

  function Run(n: nat, ops: seq<Op>): (b: Buffers)
    requires n > 0
    ensures |b.cur| == n == |b.other|
  {
    if ops == [] then Buffers(EmptyTable(n), EmptyTable(n), []) else Step(Run(n, ops[..|ops| - 1]), ops[|ops| - 1])
  }

  /** What all packets of address a add up to. */
  function Sent(ops: seq<Op>, a: nat, f: Field): int {
    if ops == [] then 0 else
      var op, rest := ops[|ops| - 1], Sent(ops[..|ops| - 1], a, f);
      if op.Packet? && op.seed == a then rest + Weight(op.isSource, op.bytes, f) else rest
  }

  function Printed(pages: seq<seq<Entry>>, a: nat, f: Field): int {
    if pages == [] then 0 else Printed(pages[..|pages| - 1], a, f) + Total(pages[|pages| - 1], a, f)
  }

  lemma {:induction false} RunOk(n: nat, ops: seq<Op>)
    requires n > 0
    ensures TableOk(Run(n, ops).cur) && TableOk(Run(n, ops).other)
  {
    if ops != [] {
      var rest, op := ops[..|ops| - 1], ops[|ops| - 1];
      RunOk(n, rest);
      match op
      case Packet(seed, isSource, bytes) => AddToTable(Run(n, rest).cur, seed, One(isSource, bytes), 0, SrcHits);
      case Swap =>
      case Print => ClearTable(Run(n, rest).other, 0, SrcHits);
    }
  }

  /** What address a has gained from address zero, or address zero lost to others, in the whole run. */
  function Gained(n: nat, ops: seq<Op>, a: nat, f: Field): int
    requires n > 0
  {
    if ops == [] then 0 else
      var op, rest := ops[|ops| - 1], ops[..|ops| - 1];
      Gained(n, rest, a, f) + if op.Packet? then Moved(TakenOver(Run(n, rest).cur, op.seed, f), op.seed, a) else 0
  }

  /**
   No packet is lost or counted twice: every one is in a page or still in one of the tables, whatever the order of swaps and
   prints. It is there under its own address, or under the one that took over the counts of address zero.
   */
  lemma {:induction false} Conservation(n: nat, ops: seq<Op>, a: nat, f: Field)
    requires n > 0
    ensures var b := Run(n, ops);
            Sent(ops, a, f) + Gained(n, ops, a, f) == Printed(b.pages, a, f) + Held(b.cur, a, f) + Held(b.other, a, f)
    ensures if a == 0 then Gained(n, ops, a, f) <= 0 else Gained(n, ops, a, f) >= 0
  {
    if ops != [] {
      var rest, op := ops[..|ops| - 1], ops[|ops| - 1];
      var b := Run(n, rest);
      Conservation(n, rest, a, f);
      RunOk(n, rest);
      match op
      case Packet(seed, isSource, bytes) => AddToTable(b.cur, seed, One(isSource, bytes), a, f);
      case Swap =>
      case Print =>
        ClearTable(b.other, a, f);
        ReportTotal(b.other, n, a, f);
        var page := Report(b.other, n);
        assert (b.pages + [page])[..|b.pages|] == b.pages;
    }
  }

  // ---- the total over all addresses ----

  /** What all entries add up to, whatever their address. */
  function Everything(c: seq<Entry>, f: Field): nat {
    if c == [] then 0 else Get(c[0].counts, f) + Everything(c[1..], f)
  }

  /** The same for the slots below k. */
  function Content(t: seq<seq<Entry>>, k: nat, f: Field): nat
    requires k <= |t|
  {
    if k == 0 then 0 else Content(t, k - 1, f) + Everything(t[k - 1], f)
  }

  lemma {:induction false} EverythingConcat(c: seq<Entry>, d: seq<Entry>, f: Field)
    ensures Everything(c + d, f) == Everything(c, f) + Everything(d, f)
  {
    if c == [] {
      assert c + d == d;
    } else {
      EverythingConcat(c[1..], d, f);
      assert (c + d)[1..] == c[1..] + d;
    }
  }

  lemma {:induction false} AddEverything(c: seq<Entry>, seed: nat, one: Counts, f: Field)
    ensures Everything(AddChain(c, seed, one), f) == Everything(c, f) + Get(one, f)
  {
    if c != [] {
      AddEverything(c[1..], seed, one, f);
    }
  }

  lemma {:induction false} ClearedIsNothing(c: seq<Entry>, f: Field)
    requires AllCleared(c)
    ensures Everything(c, f) == 0
  {
    if c != [] {
      ClearedIsNothing(c[1..], f);
    }
  }

  lemma {:induction false} PrintEverything(c: seq<Entry>, slot: nat, n: nat, f: Field)
    requires n > 0 && ChainOk(c, slot, n)
    ensures Everything(Lines(c), f) == Everything(c, f) && Everything(ClearChain(c), f) == 0
  {
    if c != [] && HasHits(c[0]) {
      PrintEverything(c[1..], slot, n, f);
      assert Lines(c)[1..] == Lines(c[1..]) && ClearChain(c)[1..] == ClearChain(c[1..]);
    } else {
      ClearedIsNothing(c, f);
    }
  }

  lemma {:induction false} ContentUpdate(t: seq<seq<Entry>>, i: nat, c: seq<Entry>, k: nat, f: Field)
    requires i < |t| && k <= |t|
    ensures Content(t[i := c], k, f) == Content(t, k, f) + if i < k then Everything(c, f) - Everything(t[i], f) else 0
  {
    if k > 0 {
      ContentUpdate(t, i, c, k - 1, f);
    }
  }

  lemma {:induction false} ReportContent(t: seq<seq<Entry>>, k: nat, f: Field)
    requires TableOk(t) && k <= |t|
    ensures Everything(Report(t, k), f) == Content(t, k, f)
  {
    if k > 0 {
      ReportContent(t, k - 1, f);
      PrintEverything(t[k - 1], k - 1, |t|, f);
      EverythingConcat(Report(t, k - 1), Lines(t[k - 1]), f);
    }
  }

  lemma {:induction false} ClearContent(t: seq<seq<Entry>>, k: nat, f: Field)
    requires TableOk(t) && k <= |t|
    ensures Content(Clear(t), k, f) == 0
  {
    if k > 0 {
      ClearContent(t, k - 1, f);
      PrintEverything(t[k - 1], k - 1, |t|, f);
    }
  }

  lemma {:induction false} EmptyContent(n: nat, k: nat, f: Field)
    requires k <= n
    ensures Content(EmptyTable(n), k, f) == 0
  {
    if k > 0 {
      EmptyContent(n, k - 1, f);
    }
  }

  /** What all packets add up to. */
  function AllSent(ops: seq<Op>, f: Field): int {
    if ops == [] then 0 else
      var op, rest := ops[|ops| - 1], AllSent(ops[..|ops| - 1], f);
      if op.Packet? then rest + Weight(op.isSource, op.bytes, f) else rest
  }

  function AllPrinted(pages: seq<seq<Entry>>, f: Field): int {
    if pages == [] then 0 else AllPrinted(pages[..|pages| - 1], f) + Everything(pages[|pages| - 1], f)
  }

  /** The total over all addresses is conserved exactly by every run: an entry that is relabelled keeps its counts. */
  lemma {:induction false} TotalConservation(n: nat, ops: seq<Op>, f: Field)
    requires n > 0
    ensures var b := Run(n, ops);
            AllSent(ops, f) == AllPrinted(b.pages, f) + Content(b.cur, n, f) + Content(b.other, n, f)
  {
    if ops == [] {
      EmptyContent(n, n, f);
    } else {
      var rest, op := ops[..|ops| - 1], ops[|ops| - 1];
      var b := Run(n, rest);
      TotalConservation(n, rest, f);
      RunOk(n, rest);
      match op
      case Packet(seed, isSource, bytes) =>
        var k, one := Slot(seed, n), One(isSource, bytes);
        AddEverything(b.cur[k], seed, one, f);
        ContentUpdate(b.cur, k, AddChain(b.cur[k], seed, one), n, f);
      case Swap =>
      case Print =>
        ReportContent(b.other, n, f);
        ClearContent(b.other, n, f);
        var page := Report(b.other, n);
        assert (b.pages + [page])[..|b.pages|] == b.pages;
    }
  }

  // ---- pages and the packets between two swaps ----

  /** Whether the last swap has not been followed by a print. */
  predicate Pending(ops: seq<Op>) {
    ops != [] && (ops[|ops| - 1].Swap? || (ops[|ops| - 1].Packet? && Pending(ops[..|ops| - 1])))
  }

  /** Every swap is followed by a print before the next swap. */
  predicate Disciplined(ops: seq<Op>) {
    ops != [] ==> Disciplined(ops[..|ops| - 1]) && (ops[|ops| - 1].Swap? ==> !Pending(ops[..|ops| - 1]))
  }

  /** The packets of address a since the last swap. */
  function SinceSwap(ops: seq<Op>, a: nat, f: Field): int {
    if ops == [] then 0 else
      var op, rest := ops[|ops| - 1], ops[..|ops| - 1];
      match op
      case Packet(seed, isSource, bytes) =>
        if seed == a then SinceSwap(rest, a, f) + Weight(isSource, bytes, f) else SinceSwap(rest, a, f)
      case Swap => 0
      case Print => SinceSwap(rest, a, f)
  }

  predicate Seen(ops: seq<Op>, a: nat) {
    SinceSwap(ops, a, SrcHits) + SinceSwap(ops, a, DstHits) > 0
  }

  /** What is counted for address a since the last swap: a new address in slot zero takes over what address zero has. */
  function CountedSinceSwap(n: nat, ops: seq<Op>, a: nat, f: Field): int
    requires n > 0
    decreases |ops|, 0
  {
    if ops == [] then 0 else
      var op, rest := ops[|ops| - 1], ops[..|ops| - 1];
      match op
      case Packet(seed, isSource, bytes) =>
        CountedSinceSwap(n, rest, a, f) + (if a == seed then Weight(isSource, bytes, f) else 0)
        + Moved(TakenSinceSwap(n, rest, seed, f), seed, a)
      case Swap => 0
      case Print => CountedSinceSwap(n, rest, a, f)
  }

  function TakenSinceSwap(n: nat, ops: seq<Op>, seed: nat, f: Field): int
    requires n > 0
    decreases |ops|, 1
  {
    if seed == 0 || seed % n != 0 || Seen(ops, seed) then 0 else CountedSinceSwap(n, ops, 0, f)
  }

  /** Since the last swap, a packet of address zero was followed by one of a new address in its slot. */
  predicate Captures(n: nat, ops: seq<Op>)
    requires n > 0
  {
    ops != [] &&
    var op, rest := ops[|ops| - 1], ops[..|ops| - 1];
    match op
    case Packet(seed, _, _) => Captures(n, rest) || (seed != 0 && seed % n == 0 && !Seen(rest, seed) && Seen(rest, 0))
    case Swap => false
    case Print => Captures(n, rest)
  }

  /** The run up to the last swap, that swap left out. */
  function BeforeSwap(ops: seq<Op>): seq<Op> {
    if ops == [] then [] else
      var rest := ops[..|ops| - 1];
      if ops[|ops| - 1].Swap? then rest else BeforeSwap(rest)
  }

  lemma {:induction false} UnseenIsNothing(ops: seq<Op>, a: nat, f: Field)
    ensures SinceSwap(ops, a, f) >= 0 && (!Seen(ops, a) ==> SinceSwap(ops, a, f) == 0)
  {
    if ops != [] {
      UnseenIsNothing(ops[..|ops| - 1], a, SrcHits);
      UnseenIsNothing(ops[..|ops| - 1], a, DstHits);
      UnseenIsNothing(ops[..|ops| - 1], a, f);
    }
  }

  lemma {:induction false} CountedBounds(n: nat, ops: seq<Op>, a: nat, f: Field)
    requires n > 0
    ensures CountedSinceSwap(n, ops, a, f) >= 0
    ensures if a == 0 then CountedSinceSwap(n, ops, a, f) <= SinceSwap(ops, a, f)
            else SinceSwap(ops, a, f) <= CountedSinceSwap(n, ops, a, f)
    ensures !Captures(n, ops) ==> CountedSinceSwap(n, ops, a, f) == SinceSwap(ops, a, f)
  {
    if ops != [] {
      var rest := ops[..|ops| - 1];
      CountedBounds(n, rest, a, f);
      CountedBounds(n, rest, 0, f);
      UnseenIsNothing(rest, 0, f);
    }
  }

  /** Address zero lacks hits from the first capture on. */
  lemma {:induction false} CapturesLose(n: nat, ops: seq<Op>)
    requires n > 0 && Captures(n, ops)
    ensures CountedSinceSwap(n, ops, 0, SrcHits) + CountedSinceSwap(n, ops, 0, DstHits) <
            SinceSwap(ops, 0, SrcHits) + SinceSwap(ops, 0, DstHits)
  {
    var rest := ops[..|ops| - 1];
    CountedBounds(n, rest, 0, SrcHits);
    CountedBounds(n, rest, 0, DstHits);
    if Captures(n, rest) {
      CapturesLose(n, rest);
    }
  }

  /** Every address has what its own packets since the last swap add up to, exactly if no other takes over those of zero. */
  lemma CountsExactly(n: nat, ops: seq<Op>)
    requires n > 0
    ensures (forall a: nat, f: Field :: CountedSinceSwap(n, ops, a, f) == SinceSwap(ops, a, f)) <==> !Captures(n, ops)
  {
    if Captures(n, ops) {
      CapturesLose(n, ops);
    } else {
      forall a: nat, f: Field
        ensures CountedSinceSwap(n, ops, a, f) == SinceSwap(ops, a, f)
      {
        CountedBounds(n, ops, a, f);
      }
    }
  }

  lemma SeenIsCounted(n: nat, ops: seq<Op>, a: nat)
    requires n > 0 && a != 0
    ensures Seen(ops, a) <==> CountedSinceSwap(n, ops, a, SrcHits) + CountedSinceSwap(n, ops, a, DstHits) > 0
  {
    if !Seen(ops, a) {
      UnseenNotCounted(n, ops, a, SrcHits);
      UnseenNotCounted(n, ops, a, DstHits);
    }
    CountedBounds(n, ops, a, SrcHits);
    CountedBounds(n, ops, a, DstHits);
  }

  lemma {:induction false} UnseenNotCounted(n: nat, ops: seq<Op>, a: nat, f: Field)
    requires n > 0 && a != 0 && !Seen(ops, a)
    ensures CountedSinceSwap(n, ops, a, f) == 0
  {
    if ops != [] && !ops[|ops| - 1].Swap? {
      var rest := ops[..|ops| - 1];
      UnseenIsNothing(rest, a, SrcHits);
      UnseenIsNothing(rest, a, DstHits);
      UnseenNotCounted(n, rest, a, f);
    }
  }

  /** The table being filled holds for address a what was counted since the last swap. */
  predicate HoldsCounted(t: seq<seq<Entry>>, ops: seq<Op>, a: nat, f: Field)
    requires t != []
  {
    Held(t, a, f) == CountedSinceSwap(|t|, ops, a, f)
  }

  lemma TakenIsCounted(t: seq<seq<Entry>>, ops: seq<Op>, seed: nat, f: Field)
    requires t != [] && HoldsCounted(t, ops, 0, f)
    requires HoldsCounted(t, ops, seed, SrcHits) && HoldsCounted(t, ops, seed, DstHits)
    ensures TakenOver(t, seed, f) == TakenSinceSwap(|t|, ops, seed, f)
  {
    if seed != 0 {
      SeenIsCounted(|t|, ops, seed);
    }
  }

  /** The tables hold what was counted since the last swap and, until it is printed, in the interval before. */
  lemma {:induction false} EpochsAreSeparate(n: nat, ops: seq<Op>, a: nat, f: Field)
    requires n > 0 && Disciplined(ops)
    ensures var b := Run(n, ops);
            && HoldsCounted(b.cur, ops, a, f)
            && Held(b.other, a, f) == if Pending(ops) then CountedSinceSwap(n, BeforeSwap(ops), a, f) else 0
  {
    if ops != [] {
      var rest, op := ops[..|ops| - 1], ops[|ops| - 1];
      var b := Run(n, rest);
      EpochsAreSeparate(n, rest, a, f);
      RunOk(n, rest);
      match op
      case Packet(seed, isSource, bytes) =>
        EpochsAreSeparate(n, rest, 0, f);
        EpochsAreSeparate(n, rest, seed, SrcHits);
        EpochsAreSeparate(n, rest, seed, DstHits);
        TakenIsCounted(b.cur, rest, seed, f);
        AddToTable(b.cur, seed, One(isSource, bytes), a, f);
      case Swap =>
      case Print => ClearTable(b.other, a, f);
    }
  }

  /** The page printed after a swap. */
  function PageAfter(n: nat, ops: seq<Op>): seq<Entry>
    requires n > 0
  {
    var pages := Run(n, ops + [Print]).pages;
    if pages == [] then [] else pages[|pages| - 1]
  }

  lemma PageCounts(n: nat, ops: seq<Op>, a: nat, f: Field)
    requires n > 0 && Disciplined(ops) && Pending(ops)
    ensures Total(PageAfter(n, ops), a, f) == CountedSinceSwap(n, BeforeSwap(ops), a, f)
  {
    assert (ops + [Print])[..|ops|] == ops;
    RunOk(n, ops);
    EpochsAreSeparate(n, ops, a, f);
    ReportTotal(Run(n, ops).other, n, a, f);
  }

  /**
   The page printed after a swap reports every address with exactly its packets between that swap and the one before, if and
   only if in between no packet of address zero was followed by one of a new address in its slot.
   */
  lemma PageIsEpoch(n: nat, ops: seq<Op>)
    requires n > 0 && Disciplined(ops) && Pending(ops)
    ensures (forall a: nat, f: Field :: Total(PageAfter(n, ops), a, f) == SinceSwap(BeforeSwap(ops), a, f)) <==>
            !Captures(n, BeforeSwap(ops))
  {
    forall a: nat, f: Field
      ensures Total(PageAfter(n, ops), a, f) == CountedSinceSwap(n, BeforeSwap(ops), a, f)
    {
      PageCounts(n, ops, a, f);
    }
    CountsExactly(n, BeforeSwap(ops));
  }
}
