/** The address counters in place: arrays of chains whose entries are relabelled, incremented, cleared and appended. */
module AddressTables {
  import opened Addresses

  /** An entry of a chain. slot and pos say where it hangs. */
  class Adx {
    var entry: Entry
    var next: Adx?
    ghost var slot: nat
    ghost var pos: nat

    constructor (entry: Entry, ghost slot: nat, ghost pos: nat)
      ensures this.entry == entry && next == null && this.slot == slot && this.pos == pos
    {
      this.entry, next, this.slot, this.pos := entry, null, slot, pos;
    }
  }

  class AdxTable {
    const slots: array<Adx?>
    ghost var chains: seq<seq<Adx>>
    ghost var vals: seq<seq<Entry>>
    ghost var own: set<Adx>

    ghost predicate Valid()
      reads this, slots, own
    {
      && slots.Length > 0 && |chains| == |vals| == slots.Length
      && (forall k {:trigger chains[k]} {:trigger vals[k]} :: 0 <= k < |chains| ==> |chains[k]| == |vals[k]|)
      && (forall k, i {:trigger chains[k][i]} :: 0 <= k < |chains| && 0 <= i < |chains[k]| ==> chains[k][i] in own)
      && (forall k, i {:trigger chains[k][i].entry} :: 0 <= k < |chains| && 0 <= i < |chains[k]| ==> chains[k][i].entry == vals[k][i])
      && (forall k, i {:trigger chains[k][i].slot} {:trigger chains[k][i].pos} :: 0 <= k < |chains| && 0 <= i < |chains[k]| ==>
            chains[k][i].slot == k && chains[k][i].pos == i)
      && (forall k, i {:trigger chains[k][i].next} :: 0 <= k < |chains| && 0 <= i < |chains[k]| ==>
            chains[k][i].next == if i + 1 < |chains[k]| then chains[k][i + 1] else null)
      && (forall k {:trigger slots[k]} :: 0 <= k < |chains| ==> slots[k] == if chains[k] == [] then null else chains[k][0])
    }

    constructor (n: nat)
      requires n > 0
      ensures Valid() && fresh(slots) && own == {} && vals == EmptyTable(n)
    {
      slots := new Adx?[n](_ => null);
      chains, vals, own := seq(n, _ => []), EmptyTable(n), {};
    }

    /** An entry hangs in one place only. */
    lemma OnePlace(k: nat, i: nat, l: nat, j: nat)
      requires Valid() && k < |chains| && i < |chains[k]| && l < |chains| && j < |chains[l]|
      requires chains[k][i] == chains[l][j]
      ensures k == l && i == j
    {
      assert chains[k][i].slot == k && chains[l][j].slot == l && chains[k][i].pos == i && chains[l][j].pos == j;
    }

    /** Changes the value of one entry. */
    method SetEntry(x: Adx, e: Entry, ghost k: nat, ghost i: nat)
      requires Valid() && k < |chains| && i < |chains[k]| && chains[k][i] == x
      modifies x`entry, this`vals
      ensures Valid() && vals == old(vals)[k := old(vals)[k][i := e]]
    {
      forall l, j | 0 <= l < |chains| && 0 <= j < |chains[l]| && chains[l][j] == x
        ensures l == k && j == i
      {
        OnePlace(k, i, l, j);
      }
      x.entry := e;
      vals := vals[k := vals[k][i := e]];
    }

    /** Starts the chain of slot k. */
    method Start(k: nat, e: Entry)
      requires Valid() && k < |chains| && chains[k] == []
      modifies this, slots
      ensures Valid() && vals == old(vals)[k := [e]] && fresh(own - old(own)) && old(own) <= own
    {
      var x := new Adx(e, k, 0);
      slots[k] := x;
      chains, vals, own := chains[k := [x]], vals[k := [e]], own + {x};
    }

    /** Hangs a new entry behind the last one of slot k. */
    method Append(last: Adx, e: Entry, k: nat)
      requires Valid() && k < |chains| && chains[k] != [] && last == chains[k][|chains[k]| - 1]
      modifies this, last`next
      ensures Valid() && vals == old(vals)[k := old(vals)[k] + [e]] && fresh(own - old(own)) && old(own) <= own
    {
      ghost var n := |chains[k]|;
      forall l, j | 0 <= l < |chains| && 0 <= j < |chains[l]| && chains[l][j] == last
        ensures l == k && j == n - 1
      {
        OnePlace(k, n - 1, l, j);
      }
      var x := new Adx(e, k, n);
      last.next := x;
      chains, vals, own := chains[k := chains[k] + [x]], vals[k := vals[k] + [e]], own + {x};
    }

    /** The entry of slot k that an addition takes, with its place; null and the last entry if there is none. */
    method Find(k: nat, seed: nat) returns (hit: Adx?, prev: Adx?, ghost i: nat)
      requires Valid() && k < |chains|
      ensures i == Place(vals[k], seed)
      ensures if i < |chains[k]| then hit == chains[k][i] else hit == null
      ensures hit == null && chains[k] != [] ==> prev == chains[k][|chains[k]| - 1]
    {
      i := 0;
      hit, prev := slots[k], null;
      while hit != null
        invariant i <= |chains[k]| && hit == if i == |chains[k]| then null else chains[k][i]
        invariant i > 0 ==> prev == chains[k][i - 1]
        invariant forall j :: 0 <= j < i ==> vals[k][j].ip != seed && vals[k][j].ip != 0
        decreases |chains[k]| - i
      {
        assert hit == chains[k][i] && chains[k][i].entry == vals[k][i];
        if hit.entry.ip == seed || hit.entry.ip == 0 {
          PlaceIs(vals[k], seed, i);
          return;
        }
        prev := hit;
        assert chains[k][i].next == if i + 1 < |chains[k]| then chains[k][i + 1] else null;
        hit := hit.next;
        i := i + 1;
      }
      PlaceIs(vals[k], seed, i);
    }

    /** add_adx */
    method AddAdx(seed: nat, isSource: bool, bytes: nat)
      requires Valid()
      modifies this, slots, own
      ensures Valid() && vals == Add(old(vals), seed, One(isSource, bytes)) && fresh(own - old(own)) && old(own) <= own
    {
      var k := seed % slots.Length;
      var one := One(isSource, bytes);
      AddAtPlace(vals[k], seed, one);
      if slots[k] == null {
        Start(k, Entry(seed, one));
      } else {
        var hit, prev;
        ghost var i;
        hit, prev, i := Find(k, seed);
        if hit != null {
          assert hit.entry == vals[k][i];
          SetEntry(hit, Entry(seed, Plus(hit.entry.counts, one)), k, i);
        } else {
          Append(prev, Entry(seed, one), k);
        }
      }
    }

    /** print_adx on one slot: the entries with hits are printed and cleared, up to the first one without. */
    method PrintSlot(k: nat) returns (lines: seq<Entry>)
      requires Valid() && k < |chains|
      modifies this`vals, own`entry
      ensures Valid() && lines == Lines(old(vals)[k]) && vals == old(vals)[k := ClearChain(old(vals)[k])]
    {
      lines := [];
      var ptr := slots[k];
      ghost var i := 0;
      ghost var c := vals[k];
      while ptr != null && HasHits(ptr.entry)
        invariant Valid() && vals == old(vals)[k := vals[k]]
        invariant PrintState(c, vals[k], i, lines)
        invariant ptr == if i == |c| then null else chains[k][i]
        decreases |c| - i
      {
        assert ptr == chains[k][i] && chains[k][i].entry == vals[k][i];
        PrintStep(c, vals[k], i, lines);
        lines := lines + [ptr.entry];
        SetEntry(ptr, CLEARED, k, i);
        assert chains[k][i].next == if i + 1 < |c| then chains[k][i + 1] else null;
        ptr := ptr.next;
        i := i + 1;
      }
      assert i < |c| ==> chains[k][i].entry == vals[k][i];
      PrintEnd(c, vals[k], i, lines);
    }

    /** The walk of print_adx over all slots. */
    method PrintAdx() returns (lines: seq<Entry>)
      requires Valid()
      modifies this`vals, own`entry
      ensures Valid() && lines == Report(old(vals), |old(vals)|) && vals == Clear(old(vals))
    {
      lines := [];
      var k := 0;
      while k < slots.Length
        invariant Valid() && k <= slots.Length
        invariant lines == Report(old(vals), k)
        invariant forall j :: 0 <= j < |vals| ==> vals[j] == if j < k then Clear(old(vals))[j] else old(vals)[j]
      {
        var page := PrintSlot(k);
        lines := lines + page;
        k := k + 1;
      }
    }
  }

  /** One address table of the program: two tables, one of them being filled. */
  class AdxBuffers {
    const first: AdxTable
    const second: AdxTable
    var current: AdxTable
    ghost var pages: seq<seq<Entry>>

    ghost function Other(): AdxTable
      reads this
    {
      if first == current then second else first
    }

    ghost predicate Valid()
      reads this, first, second, first.slots, second.slots, first.own, second.own
    {
      && first != second && (current == first || current == second)
      && first.own !! second.own && first.slots != second.slots
      && first.Valid() && second.Valid()
    }

    ghost function Value(): Buffers
      reads this, first, second, current
    {
      Buffers(current.vals, Other().vals, pages)
    }

    constructor (n: nat)
      requires n > 0
      ensures Valid() && Value() == Run(n, [])
    {
      var a := new AdxTable(n);
      var b := new AdxTable(n);
      first, second, current, pages := a, b, a, [];
    }

    method AddAdx(seed: nat, isSource: bool, bytes: nat)
      requires Valid()
      modifies current, current.slots, current.own
      ensures Valid() && current == old(current)
      ensures Value() == Step(old(Value()), Packet(seed, isSource, bytes))
    {
      current.AddAdx(seed, isSource, bytes);
    }

    method SwapAdx()
      requires Valid()
      modifies this`current
      ensures Valid() && Value() == Step(old(Value()), Swap)
    {
      if first == current {
        current := second;
      } else {
        current := first;
      }
    }

    method PrintAdx() returns (lines: seq<Entry>)
      requires Valid()
      modifies this`pages, Other()`vals, Other().own`entry
      ensures Valid() && Value() == Step(old(Value()), Print) && pages == old(pages) + [lines]
    {
      var table := if first == current then second else first;
      lines := table.PrintAdx();
      pages := pages + [lines];
    }
  }

  /** While a chain that was c is printed: i entries are printed and cleared, the others are as before. */
  ghost predicate PrintState(c: seq<Entry>, v: seq<Entry>, i: nat, lines: seq<Entry>) {
    && |v| == |c| && i <= |c| && (forall j :: i <= j < |c| ==> v[j] == c[j])
    && Lines(c) == lines + Lines(c[i..]) && ClearChain(c) == v[..i] + ClearChain(c[i..])
  }

  lemma PrintStep(c: seq<Entry>, v: seq<Entry>, i: nat, lines: seq<Entry>)
    requires PrintState(c, v, i, lines) && i < |c| && HasHits(v[i])
    ensures PrintState(c, v[i := CLEARED], i + 1, lines + [v[i]])
  {
    assert c[i..][1..] == c[i + 1..];
    assert v[i := CLEARED][..i + 1] == v[..i] + [CLEARED];
  }

  lemma PrintEnd(c: seq<Entry>, v: seq<Entry>, i: nat, lines: seq<Entry>)
    requires PrintState(c, v, i, lines) && (i < |c| ==> !HasHits(v[i]))
    ensures lines == Lines(c) && v == ClearChain(c)
  {
    assert v == v[..i] + c[i..];
  }

  /** The position of the entry that an addition takes; the length of the chain if there is none. */
  function Place(c: seq<Entry>, seed: nat): (i: nat)
    ensures i <= |c|
  {
    if c == [] || c[0].ip == seed || c[0].ip == 0 then 0 else 1 + Place(c[1..], seed)
  }

  lemma {:induction false} PlaceIs(c: seq<Entry>, seed: nat, i: nat)
    requires i <= |c| && forall j :: 0 <= j < i ==> c[j].ip != seed && c[j].ip != 0
    requires i < |c| ==> c[i].ip == seed || c[i].ip == 0
    ensures Place(c, seed) == i
  {
    if i > 0 {
      PlaceIs(c[1..], seed, i - 1);
    }
  }

  lemma {:induction false} AddAtPlace(c: seq<Entry>, seed: nat, one: Counts)
    ensures var i := Place(c, seed);
            AddChain(c, seed, one) ==
            if i == |c| then c + [Entry(seed, one)] else c[i := Entry(seed, Plus(c[i].counts, one))]
  {
    if c != [] && c[0].ip != seed && c[0].ip != 0 {
      AddAtPlace(c[1..], seed, one);
    }
  }
}
