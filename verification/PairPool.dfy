/**
 The recycled connection records: a doubly linked list of cells and a cursor into it. Cells above the cursor are empty and
 kept for later; from the cursor down they hold the released records, the one released last at the cursor.
 */
module PairPool {

  /** A connection record; zero stands for a record whose fields are all zero. */
  class TcpPair {
    var data: int

    constructor ()
      ensures data == 0
    {
      data := 0;
    }
  }

  class Cell {
    var ptp: TcpPair?
    var next: Cell?
    var prev: Cell?

    constructor (p: TcpPair)
      ensures ptp == p && next == null && prev == null
    {
      ptp, next, prev := p, null, null;
    }
  }

  class PairPool {
    var top: Cell?
    var last: Cell?
    ghost var cells: seq<Cell>
    ghost var cur: nat
    ghost var stack: seq<TcpPair>
    ghost var live: set<TcpPair>
    /** The most records that were ever free at the same time. */
    ghost var peak: nat

    ghost predicate Linked()
      reads this, cells
    {
      && top == (if cells == [] then null else cells[0])
      && (forall i, j :: 0 <= i < j < |cells| ==> cells[i] != cells[j])
      && (forall i {:trigger cells[i].next} :: 0 <= i < |cells| ==> cells[i].next == if i == |cells| - 1 then null else cells[i + 1])
      && (forall i {:trigger cells[i].prev} :: 0 <= i < |cells| ==> cells[i].prev == if i == 0 then null else cells[i - 1])
    }

    /** The cells hold the stack from the cursor down, and nothing above it. */
    ghost predicate Holds()
      reads this, cells
    {
      && (if cells == [] then last == null && cur == 0 else cur < |cells| && last == cells[cur])
      && (if stack == [] then cells == [] || cur == |cells| - 1 else cur + |stack| == |cells|)
      && (forall i {:trigger cells[i].ptp} :: 0 <= i < |cells| ==>
            cells[i].ptp == if stack == [] || i < cur then null else stack[i - cur])
    }

    /** Every record is handed out, or on the stack once, and then zero. */
    ghost predicate Owned()
      reads this, stack
    {
      && (forall i {:trigger stack[i]} :: 0 <= i < |stack| ==> stack[i] !in live && stack[i].data == 0)
      && (forall i, j :: 0 <= i < j < |stack| ==> stack[i] != stack[j])
    }

    ghost predicate Valid()
      reads this, cells, stack
    {
      Linked() && Holds() && Owned() && |stack| <= peak == |cells|
    }

    constructor ()
      ensures Valid() && stack == [] && live == {} && cells == []
    {
      top, last := null, null;
      cells, cur, stack, live, peak := [], 0, [], {}, 0;
    }

    ghost function AtCursor(): set<Cell>
      reads this
    {
      if last == null then {} else {last}
    }

    /** tp_alloc */
    method Alloc() returns (p: TcpPair)
      requires Valid()
      modifies this, AtCursor()
      ensures Valid() && live == old(live) + {p} && p !in old(live) && p.data == 0
      ensures if old(stack) == [] then fresh(p) && stack == [] else p == old(stack)[0] && stack == old(stack)[1..]
      ensures cells == old(cells) && peak == old(peak)
    {
      if last == null || last.ptp == null {
        p := new TcpPair();
      } else {
        p := last.ptp;
        last.ptp := null;
        stack := stack[1..];
        if last.next != null {
          last := last.next;
          cur := cur + 1;
        }
      }
      live := live + {p};
    }

    /** The cell that tp_release fills, when it takes one it already has. */
    ghost function Target(): set<Cell>
      reads this, AtCursor()
    {
      if last == null then {} else if last.ptp == null || last.prev == null then {last} else {last, last.prev}
    }

    /** tp_release, the case in which every cell is full. */
    method ReleaseNew(p: TcpPair)
      requires Valid() && p in live && p.data == 0 && |stack| == |cells|
      modifies this, AtCursor()
      ensures Valid() && live == old(live) - {p} && stack == [p] + old(stack)
      ensures |cells| == |old(cells)| + 1 && peak == old(peak) + 1
    {
      var cell := new Cell(p);
      cell.next := top;
      if cell.next != null {
        cell.next.prev := cell;
      }
      top := cell;
      last := cell;
      cells, cur, peak := [cell] + cells, 0, peak + 1;
      stack, live := [p] + stack, live - {p};
    }

    /** tp_release: the record is cleared and becomes the next one to be handed out. */
    method Release(p: TcpPair)
      requires Valid() && p in live
      modifies this, p, Target()
      ensures Valid() && live == old(live) - {p} && stack == [p] + old(stack)
      ensures peak == if |old(stack)| == old(peak) then old(peak) + 1 else old(peak)
    {
      p.data := 0;
      if last == null || (last.ptp != null && last.prev == null) {
        ReleaseNew(p);
      } else {
        var cell := if last.ptp == null then last else last.prev;
        cur := if last.ptp == null then cur else cur - 1;
        cell.ptp := p;
        last := cell;
        stack, live := [p] + stack, live - {p};
      }
    }
  }
}
