/** The file table in place: two doubly linked lists between sentinels, and the streams of the files. */
module MFiles {
  import opened Common
  import opened ManyFiles

  /** A file record. id numbers the files in the order they were opened. */
  class MFile {
    const name: string
    ghost const id: nat
    var stream: Option<nat>
    var fptr: nat
    var next: MFile?
    var prev: MFile?

    constructor (name: string, ghost id: nat)
      ensures this.name == name && this.id == id && stream == None && fptr == 0 && next == null && prev == null
    {
      this.name, this.id := name, id;
      stream, fptr, next, prev := None, 0, null, null;
    }
  }

  /** One of the two lists; chain includes both sentinels. */
  class Lru {
    const head: MFile
    const tail: MFile
    ghost var chain: seq<MFile>
    ghost var own: set<MFile>

    ghost predicate Valid()
      reads this, own
    {
      && |chain| >= 2 && chain[0] == head && chain[|chain| - 1] == tail
      && (forall i {:trigger chain[i]} :: 0 <= i < |chain| ==> chain[i] in own)
      && (forall i {:trigger chain[i].next} :: 0 <= i < |chain| - 1 ==> chain[i].next == chain[i + 1])
      && (forall i {:trigger chain[i].prev} :: 0 < i < |chain| ==> chain[i].prev == chain[i - 1])
      && (forall i, j :: 0 <= i < j < |chain| ==> chain[i] != chain[j])
    }

    constructor ()
      ensures Valid() && chain == [head, tail] && own == {head, tail} && fresh(own)
    {
      var h := new MFile("HEAD", 0);
      var t := new MFile("TAIL", 0);
      head, tail, chain, own := h, t, [h, t], {h, t};
      new;
      head.next := tail;
      tail.prev := head;
    }

    ghost function Node(i: nat): MFile
      requires i < |chain|
      reads this
    {
      chain[i]
    }

    /** Mf_unlink */
    method Unlink(x: MFile, ghost i: nat)
      requires Valid() && 0 < i < |chain| - 1 && chain[i] == x
      modifies this, Node(i - 1)`next, Node(i + 1)`prev
      ensures Valid() && own == old(own) - {x}
      ensures chain == old(chain)[..i] + old(chain)[i + 1..]
    {
      assert chain[i].prev == chain[i - 1] && chain[i].next == chain[i + 1];
      x.prev.next := x.next;
      x.next.prev := x.prev;
      chain, own := chain[..i] + chain[i + 1..], own - {x};
    }

    /** Mf_totail */
    method ToTail(x: MFile)
      requires Valid() && x !in own
      modifies this, x`next, x`prev, tail`prev, Node(|chain| - 2)`next
      ensures Valid() && own == old(own) + {x}
      ensures chain == old(chain)[..|old(chain)| - 1] + [x, tail]
    {
      assert tail.prev == chain[|chain| - 2] && chain[|chain| - 1].prev == chain[|chain| - 2];
      x.next := tail;
      x.prev := tail.prev;
      tail.prev.next := x;
      tail.prev := x;
      chain, own := chain[..|chain| - 1] + [x, tail], own + {x};
    }
  }

  /** The numbers of the files between the sentinels. */
  ghost function IdsOf(chain: seq<MFile>): (ids: seq<nat>)
    ensures |ids| == if |chain| >= 2 then |chain| - 2 else 0
    ensures forall i :: 0 <= i < |ids| ==> ids[i] == chain[i + 1].id
  {
    if |chain| < 2 then [] else seq(|chain| - 2, i requires 0 <= i < |chain| - 2 => chain[i + 1].id)
  }

  lemma IdsCut(chain: seq<MFile>, i: nat, ids: seq<nat>)
    requires 0 < i < |chain| - 1 && ids == IdsOf(chain)
    ensures IdsOf(chain[..i] + chain[i + 1..]) == ids[..i - 1] + ids[i..]
  {
  }

  lemma IdsWithout(chain: seq<MFile>, i: nat)
    requires 0 < i < |chain| - 1 && Distinct(IdsOf(chain))
    ensures IdsOf(chain[..i] + chain[i + 1..]) == Without(IdsOf(chain), chain[i].id)
  {
    var ids := IdsOf(chain);
    WithoutAt(ids, i - 1);
    IdsCut(chain, i, ids);
  }

  lemma {:induction false} WithoutAt(ids: seq<nat>, i: nat)
    requires i < |ids| && Distinct(ids)
    ensures Without(ids, ids[i]) == ids[..i] + ids[i + 1..]
  {
    if i > 0 {
      var rest := ids[1..];
      assert rest[i - 1] == ids[i] && forall j :: 0 <= j < |rest| ==> rest[j] == ids[j + 1];
      WithoutAt(rest, i - 1);
      assert [ids[0]] + (rest[..i - 1] + rest[i..]) == ids[..i] + ids[i + 1..];
    }
  }

  lemma IdsAppend(chain: seq<MFile>, x: MFile, tail: MFile)
    requires |chain| >= 2
    ensures IdsOf(chain[..|chain| - 1] + [x, tail]) == IdsOf(chain) + [x.id]
  {
  }

  class MFileTable {
    const open: Lru
    const closed: Lru
    ghost var files: seq<MFile>
    ghost var vals: State
    /** The file system, as the system calls below the streams see it. */
    var disk: map<string, Bytes>

    ghost function Nodes(): set<MFile>
      reads open, closed
    {
      open.own + closed.own
    }

    /** The lists are separate and hold files of the table between their sentinels. */
    ghost predicate Lists()
      reads this, open, closed, Nodes()
    {
      && open != closed && open.Valid() && closed.Valid() && open.own !! closed.own
      && (forall i {:trigger open.chain[i]} :: 0 < i < |open.chain| - 1 ==> open.chain[i] in files)
      && (forall i {:trigger closed.chain[i]} :: 0 < i < |closed.chain| - 1 ==> closed.chain[i] in files)
      && (forall k {:trigger files[k]} :: 0 <= k < |files| ==> files[k].id == k)
      && open.head !in files && open.tail !in files && closed.head !in files && closed.tail !in files
    }

    /** vals is what the records and the lists show. */
    ghost predicate Shows()
      reads this, open, closed, files
    {
      && |vals.files| == |files| && vals.disk == disk
      && vals.open == IdsOf(open.chain) && vals.closed == IdsOf(closed.chain)
      && (forall k {:trigger files[k]} :: 0 <= k < |files| ==>
            files[k].name == vals.files[k].name && files[k].stream == vals.files[k].stream && files[k].fptr == vals.files[k].fptr)
    }

    ghost predicate Valid()
      reads this, open, closed, Nodes(), files
    {
      Lists() && Shows()
    }

    constructor ()
      ensures Valid() && vals == NOTHING && fresh(open) && fresh(closed) && fresh(Nodes())
    {
      var a := new Lru();
      var b := new Lru();
      open, closed, files, vals, disk := a, b, [], NOTHING, map[];
    }

    /** A file of the table by its number. */
    lemma FileOf(x: MFile)
      requires Lists() && x in files
      ensures x.id < |files| && files[x.id] == x
    {
      var k :| 0 <= k < |files| && files[k] == x;
    }

    /** The stream of a file changes, and the position kept for it. */
    method SetStream(x: MFile, stream: Option<nat>, fptr: nat)
      requires Valid() && x in files
      modifies this`vals, x`stream, x`fptr
      ensures Valid() && x.id < |old(vals).files|
      ensures vals == old(vals).(files := old(vals).files[x.id := File(x.name, stream, fptr)])
    {
      FileOf(x);
      x.stream, x.fptr := stream, fptr;
      vals := vals.(files := vals.files[x.id := File(x.name, stream, fptr)]);
    }

    method LeaveOpen(x: MFile, ghost i: nat)
      requires Valid() && 0 < i < |open.chain| - 1 && open.chain[i] == x && Distinct(vals.open)
      modifies this`vals, open, open.own`next, open.own`prev
      ensures Valid() && vals == old(vals).(open := Without(old(vals).open, x.id))
      ensures open.own == old(open.own) - {x}
    {
      IdsWithout(open.chain, i);
      open.Unlink(x, i);
      vals := vals.(open := Without(vals.open, x.id));
    }

    method LeaveClosed(x: MFile, ghost i: nat)
      requires Valid() && 0 < i < |closed.chain| - 1 && closed.chain[i] == x && Distinct(vals.closed)
      modifies this`vals, closed, closed.own`next, closed.own`prev
      ensures Valid() && vals == old(vals).(closed := Without(old(vals).closed, x.id))
      ensures closed.own == old(closed.own) - {x}
    {
      IdsWithout(closed.chain, i);
      closed.Unlink(x, i);
      vals := vals.(closed := Without(vals.closed, x.id));
    }

    method JoinOpen(x: MFile)
      requires Valid() && x in files && x !in Nodes()
      modifies this`vals, open, open.own`next, open.own`prev, x`next, x`prev
      ensures Valid() && vals == old(vals).(open := old(vals).open + [x.id])
      ensures open.own == old(open.own) + {x}
    {
      IdsAppend(open.chain, x, open.tail);
      open.ToTail(x);
      vals := vals.(open := vals.open + [x.id]);
    }

    method JoinClosed(x: MFile)
      requires Valid() && x in files && x !in Nodes()
      modifies this`vals, closed, closed.own`next, closed.own`prev, x`next, x`prev
      ensures Valid() && vals == old(vals).(closed := old(vals).closed + [x.id])
      ensures closed.own == old(closed.own) + {x}
    {
      IdsAppend(closed.chain, x, closed.tail);
      closed.ToTail(x);
      vals := vals.(closed := vals.closed + [x.id]);
    }

    /** The head of the open list is followed by its end, or by the file used least recently. */
    lemma FirstOfOpen()
      requires open.Valid()
      ensures open.head.next == open.tail <==> |open.chain| == 2
      ensures |open.chain| > 2 ==> open.head.next == open.chain[1]
    {
      assert open.chain[0].next == open.chain[1];
    }

    /** The first open file moves to the closed list. */
    method Relegate(x: MFile)
      requires Valid() && Distinct(vals.open) && |open.chain| > 2 && open.chain[1] == x && x in files
      modifies this`vals, open, closed, Nodes()`next, Nodes()`prev
      ensures Valid() && Nodes() == old(Nodes())
      ensures vals == old(vals).(open := Without(old(vals).open, x.id), closed := old(vals).closed + [x.id])
    {
      LeaveOpen(x, 1);
      JoinClosed(x);
    }

    /** The first open file gives up its stream, keeps its position and joins the closed list. */
    method Retire(x: MFile)
      requires Valid() && Distinct(vals.open) && |open.chain| > 2 && open.chain[1] == x && x in files && x.stream.Some?
      modifies this`vals, open, closed, Nodes()
      ensures Valid() && Nodes() == old(Nodes()) && x.id < |old(vals).files|
      ensures var s := old(vals);
              vals == State(s.files[x.id := File(x.name, None, old(x.stream).value)], Without(s.open, x.id), s.closed + [x.id], s.disk)
    {
      SetStream(x, None, x.stream.value);
      Relegate(x);
    }

    /** M_closeold; false where it would work on the end of the list. */
    method CloseOld() returns (ok: bool)
      requires Valid() && Ok(vals)
      modifies this`vals, open, closed, Nodes()
      ensures Valid() && Nodes() == old(Nodes())
      ensures ok == ManyFiles.CloseOld(old(vals)).Some? && (ok ==> vals == ManyFiles.CloseOld(old(vals)).value)
    {
      FirstOfOpen();
      var x := open.head.next;
      ok := x != open.tail;
      if ok {
        FileOf(x);
        assert vals.open[0] == x.id;
        Retire(x);
      }
    }

    /** Frees a descriptor if the call to open failed for want of one. */
    method MakeRoom(full: bool) returns (ok: bool)
      requires Valid() && Ok(vals)
      modifies this`vals, open, closed, Nodes()
      ensures Valid() && Nodes() == old(Nodes())
      ensures ok == ManyFiles.MakeRoom(old(vals), full).Some? && (ok ==> vals == ManyFiles.MakeRoom(old(vals), full).value)
    {
      ok := true;
      if full {
        ok := CloseOld();
      }
    }

    /** A new record, open and empty, not on a list yet. */
    method NewFile(name: string) returns (x: MFile)
      requires Valid()
      modifies this`vals, this`files, this`disk
      ensures Valid() && fresh(x) && files == old(files) + [x] && x.name == name && x.id == |old(files)|
      ensures vals == old(vals).(files := old(vals).files + [File(name, Some(0), 0)], disk := old(vals).disk[name := []])
    {
      x := new MFile(name, |files|);
      x.stream := Some(0);
      files := files + [x];
      disk := disk[name := []];
      vals := vals.(files := vals.files + [File(name, Some(0), 0)], disk := vals.disk[name := []]);
    }

    /** Mfopen */
    method Mfopen(name: string, full: bool) returns (ok: bool, x: MFile?)
      requires Valid() && Ok(vals)
      modifies this, open, closed, Nodes()
      ensures ok == OpenFile(old(vals), name, full).Some?
      ensures ok ==> Valid() && vals == OpenFile(old(vals), name, full).value && x != null && files == old(files) + [x] && fresh(x)
    {
      x := null;
      ok := MakeRoom(full);
      if !ok {
        return;
      }
      x := NewFile(name);
      JoinOpen(x);
    }

    /** The place of a file in the open list. */
    lemma PlaceInOpen(x: MFile) returns (i: nat)
      requires Valid() && x in files && x.id in vals.open
      ensures 0 < i < |open.chain| - 1 && open.chain[i] == x && vals.open[i - 1] == x.id
    {
      var j :| 0 <= j < |vals.open| && vals.open[j] == x.id;
      i := j + 1;
      FileOf(x);
      FileOf(open.chain[i]);
    }

    lemma PlaceInClosed(x: MFile) returns (i: nat)
      requires Valid() && x in files && x.id in vals.closed
      ensures 0 < i < |closed.chain| - 1 && closed.chain[i] == x
    {
      var j :| 0 <= j < |vals.closed| && vals.closed[j] == x.id;
      i := j + 1;
      FileOf(x);
      FileOf(closed.chain[i]);
    }

    /** An evicted file joins the end of the open list. */
    method BackToOpen(x: MFile)
      requires Valid() && x in files && x.id in vals.closed && Distinct(vals.closed)
      modifies this`vals, open, closed, Nodes()`next, Nodes()`prev
      ensures Valid()
      ensures vals == old(vals).(open := old(vals).open + [x.id], closed := Without(old(vals).closed, x.id))
    {
      ghost var i := PlaceInClosed(x);
      LeaveClosed(x, i);
      JoinOpen(x);
    }

    /** Mcheck for a file that was evicted. */
    method Reopen(x: MFile, full: bool) returns (ok: bool)
      requires Valid() && Ok(vals) && x in files && x.stream.None?
      modifies this`vals, open, closed, Nodes(), x
      ensures ok == Check(old(vals), x.id, full).Some?
      ensures ok ==> Valid() && vals == Check(old(vals), x.id, full).value
    {
      FileOf(x);
      MakeRoomOk(vals, full);
      ok := MakeRoom(full);
      if !ok {
        return;
      }
      SetStream(x, Some(x.fptr), x.fptr);
      BackToOpen(x);
    }

    /** An open file moves to the end of the list. */
    method MoveToTail(x: MFile, ghost i: nat)
      requires Valid() && x in files && 0 < i < |open.chain| - 1 && open.chain[i] == x && Distinct(vals.open)
      modifies this`vals, open, open.own`next, open.own`prev
      ensures Valid() && vals == old(vals).(open := Without(old(vals).open, x.id) + [x.id])
    {
      LeaveOpen(x, i);
      JoinOpen(x);
    }

    lemma LastStays(x: MFile, i: nat)
      requires Valid() && Distinct(vals.open) && i == |open.chain| - 2 > 0 && open.chain[i] == x
      ensures Without(vals.open, x.id) + [x.id] == vals.open
    {
      WithoutAt(vals.open, i - 1);
    }

    /** The file before the end of the open list is the one used most recently. */
    lemma LastOfOpen(i: nat)
      requires open.Valid() && 0 < i < |open.chain| - 1
      ensures open.tail.prev == open.chain[i] <==> i == |open.chain| - 2
    {
      var n := |open.chain|;
      assert open.chain[n - 1].prev == open.chain[n - 2];
      assert i < n - 2 ==> open.chain[i] != open.chain[n - 2];
    }

    /** Mcheck for a file that is open: it becomes the one used most recently. */
    method Touch(x: MFile)
      requires Valid() && Distinct(vals.open) && x in files && x.id in vals.open
      modifies this`vals, open, open.own`next, open.own`prev
      ensures Valid() && vals == old(vals).(open := Without(old(vals).open, x.id) + [x.id])
    {
      ghost var i := PlaceInOpen(x);
      LastOfOpen(i);
      if open.tail.prev != x {
        MoveToTail(x, i);
      } else {
        LastStays(x, i);
      }
    }

    /** Mcheck */
    method Mcheck(x: MFile, full: bool) returns (ok: bool)
      requires Valid() && Ok(vals) && x in files
      modifies this`vals, open, closed, Nodes(), x
      ensures x.id < |old(vals).files| && ok == Check(old(vals), x.id, full).Some?
      ensures ok ==> Valid() && vals == Check(old(vals), x.id, full).value
    {
      FileOf(x);
      ok := true;
      if x.stream == None {
        ok := Reopen(x, full);
      } else {
        Touch(x);
      }
    }

    method SetDisk(name: string, c: Bytes)
      requires Valid()
      modifies this`vals, this`disk
      ensures Valid() && vals == old(vals).(disk := old(vals).disk[name := c])
    {
      disk := disk[name := c];
      vals := vals.(disk := disk);
    }

    /** What the system call does to the file of an open record. */
    method Transfer(x: MFile, a: Action) returns (out: int)
      requires Valid() && x in files && x.stream.Some?
      modifies this`vals, this`disk, x`stream, x`fptr
      ensures Valid() && x.id < |old(vals).files| && old(vals).files[x.id].stream.Some?
      ensures (vals, out) == Perform(old(vals), x.id, a)
    {
      FileOf(x);
      var (c, pos, r) := Apply(a, Contents(disk, x.name), x.stream.value);
      SetStream(x, Some(pos), x.fptr);
      SetDisk(x.name, c);
      out := r;
    }

    /** Mfwrite, Mvfprintf, Mfseek and Mftell. */
    method Access(x: MFile, a: Action, full: bool) returns (ok: bool, out: int)
      requires Valid() && Ok(vals) && x in files
      modifies this, open, closed, Nodes(), x
      ensures x.id < |old(vals).files|
      ensures var r := Step(old(vals), Act(x.id, a, full));
              ok == r.Some? && (ok ==> Valid() && Ok(vals) && (vals, out) == r.value)
    {
      out := 0;
      FileOf(x);
      StepIsIdeal(vals, Act(x.id, a, full));
      CheckOk(vals, x.id, full);
      ok := Mcheck(x, full);
      if ok {
        out := Transfer(x, a);
      }
    }
  }
}
