/** All directions of all flows over the shared pools of segments and quadrants. */
module Flows {
  import opened SequenceNumbers
  import opened SegmentList
  import opened SegmentPool
  import opened SequenceSpace
  import opened Quadrants
  import opened SeqSpaces

  /** A direction gets a packet or an ack, or is closed; its record is then used for a new one. */
  datatype Action = On(event: Event) | Close

  /** An action on one of the directions, by number. */
  datatype Tagged = Tagged(flow: nat, action: Action)

  /** The events of direction k since it was last closed. */
  function Of(events: seq<Tagged>, k: nat): seq<Event> {
    if events == [] then [] else
      var e, rest := events[|events| - 1], Of(events[..|events| - 1], k);
      if e.flow != k then rest else if e.action.Close? then [] else rest + [e.action.event]
  }

  lemma OfAppend(events: seq<Tagged>, e: Tagged, k: nat)
    ensures Of(events + [e], k) ==
            if e.flow != k then Of(events, k) else if e.action.Close? then [] else Of(events, k) + [e.action.event]
  {
    assert (events + [e])[..|events|] == events;
  }

  lemma RunAppend(events: seq<Event>, e: Event)
    ensures Run(events + [e]) == Step(Run(events), e)
  {
    assert (events + [e])[..|events|] == events;
  }

  // ---- sharing a pool ----

  /** The parts are disjoint, and the whole is their union. */
  ghost predicate Partitions<T>(parts: seq<set<T>>, whole: set<T>) {
    && (forall i, j :: 0 <= i < j < |parts| ==> parts[i] !! parts[j])
    && (forall i :: 0 <= i < |parts| ==> parts[i] <= whole)
    && (forall x :: x in whole ==> exists i :: 0 <= i < |parts| && x in parts[i])
  }

  lemma PartitionMore<T>(parts: seq<set<T>>, whole: set<T>)
    requires Partitions(parts, whole)
    ensures Partitions(parts + [{}], whole)
  {
    var more := parts + [{}];
    forall x | x in whole ensures exists i :: 0 <= i < |more| && x in more[i] {
      var i :| 0 <= i < |parts| && x in parts[i];
      assert x in more[i];
    }
  }

  /** One part changes together with the whole; what the others have stays. */
  lemma PartitionChanged<T>(parts: seq<set<T>>, whole: set<T>, k: nat, part: set<T>, all: set<T>)
    requires Partitions(parts, whole) && k < |parts| && part <= all && all - part == whole - parts[k]
    ensures Partitions(parts[k := part], all)
    ensures forall i :: 0 <= i < |parts| && i != k ==> parts[i] <= all
  {
    var next := parts[k := part];
    forall i | 0 <= i < |parts| && i != k
      ensures parts[i] <= all - part
    {
      assert parts[i] !! parts[k] by { if i < k { } else { } }
      forall x | x in parts[i] ensures x in all - part { assert x in whole - parts[k]; }
    }
    forall i, j | 0 <= i < j < |next| ensures next[i] !! next[j] {
    }
    forall x | x in all ensures exists i :: 0 <= i < |next| && x in next[i] {
      if x in part {
        assert x in next[k];
      } else {
        assert x in whole - parts[k];
        var i :| 0 <= i < |parts| && x in parts[i];
        assert x in next[i];
      }
    }
  }

  lemma PartitionRest<T>(parts: seq<set<T>>, whole: set<T>, k: nat)
    requires Partitions(parts, whole) && k < |parts|
    ensures forall i :: 0 <= i < |parts| && i != k ==> parts[i] <= whole - parts[k]
  {
  }

  // ---- one direction among many ----

  /** A direction as a value, but for the history of its samples. */
  ghost function State(d: Tcb): Direction
    reads d, d.pquad, d.pquad[..]
  {
    if d.pquad.Length == 4 then Direction(d.Abs(), d.rtt, []) else NEW_DIRECTION
  }

  /** What a direction consists of, and its state. */
  datatype Share = Share(quads: set<Quadrant>, segs: set<Segment>, state: Direction)

  const NOTHING := Share({}, {}, NEW_DIRECTION)

  /** A direction is in order and consists of its share, as far as can be said without the pools. */
  ghost predicate DirOk(d: Tcb, share: Share)
    reads d, d.pquad, share.quads, share.segs
  {
    && d.pquad.Length == 4 && d.quads == share.quads
    && (forall i {:trigger d.pquad[i]} :: 0 <= i < 4 && d.pquad[i] != null ==>
          d.pquad[i] in share.quads && d.pquad[i].own <= share.segs && d.pquad[i].ListOk())
    && (forall i, j {:trigger d.pquad[i], d.pquad[j]} ::
          0 <= i < 4 && 0 <= j < 4 && i != j && d.pquad[i] != null && d.pquad[j] != null ==>
          d.pquad[i] != d.pquad[j] && d.pquad[i].own !! d.pquad[j].own)
    && -1 <= d.centre < 4
    && (if d.centre == -1 then d.quads == {} && forall i :: 0 <= i < 4 ==> d.pquad[i] == null
        else d.quads == d.Three(d.centre, Next(d.centre), Prev(d.centre))
             && d.LinksOk(d.centre, Next(d.centre), Prev(d.centre), Opposite(d.centre)))
    && d.Segments() == share.segs && State(d) == share.state
  }

  lemma FromValid(d: Tcb, pool: Pool, qpool: QuadPool)
    requires d.Valid(pool, qpool)
    ensures DirOk(d, Share(d.quads, d.Segments(), State(d)))
  {
    forall i | 0 <= i < 4 && d.pquad[i] != null ensures d.pquad[i].own <= d.Segments() {
      d.InUnion(pool, i);
    }
  }

  lemma ToValid(d: Tcb, share: Share, pool: Pool, qpool: QuadPool)
    requires DirOk(d, share) && pool.Valid() && qpool.Valid() && share.segs <= pool.live && share.quads <= qpool.live
    ensures d.Valid(pool, qpool)
  {
  }

  /** The arrays of the directions. */
  ghost function Arrays(dirs: seq<Tcb>): set<array<Quadrant?>>
    reads dirs
  {
    set d | d in dirs :: d.pquad
  }

  ghost predicate Distinct(dirs: seq<Tcb>)
    reads dirs
  {
    forall i, j :: 0 <= i < j < |dirs| ==> dirs[i] != dirs[j] && dirs[i].pquad != dirs[j].pquad
  }

  function Segs(shares: seq<Share>): (segs: seq<set<Segment>>)
    ensures |segs| == |shares| && forall i :: 0 <= i < |shares| ==> segs[i] == shares[i].segs
  {
    seq(|shares|, i requires 0 <= i < |shares| => shares[i].segs)
  }

  function Quads(shares: seq<Share>): (quads: seq<set<Quadrant>>)
    ensures |quads| == |shares| && forall i :: 0 <= i < |shares| ==> quads[i] == shares[i].quads
  {
    seq(|shares|, i requires 0 <= i < |shares| => shares[i].quads)
  }

  /** Every direction is in order; every segment and every quadrant that is handed out is in exactly one of them. */
  ghost predicate AllOk(dirs: seq<Tcb>, shares: seq<Share>, pool: Pool, qpool: QuadPool)
    reads dirs, Arrays(dirs), pool, pool.live, pool.freeSet, qpool, qpool.live, qpool.freeSet
  {
    && pool.Valid() && qpool.Valid() && |dirs| == |shares| && Distinct(dirs)
    && Partitions(Segs(shares), pool.live) && Partitions(Quads(shares), qpool.live)
    && (forall i :: 0 <= i < |dirs| ==> Quads(shares)[i] <= qpool.live && Segs(shares)[i] <= pool.live && DirOk(dirs[i], shares[i]))
  }

  /** A direction that has nothing joins the others. */
  lemma OneMore(dirs: seq<Tcb>, shares: seq<Share>, d: Tcb, pool: Pool, qpool: QuadPool)
    requires AllOk(dirs, shares, pool, qpool) && DirOk(d, NOTHING) && Distinct(dirs + [d])
    ensures AllOk(dirs + [d], shares + [NOTHING], pool, qpool)
  {
    var more := shares + [NOTHING];
    PartitionMore(Segs(shares), pool.live);
    PartitionMore(Quads(shares), qpool.live);
    assert Segs(more) == Segs(shares) + [{}] && Quads(more) == Quads(shares) + [{}];
  }

  /** One direction has settled on a new share, and the others stay as they are. */
  lemma Settled(dirs: seq<Tcb>, shares: seq<Share>, k: nat, share: Share, pool: Pool, qpool: QuadPool,
                live: set<Segment>, qlive: set<Quadrant>)
    requires pool.Valid() && qpool.Valid() && k < |dirs| == |shares| && Distinct(dirs)
    requires Partitions(Segs(shares), live) && Partitions(Quads(shares), qlive)
    requires share.segs <= pool.live && pool.live - share.segs == live - shares[k].segs
    requires share.quads <= qpool.live && qpool.live - share.quads == qlive - shares[k].quads
    requires forall i :: 0 <= i < |dirs| ==> DirOk(dirs[i], shares[k := share][i])
    ensures AllOk(dirs, shares[k := share], pool, qpool)
  {
    var next := shares[k := share];
    PartitionChanged(Segs(shares), live, k, share.segs, pool.live);
    PartitionChanged(Quads(shares), qlive, k, share.quads, qpool.live);
    assert Segs(next) == Segs(shares)[k := share.segs] && Quads(next) == Quads(shares)[k := share.quads];
  }

  // ---- one event ----

  /** The pools have handed out the share, and are in order. */
  ghost predicate Serves(pool: Pool, qpool: QuadPool, share: Share)
    reads pool, pool.freeSet, qpool, qpool.freeSet
  {
    pool.Valid() && qpool.Valid() && share.segs <= pool.live && share.quads <= qpool.live
  }

  /** What rexmit and ack_in return. */
  datatype Outcome = Sent(bytes: int, outOfOrder: bool) | Answered(ret: AckType) | Closed

  /** What an action does to a direction, but for the history of samples, and what it returns. */
  function Effect(d: Direction, a: Action): (r: (Direction, Outcome))
    requires Window(d.space)
  {
    match a
    case Close => (NEW_DIRECTION, Closed)
    case On(Data(s, len, ip, now)) =>
      var r := SequenceSpace.Rexmit(d.space, s, len, now, ip);
      (Direction(r.space, d.counters, []), Sent(r.bytes, r.outOfOrder))
    case On(Ack(ack, dataLen, now)) =>
      var r := SequenceSpace.AckIn(d.space, d.counters, ack, dataLen, now);
      (Direction(r.space, r.counters, []), Answered(r.ret))
  }

  method DataEvent(d: Tcb, pool: Pool, qpool: QuadPool, s: SeqNum, len: nat, ip: int, now: int, ghost share: Share)
    returns (rexlen: int, outOfOrder: bool, ghost next: Share, ghost grown: set<Segment>, ghost made: set<Quadrant>)
    requires DirOk(d, share) && Serves(pool, qpool, share)
    modifies d, d.pquad, pool, qpool, share.segs, pool.freeSet, share.quads, qpool.freeSet
    ensures DirOk(d, next) && Serves(pool, qpool, next) && Window(share.state.space)
    ensures (next.state, Sent(rexlen, outOfOrder)) == Effect(share.state, On(Data(s, len, ip, now)))
    ensures pool.live - next.segs == old(pool.live) - share.segs && qpool.live - next.quads == old(qpool.live) - share.quads
    ensures pool.All() <= old(pool.All()) + grown && fresh(grown) && qpool.All() <= old(qpool.All()) + made && fresh(made)
  {
    ToValid(d, share, pool, qpool);
    rexlen, outOfOrder, grown, made := d.Rexmit(pool, qpool, s, len, now, ip);
    FromValid(d, pool, qpool);
    d.AllShared(pool, qpool);
    next := Share(d.quads, d.Segments(), State(d));
  }

  method AckEvent(d: Tcb, pool: Pool, qpool: QuadPool, ack: SeqNum, dataLen: nat, now: int, ghost share: Share)
    returns (ret: AckType, ghost next: Share, ghost made: set<Quadrant>)
    requires DirOk(d, share) && Serves(pool, qpool, share)
    modifies d, d.pquad, pool, qpool, share.segs, pool.freeSet, share.quads, qpool.freeSet
    ensures DirOk(d, next) && Serves(pool, qpool, next) && Window(share.state.space)
    ensures (next.state, Answered(ret)) == Effect(share.state, On(Ack(ack, dataLen, now)))
    ensures pool.live - next.segs == old(pool.live) - share.segs && qpool.live - next.quads == old(qpool.live) - share.quads
    ensures pool.All() <= old(pool.All()) && qpool.All() <= old(qpool.All()) + made && fresh(made)
  {
    ToValid(d, share, pool, qpool);
    ret, made := d.AckIn(pool, qpool, ack, dataLen, now);
    FromValid(d, pool, qpool);
    d.AllShared(pool, qpool);
    next := Share(d.quads, d.Segments(), State(d));
  }

  method CloseEvent(d: Tcb, pool: Pool, qpool: QuadPool, ghost share: Share)
    requires DirOk(d, share) && Serves(pool, qpool, share)
    modifies d, d.pquad, pool, qpool, share.segs, pool.freeSet, share.quads, qpool.freeSet
    ensures DirOk(d, NOTHING) && Serves(pool, qpool, NOTHING) && Window(share.state.space)
    ensures pool.live == old(pool.live) - share.segs && qpool.live == old(qpool.live) - share.quads
    ensures pool.All() <= old(pool.All()) && qpool.All() <= old(qpool.All())
  {
    ToValid(d, share, pool, qpool);
    d.ValidIsWindow(pool, qpool);
    d.AllShared(pool, qpool);
    d.Close(pool, qpool);
    FromValid(d, pool, qpool);
  }

  /** An action on direction d. */
  method Handle(d: Tcb, pool: Pool, qpool: QuadPool, a: Action, ghost share: Share)
    returns (out: Outcome, ghost next: Share, ghost grown: set<Segment>, ghost made: set<Quadrant>)
    requires DirOk(d, share) && Serves(pool, qpool, share)
    modifies d, d.pquad, pool, qpool, share.segs, pool.freeSet, share.quads, qpool.freeSet
    ensures DirOk(d, next) && Serves(pool, qpool, next) && Window(share.state.space)
    ensures (next.state, out) == Effect(share.state, a)
    ensures pool.live - next.segs == old(pool.live) - share.segs && qpool.live - next.quads == old(qpool.live) - share.quads
    ensures pool.All() <= old(pool.All()) + grown && fresh(grown) && qpool.All() <= old(qpool.All()) + made && fresh(made)
  {
    match a {
      case Close =>
        CloseEvent(d, pool, qpool, share);
        out, next, grown, made := Closed, NOTHING, {}, {};
      case On(Data(s, len, ip, now)) =>
        var rexlen, outOfOrder;
        rexlen, outOfOrder, next, grown, made := DataEvent(d, pool, qpool, s, len, ip, now, share);
        out := Sent(rexlen, outOfOrder);
      case On(Ack(ack, dataLen, now)) =>
        var ret;
        ret, next, made := AckEvent(d, pool, qpool, ack, dataLen, now, share);
        out, grown := Answered(ret), {};
    }
  }

  // ---- all directions ----

  /** A direction is in order, and consists of no more than these objects. */
  ghost predicate Beside(d: Tcb, share: Share, ds: set<Tcb>, arrays: set<array<Quadrant?>>, quads: set<Quadrant>, segs: set<Segment>)
    reads ds, arrays, quads, segs
  {
    d in ds && d.pquad in arrays && share.quads <= quads && share.segs <= segs && DirOk(d, share)
  }

  /** So are all directions but k. */
  ghost predicate RestOk(dirs: seq<Tcb>, shares: seq<Share>, k: nat,
                         ds: set<Tcb>, arrays: set<array<Quadrant?>>, quads: set<Quadrant>, segs: set<Segment>)
    requires |dirs| == |shares|
    reads ds, arrays, quads, segs
  {
    forall i {:trigger Beside(dirs[i], shares[i], ds, arrays, quads, segs)} ::
      0 <= i < |dirs| && i != k ==> Beside(dirs[i], shares[i], ds, arrays, quads, segs)
  }

  lemma RestOf(dirs: seq<Tcb>, shares: seq<Share>, pool: Pool, qpool: QuadPool, k: nat)
    returns (ds: set<Tcb>, arrays: set<array<Quadrant?>>, quads: set<Quadrant>, segs: set<Segment>)
    requires AllOk(dirs, shares, pool, qpool) && k < |dirs|
    ensures RestOk(dirs, shares, k, ds, arrays, quads, segs)
    ensures dirs[k] !in ds && dirs[k].pquad !in arrays
    ensures quads !! shares[k].quads && quads !! qpool.freeSet && segs !! shares[k].segs && segs !! pool.freeSet
    ensures DirOk(dirs[k], shares[k]) && Serves(pool, qpool, shares[k])
  {
    ds := set i | 0 <= i < |dirs| && i != k :: dirs[i];
    arrays := set i | 0 <= i < |dirs| && i != k :: dirs[i].pquad;
    quads, segs := qpool.live - shares[k].quads, pool.live - shares[k].segs;
    PartitionRest(Segs(shares), pool.live, k);
    PartitionRest(Quads(shares), qpool.live, k);
    assert Segs(shares)[k] <= pool.live && Quads(shares)[k] <= qpool.live;
    forall i | 0 <= i < |dirs| && i != k ensures Beside(dirs[i], shares[i], ds, arrays, quads, segs) {
      assert Segs(shares)[i] <= segs && Quads(shares)[i] <= quads;
    }
  }

  lemma RestIs(dirs: seq<Tcb>, shares: seq<Share>, k: nat, share: Share,
               ds: set<Tcb>, arrays: set<array<Quadrant?>>, quads: set<Quadrant>, segs: set<Segment>)
    requires k < |dirs| == |shares| && RestOk(dirs, shares, k, ds, arrays, quads, segs) && DirOk(dirs[k], share)
    ensures forall i :: 0 <= i < |dirs| ==> DirOk(dirs[i], shares[k := share][i])
  {
    forall i | 0 <= i < |dirs| ensures DirOk(dirs[i], shares[k := share][i]) {
      if i != k { assert Beside(dirs[i], shares[i], ds, arrays, quads, segs); }
    }
  }

  /** An action on direction k, of which the others do not notice anything. */
  method HandleApart(dirs: seq<Tcb>, pool: Pool, qpool: QuadPool, k: nat, a: Action, ghost shares: seq<Share>,
                     ghost ds: set<Tcb>, ghost arrays: set<array<Quadrant?>>, ghost quads: set<Quadrant>, ghost segs: set<Segment>)
    returns (out: Outcome, ghost share: Share, ghost grown: set<Segment>, ghost made: set<Quadrant>)
    requires k < |dirs| == |shares| && RestOk(dirs, shares, k, ds, arrays, quads, segs)
    requires dirs[k] !in ds && dirs[k].pquad !in arrays
    requires quads !! shares[k].quads && quads !! qpool.freeSet && segs !! shares[k].segs && segs !! pool.freeSet
    requires DirOk(dirs[k], shares[k]) && Serves(pool, qpool, shares[k])
    modifies dirs[k], dirs[k].pquad, pool, qpool, shares[k].segs, pool.freeSet, shares[k].quads, qpool.freeSet
    ensures DirOk(dirs[k], share) && Serves(pool, qpool, share)
    ensures Window(shares[k].state.space) && (share.state, out) == Effect(shares[k].state, a)
    ensures pool.live - share.segs == old(pool.live) - shares[k].segs && qpool.live - share.quads == old(qpool.live) - shares[k].quads
    ensures pool.All() <= old(pool.All()) + grown && fresh(grown) && qpool.All() <= old(qpool.All()) + made && fresh(made)
    ensures RestOk(dirs, shares, k, ds, arrays, quads, segs)
  {
    out, share, grown, made := Handle(dirs[k], pool, qpool, a, shares[k]);
  }

  /** An action on direction k. Its state and what is returned are as if the direction were alone; the others do not notice. */
  method HandleOne(dirs: seq<Tcb>, pool: Pool, qpool: QuadPool, k: nat, a: Action, ghost shares: seq<Share>)
    returns (out: Outcome, ghost next: seq<Share>, ghost grown: set<Segment>, ghost made: set<Quadrant>)
    requires AllOk(dirs, shares, pool, qpool) && k < |dirs|
    modifies dirs[k], dirs[k].pquad, pool, qpool, shares[k].segs, pool.freeSet, shares[k].quads, qpool.freeSet
    ensures |next| == |shares| && AllOk(dirs, next, pool, qpool) && Window(shares[k].state.space)
    ensures (next[k].state, out) == Effect(shares[k].state, a)
    ensures forall i :: 0 <= i < |dirs| && i != k ==> next[i] == shares[i]
    ensures pool.All() <= old(pool.All()) + grown && fresh(grown) && qpool.All() <= old(qpool.All()) + made && fresh(made)
  {
    ghost var live, qlive := pool.live, qpool.live;
    ghost var ds, arrays, quads, segs := RestOf(dirs, shares, pool, qpool, k);
    ghost var share;
    out, share, grown, made := HandleApart(dirs, pool, qpool, k, a, shares, ds, arrays, quads, segs);
    RestIs(dirs, shares, k, share, ds, arrays, quads, segs);
    Settled(dirs, shares, k, share, pool, qpool, live, qlive);
    next := shares[k := share];
  }

  /** A new flow brings a direction that has nothing. */
  method AddDirection(dirs: seq<Tcb>, pool: Pool, qpool: QuadPool, ghost shares: seq<Share>) returns (d: Tcb)
    requires AllOk(dirs, shares, pool, qpool)
    ensures AllOk(dirs + [d], shares + [NOTHING], pool, qpool) && fresh(d) && fresh(d.pquad)
  {
    d := new Tcb(pool, qpool);
    FromValid(d, pool, qpool);
    OneMore(dirs, shares, d, pool, qpool);
  }

  // ---- any interleaving ----

  /** The state of a direction that was alone, but for the history of samples. */
  function Alone(events: seq<Tagged>, k: nat): Direction {
    Run(Of(events, k)).(samples := [])
  }

  lemma AloneStep(events: seq<Tagged>, e: Tagged, k: nat)
    ensures Window(Alone(events, k).space)
    ensures Alone(events + [e], k) == if e.flow == k then Effect(Alone(events, k), e.action).0 else Alone(events, k)
  {
    OfAppend(events, e, k);
    if e.flow == k && e.action.On? { RunAppend(Of(events, k), e.action.event); }
  }

  /** All directions are in the state that they would have reached alone. */
  ghost predicate Replayed(shares: seq<Share>, events: seq<Tagged>) {
    forall i :: 0 <= i < |shares| ==> shares[i].state == Alone(events, i)
  }

  lemma ReplayedOne(shares: seq<Share>, next: seq<Share>, events: seq<Tagged>, e: Tagged, out: Outcome)
    requires Replayed(shares, events) && e.flow < |shares| == |next| && Window(shares[e.flow].state.space)
    requires (next[e.flow].state, out) == Effect(shares[e.flow].state, e.action)
    requires forall i :: 0 <= i < |shares| && i != e.flow ==> next[i] == shares[i]
    ensures Replayed(next, events + [e]) && Window(Alone(events, e.flow).space)
    ensures out == ReturnAlone(events, e)
  {
    forall i | 0 <= i < |next| ensures next[i].state == Alone(events + [e], i) { AloneStep(events, e, i); }
    AloneStep(events, e, e.flow);
  }

  /** What e returns after the events before it, if its direction is alone. */
  function ReturnAlone(before: seq<Tagged>, e: Tagged): Outcome {
    Effect(Alone(before, e.flow), e.action).1
  }

  /** What all events return if each direction is alone. */
  function ReturnsAlone(events: seq<Tagged>): seq<Outcome> {
    if events == [] then [] else
      var rest := events[..|events| - 1];
      ReturnsAlone(rest) + [ReturnAlone(rest, events[|events| - 1])]
  }

  /** The next event, within all that the directions and the pools consist of. */
  method HandleWithin(dirs: seq<Tcb>, pool: Pool, qpool: QuadPool, k: nat, a: Action, ghost shares: seq<Share>)
    returns (out: Outcome, ghost next: seq<Share>, ghost grown: set<Segment>, ghost made: set<Quadrant>)
    requires AllOk(dirs, shares, pool, qpool) && k < |dirs|
    modifies dirs, Arrays(dirs), pool, qpool, pool.All(), qpool.All()
    ensures |next| == |shares| && AllOk(dirs, next, pool, qpool) && Window(shares[k].state.space)
    ensures (next[k].state, out) == Effect(shares[k].state, a)
    ensures forall i :: 0 <= i < |dirs| && i != k ==> next[i] == shares[i]
    ensures pool.All() <= old(pool.All()) + grown && fresh(grown) && qpool.All() <= old(qpool.All()) + made && fresh(made)
  {
    assert Segs(shares)[k] <= pool.live && Quads(shares)[k] <= qpool.live && dirs[k].pquad in Arrays(dirs);
    out, next, grown, made := HandleOne(dirs, pool, qpool, k, a, shares);
  }

  method ReplayStep(dirs: seq<Tcb>, pool: Pool, qpool: QuadPool, events: seq<Tagged>, e: Tagged, ghost shares: seq<Share>)
    returns (out: Outcome, ghost next: seq<Share>, ghost grown: set<Segment>, ghost made: set<Quadrant>)
    requires AllOk(dirs, shares, pool, qpool) && e.flow < |dirs| && Replayed(shares, events)
    modifies dirs, Arrays(dirs), pool, qpool, pool.All(), qpool.All()
    ensures AllOk(dirs, next, pool, qpool) && Replayed(next, events + [e])
    ensures Window(Alone(events, e.flow).space) && out == ReturnAlone(events, e)
    ensures pool.All() <= old(pool.All()) + grown && fresh(grown) && qpool.All() <= old(qpool.All()) + made && fresh(made)
  {
    out, next, grown, made := HandleWithin(dirs, pool, qpool, e.flow, e.action, shares);
    ReplayedOne(shares, next, events, e, out);
  }

  /** All events are for one of n directions. */
  predicate Addressed(events: seq<Tagged>, n: nat) {
    forall i :: 0 <= i < |events| ==> events[i].flow < n
  }

  /** All events so far left the states, and their calls returned, what they would have if each direction had been alone. */
  ghost predicate AsAlone(shares: seq<Share>, outs: seq<Outcome>, events: seq<Tagged>) {
    Replayed(shares, events) && outs == ReturnsAlone(events)
  }

  lemma AsAloneStep(next: seq<Share>, outs: seq<Outcome>, events: seq<Tagged>, e: Tagged, out: Outcome, shares: seq<Share>)
    requires AsAlone(shares, outs, events) && Replayed(next, events + [e]) && out == ReturnAlone(events, e)
    ensures AsAlone(next, outs + [out], events + [e])
  {
    assert (events + [e])[..|events|] == events;
  }

  lemma SplitLast(events: seq<Tagged>, rest: seq<Tagged>, e: Tagged, n: nat)
    requires events != [] && rest == events[..|events| - 1] && e == events[|events| - 1] && Addressed(events, n)
    ensures events == rest + [e] && Addressed(rest, n) && e.flow < n
  {
  }

  /** One more event. */
  method ReplayMore(dirs: seq<Tcb>, pool: Pool, qpool: QuadPool, events: seq<Tagged>, e: Tagged, ghost shares: seq<Share>,
                    before: seq<Outcome>, ghost more: seq<Tagged>)
    returns (outs: seq<Outcome>, ghost next: seq<Share>, ghost grown: set<Segment>, ghost made: set<Quadrant>)
    requires AllOk(dirs, shares, pool, qpool) && e.flow < |dirs| && AsAlone(shares, before, events)
    requires more == events + [e]
    modifies dirs, Arrays(dirs), pool, qpool, pool.All(), qpool.All()
    ensures AllOk(dirs, next, pool, qpool) && AsAlone(next, outs, more)
    ensures pool.All() <= old(pool.All()) + grown && fresh(grown) && qpool.All() <= old(qpool.All()) + made && fresh(made)
  {
    var out;
    out, next, grown, made := ReplayStep(dirs, pool, qpool, events, e, shares);
    AsAloneStep(next, before, events, e, out, shares);
    outs := before + [out];
  }

  /**
   Any interleaving of the events of any number of directions over the shared pools: each direction ends in the state, and
   each call returns what it would have returned, if the direction had been alone; everything stays valid.
   */
  method Replay(dirs: seq<Tcb>, pool: Pool, qpool: QuadPool, events: seq<Tagged>, ghost shares: seq<Share>)
    returns (outs: seq<Outcome>, ghost next: seq<Share>, ghost grown: set<Segment>, ghost made: set<Quadrant>)
    requires AllOk(dirs, shares, pool, qpool) && Addressed(events, |dirs|) && Replayed(shares, [])
    modifies dirs, Arrays(dirs), pool, qpool, pool.All(), qpool.All()
    ensures AllOk(dirs, next, pool, qpool) && AsAlone(next, outs, events)
    ensures pool.All() <= old(pool.All()) + grown && fresh(grown) && qpool.All() <= old(qpool.All()) + made && fresh(made)
    decreases |events|
  {
    if events == [] {
      outs, next, grown, made := [], shares, {}, {};
    } else {
      var rest, e := events[..|events| - 1], events[|events| - 1];
      SplitLast(events, rest, e, |dirs|);
      outs, next, grown, made := Replay(dirs, pool, qpool, rest, shares);
      ghost var moreSegs, moreQuads;
      outs, next, moreSegs, moreQuads := ReplayMore(dirs, pool, qpool, rest, e, next, outs, events);
      grown, made := grown + moreSegs, made + moreQuads;
    }
  }
}
