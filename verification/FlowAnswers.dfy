/** What the calls for one of many directions return: the answers that rexmit and ack_in give on its own packets and acks. */
module FlowAnswers {
  import opened SequenceNumbers
  import opened SequenceSpace
  import opened SequenceSpaceRuns
  import opened SequenceSpaceResults
  import opened SampleRuns
  import opened Flows
  import RexmitAnswers
  import AckAnswers

  /** A packet: the count and the out-of-order flag, in terms of the lists of the centred window t. */
  ghost predicate SentRight(t: Space, s: SeqNum, len: nat, out: Outcome)
    requires Window(t) && t.centre >= 0
  {
    && out.Sent? && (out.outOfOrder <==> RexmitAnswers.PiecesFillHole(t, Cut(s, len)))
    && out.bytes == PacketKnown(t, s, len) - HiddenByTouch(t, Cut(s, len)) - LostBytes(t, s, len) + ExtraBytes(t, s, len)
  }

  /** An ack: the answer of the last segment of the centre that has a say. */
  ghost predicate AnsweredRight(t: Space, ack: SeqNum, dataLen: nat, newest: int, out: Outcome)
    requires Window(t) && t.centre >= 0
  {
    && out.Answered? && AckAnswers.NewestUnacked(SequenceSpace.Segs(t, Prev(t.centre)), 0, newest)
    && AckAnswers.Answers(SequenceSpace.Segs(t, t.centre), ack, dataLen, newest, out.ret)
  }

  lemma SendEffect(d: Direction, e: Event)
    requires SpaceOk(d.space) && Usable(d, e) && e.Data?
    ensures SentRight(Recentre(d.space, CentreOf(e)), e.s, e.len, Effect(d, On(e)).1)
  {
    RexmitAnswers.RexmitOutOfOrder(d.space, e.s, e.len, e.time, e.ipId);
    RexmitAnswers.RexmitAccounts(d.space, e.s, e.len, e.time, e.ipId);
  }

  lemma AckEffect(d: Direction, e: Event) returns (newest: int)
    requires SpaceOk(d.space) && e.Ack?
    ensures AnsweredRight(Recentre(d.space, CentreOf(e)), e.ack, e.dataLen, newest, Effect(d, On(e)).1)
  {
    newest := AckAnswers.AckInAnswers(d.space, d.counters, e.ack, e.dataLen, e.time);
  }

  lemma AloneOk(events: seq<Tagged>, k: nat)
    requires AllUsable(Of(events, k))
    ensures SpaceOk(Alone(events, k).space) && Alone(events, k).space == Run(Of(events, k)).space
  {
    RunOk(Of(events, k));
  }

  /** A packet of a direction, among any others: what its own packets and acks demand. */
  lemma PacketAnswered(events: seq<Tagged>, e: Tagged)
    requires AllUsable(Of(events, e.flow)) && e.action.On? && e.action.event.Data?
    requires Usable(Alone(events, e.flow), e.action.event)
    ensures var p := e.action.event;
            SentRight(Recentre(Alone(events, e.flow).space, CentreOf(p)), p.s, p.len, ReturnAlone(events, e))
  {
    AloneOk(events, e.flow);
    SendEffect(Alone(events, e.flow), e.action.event);
  }

  /** An ack of a direction, among any others. */
  lemma AckAnswered(events: seq<Tagged>, e: Tagged) returns (newest: int)
    requires AllUsable(Of(events, e.flow)) && e.action.On? && e.action.event.Ack?
    ensures var p := e.action.event;
            && Window(Alone(events, e.flow).space)
            && AnsweredRight(Recentre(Alone(events, e.flow).space, CentreOf(p)), p.ack, p.dataLen, newest, ReturnAlone(events, e))
  {
    AloneOk(events, e.flow);
    newest := AckEffect(Alone(events, e.flow), e.action.event);
  }
}
