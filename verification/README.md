# A verified model of tstat's stateful cores

tstat reads packets and keeps statistics about every flow. This project models the parts of it whose correctness rests on
long-lived state, and proves what that state means. Its centre is the TCP segment tracker (`tstat/rexmit.c`): which bytes
of a direction were seen, which were seen again, which acks yield a round-trip sample.

Every area comes in two layers. A value layer states in functions what the C code does, branch by branch, and lemmas prove
properties of single calls and of whole runs. A heap layer has the C code's own form (linked objects, arrays and fields
changed in place by loops), and each of its methods is proved to compute the function of the value layer and to leave
everything else alone. Where the C code tests bounds or consistency and exits, the model has no successor state.

| files | what they model |
|---|---|
| `SequenceNumbers`, `SegmentList`, `SegmentCoverage`, `SegmentAcks` | sequence numbers and quadrants; the segment list of a quadrant: `addseg`, `collapse_quad`, the walks of `ack_in` |
| `SequenceSpace`, `SequenceSpaceRuns`, `SequenceSpaceResults` | the window of three quadrants, `rexmit` and `ack_in` as a whole, runs of both |
| `RexmitAnswers`, `AckAnswers` | what single calls of `rexmit` and `ack_in` answer, count and leave, the move of the window included |
| `SegmentHistory`, `SampleRuns`, `PacketRuns`, `FooledSamples` | what segments and RTT samples tell about the pieces, and then about the packets, of a run |
| `SegmentTimes`, `Transmissions`, `NewestSamples` | what the clocks of the segments tell about the times of the packets, and when a sample is taken |
| `WalkSteps`, `SegmentPool`, `Quadrants`, `SeqSpaces` | the same in place: doubly linked lists, free lists, the window's pointers |
| `Flows`, `FlowAnswers` | all directions of all flows over the shared free lists |
| `BaseDelay`, `ZeroDelays`, `DelayHistory` | base-delay history and queueing-delay estimate of `bufferbloat.c` |
| `Windows`, `WindowRuns`, `WindowTotals`, `BufferbloatRuns`, `UtpStats` | its one-second windows and all of its self-checks |
| `PSquare`, `PSquareMoves`, `PSquareMarkers` | the quantile estimator of `ledbat.c` |
| `PairPool` | the recycled connection records of `freelists.c` |
| `Addresses`, `AddressTables` | the double-buffered address counters |
| `ManyFiles`, `FileContents`, `MFiles` | the file table that lives with too few descriptors |
| `Randomness`, `RandomStats` | nibble histograms and chi-square statistic of the Skype classifier |
| `Histograms`, `Percentiles`, `HistogramBuffers` | double-buffered histograms and the percentile search |
| `Averages`, `Statistics` | timevals, time averages, the radicand of the standard deviation |
| `Common` | definitions that several of the models share |

`dafny verify dfyconfig.toml` checks everything.

## What the proofs found

Where a property one would expect does not hold of the code, the model follows the code, a lemma gives an input that shows
it, and another one says exactly when it does hold.

- `LAST_SEQ` (`tstat/tstat.h:328`) multiplies `QUADSIZE - 1` by the quadrant number, so it falls short by q - 1 bytes in
  quadrant q. A packet that crosses out of quadrant 2, 3 or 4 loses bytes (`CutLoses`), and one that starts in the last
  bytes of such a quadrant is handed to `addseg` with its end before its start. The bytes handed over are those of the packet
  if and only if it stays in its quadrant or leaves quadrant 1 (`CutIsExact`); the lists stay in order if and only if no piece
  is backward or its first byte is already recorded (`RecordOk`). The count that `rexmit` returns is right if and only if as
  many bytes are lost as are counted in addition (`RexmitAccounts`); for two bytes at the end of the sequence space it is -2
  (`RexmitMiscounts`).
- Karn's algorithm is fooled in five ways: `retrans` is an 8-bit counter, so a segment that was resent a multiple of 256
  times passes for one sent once (`KarnIsFooled`); an eviction gives the bytes of the oldest segment to the next one and
  forgets that they were resent (`EvictionFoolsKarn`); a packet that ends on the first byte of a segment does not count as a
  resend of that byte (`TouchFoolsKarn`); a byte that `LAST_SEQ` loses is not seen to be sent (`LostByteFoolsKarn`); and a
  quadrant that leaves the window takes with it what was sent of it (`DroppedQuadrantFoolsKarn`). In the other direction, the
  bytes that `LAST_SEQ` adds to a packet count as resent, so that a segment sent once yields no sample
  (`AddedBytesHideSample`). This is the exact condition, over the packets of the whole run: of the segment of a sample, one
  packet carried all bytes, and no other carried any or had any added to it, if and only if the segment is neither widened
  nor touched and was hit fewer than 256 times, no packet carried a byte of it before its quadrant last entered the window,
  and since then none lost a byte of it and to none one was added (`SamplesAreKarns`).
- A sample is void if anything that its ack covers was sent after its segment. The lists remember that for every packet, also when
  acked segments are merged, but an eviction forgets it if and only if the evicted segment is newer than its successor
  (`EvictionRemembers`, `RunRemembers`). As long as none is, the ack of an intact segment yields a sample if and only if the
  segment is not counted as resent, no packet that carries a byte of the quadrant below the ack was sent later, and no
  segment of the quadrant before that is still unacked was (`SamplesAreNewest`); otherwise a sample can be taken although a
  later packet is covered (`EvictionForgetsNewest`).
- With FILTERING, the estimated queueing delay of every run of positive delays is non-negative if and only if the base
  history is at least as long as the filter (`HistoryMustCoverFilter`). Delays of zero break both bounds. The estimate exceeds
  the newest delay if and only if that is zero and another one in the filter is not (`UpperBound`). It is negative if and only
  if the newest delay is positive and every remembered delay is larger than some positive one in the filter (`LowerBound`):
  a zero makes the history forget the minimum of its minute (`ZeroForgetsMinimum`).
- In a SEVERE_DEBUG build such estimates can end the program. It survives the checks of the windows if and only if time never
  goes back, no close finds more than a million chances, and after each sample the estimates of its direction and second add
  up to no more than the delays, and to something unless that estimate is zero (`RunGroupsBySecond`). That is so while every
  estimate keeps both bounds (`SelfChecksOnRealDelays`), but a delay and two zeros within one second are the end
  (`ZerosEndTheProgram`).
- The line printed for a second without packets starts with the direction of the packet that closes it, while all other
  lines start with client to server (`VoidColumns`, `VoidColumnsSwapped`).
- `elapsed` never returns a negative number, so the check at `tstat/bufferbloat.c:1274` cannot fire. The subtraction at
  `tstat/bufferbloat.c:1056` is unsigned; when time goes back it takes the closing branch, where a check of a SEVERE_DEBUG
  build ends the program (`BackInTime`). Other builds close the windows and go on.
- `PSquare` has no arm for a sample equal to the largest marker. A SEVERE_DEBUG build exits, and this is what is modelled: it
  survives a run if and only if no sample after the fifth repeats the largest before it (`RunKeepsMarkers`). Other builds go
  on with marker -1 and write before the array. Its sort reads one element beyond the five before it looks at
  the index; the value read does not matter, and the model looks at the index first. In the same way the debug loop at
  `tstat/bufferbloat.c:143` runs past its array and is not modelled.
- A packet whose masked address is zero can be counted for another address (`ZeroIsCaptured`); an addition is exact if and
  only if it takes over no hits of address zero (`AddIsExact`). A page is exact if and only if in its interval no packet of
  address zero was followed by one of a new address in the same slot (`PageIsEpoch`); the total over all addresses always is
  (`TotalConservation`).
- A histogram bin is found by truncation toward zero: a sample is counted in the bin that covers it if and only if
  truncation does not carry it into the next one (`BinCovers`).
- The percentile search starts from the samples below the range although its target does not count them, so it reports an
  edge below the range if and only if they reach the target (`PercentileBelowRange`).
- The index of a bin is computed by truncation too, so an index below the range can name the first column (`PositionIs`), and
  an index that names a bin outside the range is taken off a count that never held it (`OthersAreTheRest`).
- `update_randomness` counts one nibble beyond the captured payload (`OneNibbleBeyond`), which happens if and only if fewer
  than eight bytes of it were captured (`BeyondOnlyWhenCutShort`).

## Model

| member | source | states |
|---|---|---|
| SequenceNumbers.LastSeqShortfall | tstat/tstat.h:321-329 | the macro for the last byte of quadrant q is q - 1 short, hence right for quadrant 1 only |
| SegmentCoverage.WalkCounts | tstat/rexmit.c:173-262 | the walk returns the number of its bytes that are recorded, less the one hidden by a touch |
| SegmentCoverage.WalkCovers | tstat/rexmit.c:173-262 | after the walk the recorded bytes are those of before and those of the new segment |
| SegmentCoverage.WalkKeepsOrder | tstat/rexmit.c:173-262 | the walk keeps the list ordered, neighbours sharing one byte at most |
| SegmentCoverage.InsertIsWalk | tstat/rexmit.c:169-173 | on an ordered list the shortcut for bytes beyond the tail does what the full walk does |
| SegmentCoverage.EvictionKeepsOrder | tstat/rexmit.c:264-281 | the eviction of the oldest segment keeps the order |
| SegmentCoverage.EvictionFillsGap | tstat/rexmit.c:264-281 | it forgets no byte and records exactly the gap between the two oldest segments in addition |
| SegmentCoverage.AddSegCounts | tstat/rexmit.c:147-311 | addseg returns the recorded bytes of the segment, less one in the case of a touch |
| SegmentCoverage.AddSegCovers | tstat/rexmit.c:147-311 | byte by byte, what is recorded after addseg: before, the segment, and the gap an eviction swallows |
| SegmentCoverage.AddSegAccounts | tstat/rexmit.c:147-311 | the same as sets: the count is the size of the intersection less the touch, the new set is the union and the gap |
| SegmentCoverage.OutOfOrderMeansHole | tstat/rexmit.c:182-193 | the out-of-order flag is set exactly when a new byte lies right before a segment that reaches beyond the new one |
| SegmentAcks.CollapsePreserves | tstat/rexmit.c:452-507 | collapse_quad keeps the recorded bytes, the acked bytes and the order |
| SegmentAcks.CollapseMerges | tstat/rexmit.c:461-507 | afterwards no two neighbours of the leading acked run are contiguous |
| SegmentAcks.CollapseIdempotent | tstat/rexmit.c:452-507 | a second collapse changes nothing |
| SegmentAcks.AckAllAcks | tstat/rexmit.c:709-724 | the first walk of ack_in acks every segment of the previous quadrant once and counts exactly the new ones |
| SegmentAcks.AckUpToAcks | tstat/rexmit.c:728-786 | the second walk raises the ack counts of exactly the segments that start before the ack, and nothing else |
| SegmentAcks.AckUpToCountsOnce | tstat/rexmit.c:764-786 | each segment it acks for the first time is counted once: cumulative, no sample, ambiguous or with a sample |
| SegmentAcks.DuplicatesCounted | tstat/rexmit.c:743-761 | duplicate acks are the acked segments that end on the ack, triple ones those acked three times before, without data |
| SegmentAcks.SampleOrigin | tstat/rexmit.c:554-600 | a sample comes from a segment acked for the first time, never counted as resent, not older than any before it |
| SegmentAcks.SampleTaken | tstat/rexmit.c:554-600 | the converse: such a segment yields a sample |
| SequenceSpaceRuns.CutIsExact | tstat/rexmit.c:119-139 | the pieces handed to addseg are the bytes of the packet if and only if it stays in its quadrant or leaves quadrant 1 |
| SequenceSpaceRuns.CutLoses | tstat/rexmit.c:119-139 | out of quadrants 2 to 4 the last byte of the quadrant is lost |
| SequenceSpaceRuns.CutGoesWrong | tstat/rexmit.c:119-139 | two bytes that leave quadrant 2 put a segment that ends before it starts on the list |
| SequenceSpaceRuns.BackwardPiece | tstat/rexmit.c:147-311 | addseg keeps the order for a piece that ends before it starts if and only if its first byte is recorded |
| SequenceSpaceRuns.FullMeansAllBytes | tstat/rexmit.c:509-514 | a quadrant is called full only when every one of its bytes is recorded |
| SequenceSpaceRuns.RecordOk | tstat/rexmit.c:103-142 | rexmit keeps all lists ordered and inside their quadrants if and only if the packet is well cut or starts on a recorded byte |
| SequenceSpaceRuns.AcknowledgeOk | tstat/rexmit.c:698-790 | ack_in always does |
| SequenceSpaceRuns.StepOk | tstat/rexmit.c:102-142 | one event keeps the invariant if and only if it is usable in that state |
| SequenceSpaceRuns.RunOk | tstat/rexmit.c:698-790 | so does every run of usable events |
| SequenceSpaceRuns.WellCutIsUsable | tstat/rexmit.c:119-139 | packets that stay in their quadrant, or leave one before its last q - 1 bytes, are usable in every state, so runs of them keep the invariant |
| SequenceSpaceResults.RecentreKeeps | tstat/rexmit.c:391-446 | whichquad forgets the quadrant opposite to the new centre and nothing else, and does nothing when already centred |
| SequenceSpaceResults.RecordCounts | tstat/rexmit.c:119-141 | for all pieces that can be recorded rexmit returns their recorded bytes, less those hidden by touches, and a negative number for a backward piece |
| SequenceSpaceResults.RexmitMiscounts | tstat/rexmit.c:119-141 | a packet of two bytes, one of them sent before, for which it returns -2 |
| SequenceSpaceResults.RunCounters | tstat/rexmit.c:596-599 | after any run the RTT count, sum and sum of squares are those of the samples taken |
| SequenceSpaceResults.TimeoutEstimateIsReal | tstat/rexmit.c:816-826 | the merged totals of two directions never make the timeout estimate take the root of a negative number |
| RexmitAnswers.RexmitOutOfOrder | tstat/rexmit.c:103-142 | rexmit reports a recordable packet out of order if and only if one of its pieces brings a new byte right before a segment of its quadrant that reaches beyond the piece; for a packet that stays in its quadrant the same in terms of the bytes of the packet |
| RexmitAnswers.RexmitAccounts | tstat/rexmit.c:103-142 | what it returns for every recordable packet, after the move of the window: the packet bytes recorded before, less those hidden by touches, less the lost and plus the extra bytes; right if and only if as many are lost as are extra |
| RexmitAnswers.RexmitRecords | tstat/rexmit.c:103-142 | after it the recorded bytes are those of before that the move of the window keeps, the pieces, and the gaps of evictions |
| AckAnswers.AckInAnswers | tstat/rexmit.c:698-790 | ack_in answers nothing if and only if no segment of its quadrant that starts below the ack is unacked or ends on it; otherwise the answer is that of the last such segment: third duplicate, cumulative, without sample, sampled or ambiguous, by its own fields and the newest transmission before it |
| AckAnswers.AckInCounts | tstat/rexmit.c:698-790 | what it adds to the counters of duplicates, triple duplicates, cumulative acks and acks without sample, in terms of both lists before it |
| AckAnswers.AckInAcks | tstat/rexmit.c:698-790 | it records nothing, forgets only what the move of the window drops, and acks all of the previous quadrant and what lies below the ack in its own |
| AckAnswers.AckInCountsOnce | tstat/rexmit.c:698-790 | over both quadrants each first ack is in exactly one class; the program has counters for all of them but the ambiguous ones, which are the rest |
| AckAnswers.FullWhenSpanned | tstat/rexmit.c:509-515 | a quadrant becomes full if and only if contiguous acked segments, or one single segment, span all of it |
| SegmentHistory.AddSegTold | tstat/rexmit.c:147-311 | one call of addseg: the list tells as much about the pieces handed over so far, this one included, as it told about those before |
| SegmentHistory.OnceIffIntact | tstat/rexmit.c:147-311 | all bytes of an unacked segment were sent once and together, if and only if it is not widened by an eviction, shares no end with a neighbour and was never hit again |
| SampleRuns.RunTold | tstat/rexmit.c:102-142 | after any run every list tells what the pieces that its quadrant was handed did to it, as far as the quadrant has not left the window since |
| SampleRuns.SegmentsOfRun | tstat/rexmit.c:227-234 | hence retrans of an intact segment is the number of these pieces that carried a byte of it, less one, modulo 256 |
| SampleRuns.SamplesAreAdded | tstat/rexmit.c:596-599 | the samples that the following lemmas speak of are those that an ack adds to the direction |
| PacketRuns.HandsByte | tstat/rexmit.c:119-139 | byte by byte, what a quadrant is handed of a packet: the bytes it carries, without those that LAST_SEQ loses, and those that it adds |
| PacketRuns.HitsAccount | tstat/rexmit.c:102-142 | over any run, the pieces that hit some bytes are the packets of the run that carry one of them, without the unseen ones and with those that had only others added |
| PacketRuns.SegmentsTellPackets | tstat/rexmit.c:227-234 | an unacked segment was carried by one packet of the whole run alone if and only if it is intact, never hit again, and nothing of it was dropped with its quadrant, lost or added; retrans of an intact one counts the packets of the run, corrected by the unseen and the added ones, modulo 256 |
| PacketRuns.SamplesAreKarns | tstat/rexmit.c:554-600 | Karn's algorithm (section 3 of RFC 2988) as coded, after any run: one packet of the whole run carried the sample's segment alone if and only if it is intact, was hit fewer than 256 times again, and nothing of it was dropped, lost or added; the sample is then the time since that packet |
| PacketRuns.IntactIsSampled | tstat/rexmit.c:554-600 | conversely an intact segment, not older than those before it, yields a sample if and only if 1, 257, 513.. packets of the run carried a byte of it, corrected by the unseen and the added ones, of which there are none if nothing was dropped, lost or added |
| FooledSamples.KarnIsFooled | tstat/rexmit.c:227-234 | a segment sent again n times yields a sample exactly if n is a multiple of 256 |
| FooledSamples.EvictionFoolsKarn | tstat/rexmit.c:264-281 | seventeen packets after which an ack yields a sample for bytes that were sent twice, because an eviction merged them into an older segment |
| FooledSamples.TouchFoolsKarn | tstat/rexmit.c:197-203 | any two packets that share a byte, the second ending on the first byte of the first: a sample for that byte although it was sent twice |
| FooledSamples.LostByteFoolsKarn | tstat/rexmit.c:119-139 | any packet that leaves quadrant 3 or 4, and then one of a byte that it lost: a sample as if the byte had been sent once |
| FooledSamples.DroppedQuadrantFoolsKarn | tstat/rexmit.c:391-446 | a byte sent twice with a packet of the opposite quadrant in between: a sample as if it had been sent once |
| FooledSamples.AddedBytesHideSample | tstat/rexmit.c:119-139 | any packet of the bytes that a later packet, which leaves quadrant 3 or 4, has added: their ack yields no sample although they were sent once |
| SegmentTimes.InsertTouches | tstat/rexmit.c:173-311 | up to an eviction, addseg restarts the clock of the first segment that it hits, counts a resend for all that it hits, leaves the others as they are and adds only new bytes |
| SegmentTimes.CollapseStands | tstat/rexmit.c:461-507 | every segment after collapse_quad stands for a stretch of those before it: the last byte and ack count of the last one, the time of the newest, the ip_id of the first one that new |
| Transmissions.EvictionRemembers | tstat/rexmit.c:264-281 | an eviction forgets a transmission if and only if the segment that it removes is newer than the one that takes over its bytes |
| Transmissions.RunFrom | tstat/rexmit.c:698-790 | after any run, the time of every segment is that of a piece that met it |
| Transmissions.RunRemembers | tstat/rexmit.c:102-142 | while time never goes back, at every moment each list has the time of every piece that it was handed, or a later one, at or before the first byte of the piece, if and only if no eviction removed a newer segment; acks and collapsing forget nothing |
| NewestSamples.NewestMeansPackets | tstat/rexmit.c:736-738 | then an intact segment is as new as all before it if and only if no packet that carries a byte of its quadrant up to its last one was sent later |
| NewestSamples.SamplesAreNewest | tstat/rexmit.c:728-786 | hence the ack of an intact segment yields a sample if and only if it is not counted as resent, nothing unacked in the quadrant before is newer, and no packet of the run that carries a byte of the quadrant below the ack was sent later |
| NewestSamples.PendingWasSent | tstat/rexmit.c:709-724 | what the quadrant before holds unacked was sent at its time by a packet of the run |
| NewestSamples.EvictionForgetsNewest | tstat/rexmit.c:264-281 | seventeen packets after which an ack yields a sample although it covers bytes sent after the sampled segment |
| WalkSteps.StopInside | tstat/rexmit.c:182-244 | the last round of the walk: what its updates in place amount to |
| WalkSteps.GoBeyond | tstat/rexmit.c:182-255 | a round that splits the segment and goes on |
| SegmentPool.Pool.Alloc | tstat/freelists.c:257-278 | the segment released last, or a new one if none is free; all zero either way |
| SegmentPool.Pool.Release | tstat/freelists.c:281-289 | the segment is cleared and becomes the next one handed out |
| Quadrants.Quadrant.InsertBetween | tstat/rexmit.c:520-551 | the segment is linked in at its position; links, ends and count agree afterwards |
| Quadrants.Quadrant.EvictHead | tstat/rexmit.c:264-281 | the head returns to the pool, its successor takes over the first byte |
| Quadrants.Quadrant.WalkList | tstat/rexmit.c:173-262 | the loop of addseg computes the walk of the model and gains only segments from the pool |
| Quadrants.Quadrant.AddSeg | tstat/rexmit.c:147-311 | addseg in place is addseg on values; no other list's segment changes hands |
| Quadrants.Quadrant.Collapse | tstat/rexmit.c:452-515 | collapse_quad in place is its function; merged segments return to the pool |
| Quadrants.Quadrant.AckPrevious | tstat/rexmit.c:709-726 | the first walk of ack_in and its collapse, in place |
| Quadrants.Quadrant.AckCurrent | tstat/rexmit.c:728-788 | the second one |
| Quadrants.Quadrant.FreeSegs | tstat/tcp.c:4144-4158 | all segments of a quadrant return to the pool |
| Quadrants.QuadPool.Alloc | tstat/freelists.c:312-333 | quadrants are recycled like segments, empty when handed out |
| Quadrants.QuadPool.Release | tstat/freelists.c:336-344 | a quadrant is cleared and returned |
| SeqSpaces.Tcb.OnlyCentreLinked | tstat/rexmit.c:400-405 | a quadrant has both neighbours if and only if it is the centre, so the fast path of whichquad never stops at a wrong one |
| SeqSpaces.Tcb.MoveTo | tstat/rexmit.c:407-445 | the slow path leaves exactly three linked quadrants around the requested one, the fourth freed with its segments |
| SeqSpaces.Tcb.WhichQuad | tstat/rexmit.c:391-446 | whichquad as a whole |
| SeqSpaces.Tcb.Rexmit | tstat/rexmit.c:103-142 | rexmit in place is rexmit on values; what other directions hold of both pools stays, and what this one holds afterwards was its own, free, or is new |
| SeqSpaces.Tcb.AckIn | tstat/rexmit.c:698-790 | ack_in in place is ack_in on values, counters included, with the same frame |
| SeqSpaces.Tcb.Close | tstat/tcp.c:4115-4139 | when a flow ends all its segments and quadrants, and nothing else, go back to the pools, and its record is as new |
| Flows.AddDirection | tstat/freelists.c:105-112 | a new direction joins with nothing, and all stays in order |
| Flows.HandleOne | tstat/freelists.c:257-344 | a packet, an ack or the end of one of any number of directions over the shared pools: its result is as if it were alone, the others keep segments, quadrants and state; every segment and quadrant handed out is in exactly one direction |
| Flows.Replay | tstat/freelists.c:257-344 | any interleaving of packets, acks and ends of all directions: every direction ends up, and every call returns, as if it had been alone since its record was last cleared |
| FlowAnswers.PacketAnswered | tstat/rexmit.c:103-142 | among any other directions, each packet gets the count and the out-of-order flag that its own direction demands |
| FlowAnswers.AckAnswered | tstat/rexmit.c:698-790 | and each ack the answer |
| BaseDelay.FilterIsMinimum | tstat/bufferbloat.c:34-68 | the filter returns the smallest positive one of the latest gross delays |
| BaseDelay.SlotStaysBounded | tstat/bufferbloat.c:152-198 | each filtered delay is bounded below by a base delay that has not been shifted out |
| BaseDelay.QueueingDelayWithinGross | tstat/bufferbloat.c:122-214 | with FILTERING, after any positive delays and a history as long as the filter the estimate lies between zero and the newest gross delay |
| ZeroDelays.HistoryMustCoverFilter | tstat/struct.h:223-224 | the estimate is never negative for positive delays if and only if the base history is as long as the filter |
| ZeroDelays.HistoryRemembers | tstat/bufferbloat.c:122-198 | after any non-negative delays each entry of the history is the least delay of its minute since its last zero, or the first positive one after it |
| ZeroDelays.FilterReturns | tstat/bufferbloat.c:34-68 | the filter returns the smallest positive one of the last delays, zeros included in the run |
| ZeroDelays.BaseIsLeastRemembered | tstat/bufferbloat.c:170-198 | after a positive delay the base delay is the least one remembered for the last minutes |
| ZeroDelays.UpperBound | tstat/bufferbloat.c:122-214 | for non-negative delays the estimate is at most the newest delay if and only if that is positive or all in the filter are zero |
| ZeroDelays.LowerBound | tstat/bufferbloat.c:122-214 | it is not negative if and only if the newest delay is zero or a remembered delay is no larger than any positive one in the filter |
| ZeroDelays.BoundsWithoutRecentZero | tstat/bufferbloat.c:122-214 | both bounds hold when no delay in the filter is zero, whatever came before |
| ZeroDelays.ZeroForgetsMinimum | tstat/bufferbloat.c:152-198 | delays p, q, 0, r with q < p < r in one minute yield the negative estimate q - p |
| BaseDelay.ZeroDelayOvershoots | tstat/bufferbloat.c:152-198 | a delay of zero after d > 0 yields the estimate d |
| BaseDelay.PlainWithinGross | tstat/bufferbloat.c:199-213 | without FILTERING the bound holds for all non-negative delays |
| BaseDelay.PlainBaseIsMinimum | tstat/bufferbloat.c:203-209 | and the base delay is the minimum of all positive delays |
| ZeroDelays.FilteredEstimateIs | tstat/bufferbloat.c:34-68 | with FILTERING the estimate is the smallest positive one of the last delays less the least remembered delay, after a zero less nothing, for every run of non-negative delays |
| ZeroDelays.EstimateIsUnique | tstat/bufferbloat.c:34-68 | there is only one such pair of delays |
| ZeroDelays.PlainEstimateIs | tstat/bufferbloat.c:199-213 | without FILTERING it is the newest delay less the least one since the last zero |
| DelayHistory.UtpDelays.GetQueueingDelay | tstat/bufferbloat.c:34-68 | the loop over the latest delays computes the filter |
| DelayHistory.UtpDelays.MinDelayBase | tstat/bufferbloat.c:102-116 | the loop finds the minimum |
| DelayHistory.UtpDelays.UpdateGrossDelayRelatedStuff | tstat/bufferbloat.c:122-214 | fill, shift or update of the history, the base delay and the ring of latest delays |
| WindowRuns.BackInTime | tstat/bufferbloat.c:1056-1102 | when time goes back, a self-check of a SEVERE_DEBUG build ends the program |
| WindowRuns.MayCloseUnlessAlarm | tstat/bufferbloat.c:1558-1717 | the checks around a close pass if and only if no direction has counted more than a million chances |
| WindowRuns.VoidsAreExpected | tstat/bufferbloat.c:1179-1194 | the loop over seconds without packets writes their lines |
| WindowRuns.RunGroupsBySecond | tstat/bufferbloat.c:971-1229 | for any estimates and delays, a run survives all self-checks if and only if time never goes back, no close finds too many chances, and after each sample the estimates of its direction and second add up to no more than the delays, and to something unless the estimate is zero; its log is then the samples grouped by second |
| WindowRuns.EverySecondOnce | tstat/bufferbloat.c:1179-1194 | with SAMPLES_VALIDITY the edges are all seconds from the first on, each once |
| WindowRuns.ActiveSecondsOnce | tstat/bufferbloat.c:1056-1066 | without it they are seconds with samples, increasing |
| WindowRuns.NoActiveSecondMissed | tstat/bufferbloat.c:1056-1066 | and none of those is missing |
| WindowRuns.VoidColumns | tstat/bufferbloat.c:829-835 | the columns of a second without packets are in order if and only if a client packet closes it or both totals agree |
| WindowRuns.VoidColumnsSwapped | tstat/bufferbloat.c:829-835 | two packets for which they are swapped |
| WindowRuns.MeansOfSecond | tstat/bufferbloat.c:1628-1628 | the means in the log are the whole parts of the sums of a second's estimates and delays over their number, a dash for none |
| WindowTotals.WindowTotalsMatchLog | tstat/bufferbloat.c:1780-1796 | after any run the windowed totals are number, sum and sum of squares of the means in the log |
| BufferbloatRuns.FitsIs | tstat/bufferbloat.c:220-322 | for non-negative delays of one direction, the estimate lies between zero and the newest delay if and only if that fits those before it; without FILTERING it always does |
| BufferbloatRuns.PositiveDelaysFit | tstat/bufferbloat.c:122-322 | with FILTERING and a history as long as the filter, all positive delays of both directions fit |
| BufferbloatRuns.SelfChecksOnRealDelays | tstat/bufferbloat.c:220-498 | the checks end to end, from any non-negative delays, zeros included, through the estimates to the log; while all delays fit, the estimates never end the program |
| BufferbloatRuns.ZerosEndTheProgram | tstat/bufferbloat.c:405-493 | with FILTERING, a delay and two zeros within one second and direction end it |
| BufferbloatRuns.WindowErrorIsReal | tstat/bufferbloat.c:1661-1664 | the differences of totals of a window never make the standard deviation take the root of a negative number |
| UtpStats.UtpStat.CloseWindow | tstat/bufferbloat.c:1558-1726 | close_window with its checks: report, copies of the totals, new edge |
| UtpStats.PrintVoidWindows | tstat/bufferbloat.c:1179-1194 | the loop over the seconds without packets, line by line |
| UtpStats.CloseBothWindows | tstat/bufferbloat.c:1056-1221 | the closing branch, both directions, client to server first |
| UtpStats.WindowedQueueingDelay | tstat/bufferbloat.c:971-1229 | windowed_queueing_delay on two records and the log |
| UtpStats.CheckDirectionConsistencyLight | tstat/bufferbloat.c:1232-1382 | the consistency check accepts exactly the consistent pairs |
| UtpStats.ChanceIsNotValid | tstat/bufferbloat.c:501-528 | a chance without a valid sample |
| UtpStats.BufferbloatAnalysis | tstat/bufferbloat.c:220-498 | a packet's delay goes through the histories, the windows and the totals |
| PSquare.SortSorts | tstat/ledbat.c:543-564 | the specification of the sort yields an ascending permutation |
| PSquare.CellIsTotal | tstat/ledbat.c:569-593 | with ascending heights the chain of comparisons misses exactly the largest height |
| PSquare.HeightBetween | tstat/ledbat.c:654-671 | the new height of a marker lies between those of its neighbours, whichever formula gives it |
| PSquare.AdjustKeeps | tstat/ledbat.c:627-678 | the adjustment keeps heights ascending and the ends fixed |
| PSquare.LaterStep | tstat/ledbat.c:566-680 | in a SEVERE_DEBUG build one more sample fails if and only if it equals the maximum, and otherwise keeps the invariant of the markers |
| PSquare.RunKeepsMarkers | tstat/ledbat.c:521-682 | over whole runs: success exactly without a repeated maximum; then ends are exact minimum and maximum, positions run strictly from 1 to N |
| PSquare.EstimateWithinSamples | tstat/ledbat.c:682-682 | the estimate lies between the smallest and the largest sample |
| PSquare.EqualSamplesStop | tstat/ledbat.c:596-601 | six equal samples end the program, in a SEVERE_DEBUG build |
| PSquareMoves.DesiredPositions | tstat/ledbat.c:521-533 | after five samples or more, marker i is meant to be at none, p / 2, p, (1 + p) / 2 or all of the way from the first sample to the last |
| PSquareMoves.FifthHeights | tstat/ledbat.c:536-564 | the heights after five samples are these in order, at positions 1 to 5 |
| PSquareMoves.ParabolaIsQuadratic | tstat/ledbat.c:655-655 | the formula is the polynomial of degree two through the points of a marker and its neighbours, one step on, truncated |
| PSquareMoves.HeightIs | tstat/ledbat.c:654-671 | a marker that moves takes the height of that parabola if it lies between those of its neighbours, and otherwise that of the straight line to the neighbour it moves to, truncated |
| PSquareMoves.HeightIsOnly | tstat/ledbat.c:654-671 | and no other height meets this |
| PSquareMoves.SampleMoves | tstat/ledbat.c:566-680 | one sample: every marker above it and the last one move on by one, the outer heights follow the extremes, and each inner marker moves by one if and only if it is a whole position away from where it is meant to be and has room |
| PSquareMoves.RunMoves | tstat/ledbat.c:483-683 | so it goes on over whole runs, towards the positions for p |
| PSquareMarkers.BubbleSort | tstat/ledbat.c:543-564 | the loop terminates and sorts the five heights |
| PSquareMarkers.Percentile.AdjustMarkers | tstat/ledbat.c:627-678 | the loop over the inner markers, in place |
| PSquareMarkers.Percentile.Add | tstat/ledbat.c:483-683 | PSquare on the arrays of one percentile; no division by zero |
| PairPool.PairPool.Alloc | tstat/freelists.c:97-134 | tp_alloc pops the record released last, or makes a fresh zero one only when none is free; the cells stay |
| PairPool.PairPool.Release | tstat/freelists.c:136-221 | tp_release pushes the cleared record; a cell is added only when as many records are free as ever before |
| Addresses.AddMoves | tstat/addresses.c:101-122 | what an addition changes for every address, including the hits it takes over from address zero |
| Addresses.AddIsExact | tstat/addresses.c:101-122 | it counts for its own address only, if and only if it takes over none |
| Addresses.ZeroIsCaptured | tstat/addresses.c:101-122 | two packets, one of them of address zero, both reported for the other address |
| Addresses.AddKeepsChain | tstat/addresses.c:57-149 | for any address entries in use stay a duplicate-free prefix of their chain, in the slot of their address, address zero last |
| Addresses.PrintReportsAll | tstat/addresses.c:208-246 | printing reports every address of a chain in full and leaves cleared entries |
| Addresses.AddToTable | tstat/addresses.c:57-149 | the table refines a map from address to counts, in which a new address in slot zero takes over what address zero has |
| Addresses.Conservation | tstat/addresses.c:208-261 | over any run every packet is in exactly one page or still in one of the tables, under its own address or the one that took over the counts of address zero |
| Addresses.TotalConservation | tstat/addresses.c:208-261 | over any run the total of all addresses in pages and tables is that of all packets |
| Addresses.PageIsEpoch | tstat/addresses.c:208-261 | when each swap is followed by a print, the page gives every address exactly its packets between the last two swaps, if and only if no packet of address zero was followed by one of a new address in its slot |
| AddressTables.AdxTable.AddAdx | tstat/addresses.c:57-149 | add_adx on the chained entries is the addition of the model |
| AddressTables.AdxTable.PrintAdx | tstat/addresses.c:208-246 | the walk over all slots reports and clears as the model does |
| AddressTables.AdxBuffers.SwapAdx | tstat/addresses.c:253-261 | the tables change roles |
| ManyFiles.StepIsIdeal | tstat/mfiles.c:216-298 | one call gives the answer and the file contents of unlimited descriptors, and fails if and only if no file is left to evict |
| ManyFiles.RunIsIdeal | tstat/mfiles.c:77-212 | so does every run: a file that was evicted resumes at its position |
| ManyFiles.CloseOldOk | tstat/mfiles.c:259-276 | eviction keeps every file on exactly one list, the open one if and only if it has a stream |
| ManyFiles.CheckOk | tstat/mfiles.c:281-298 | so does Mcheck, and it fails only when starved |
| ManyFiles.EvictOk | tstat/mfiles.c:102-122 | Mfpipe may evict the first files of the open list, invisibly |
| ManyFiles.VictimIsLeastRecent | tstat/mfiles.c:259-276 | after any run the open list is ordered by last use, so the victim is the least recently used |
| FileContents.FilesAsCalled | tstat/mfiles.c:77-298 | after any run every file stands where its calls leave it, every name holds the bytes last written to it since it was opened, and every call returned what the calls before it make of it |
| MFiles.Lru.Unlink | tstat/mfiles.c:317-322 | a file leaves its list |
| MFiles.Lru.ToTail | tstat/mfiles.c:325-332 | a file joins the end of a list |
| MFiles.MFileTable.CloseOld | tstat/mfiles.c:259-276 | M_closeold on the lists is the eviction of the model |
| MFiles.MFileTable.Mfopen | tstat/mfiles.c:77-97 | a new file is open, empty and the most recently used |
| MFiles.MFileTable.Mcheck | tstat/mfiles.c:281-298 | Mcheck on the lists |
| MFiles.MFileTable.Access | tstat/mfiles.c:136-195 | writing, seeking and telling through Mcheck |
| Randomness.ColumnsCount | tstat/skype.c:123-142 | each histogram entry is the number of packets with that value at that position |
| Randomness.ColumnsSum | tstat/skype.c:123-143 | every column sums to the number of packets |
| Randomness.ChiSquareIs | tstat/skype.c:1334-1347 | the statistic is 16 times the sum of squares over n, less n |
| Randomness.ChiSquareBounds | tstat/skype.c:1334-1347 | it lies between 0 and 15 n, is 0 exactly for equal counts and 15 n exactly when one value took all |
| Randomness.ThresholdNeedsTen | tstat/skype.c:1363-1366 | up to nine packets always pass the threshold, ten equal ones do not |
| Randomness.OneNibbleBeyond | tstat/skype.c:130-137 | packets that agree in all captured nibbles of the payload are counted alike but for the low nibble of the first byte not captured |
| Randomness.BeyondOnlyWhenCutShort | tstat/skype.c:120-129 | for payloads as long as the callers demand such a nibble is counted if and only if fewer than eight bytes were captured |
| Randomness.NibblesAreDigits | tstat/skype.c:130-137 | the nibbles of a word are taken from the least significant one on |
| RandomStats.RandomStat.UpdateRandomness | tstat/skype.c:92-144 | the nested loops update all columns |
| RandomStats.RandomStat.ChiSquares | tstat/skype.c:1337-1347 | the nested loops compute the statistic of every column |
| Histograms.CreateAccepts | tstat/histo.c:472-486 | a histogram is created if and only if its range is a whole number of bins |
| Histograms.BinCovers | tstat/histo.c:386-387 | a sample is counted in the bin that covers it if and only if truncation does not carry it into the next |
| Histograms.EffectIs | tstat/histo.c:329-392 | a sample is counted below the range, above it, or in range and in the column that covers it, one later if truncation carries it on |
| Histograms.BinsCount | tstat/histo.c:329-602 | each bin that is being filled holds the number of samples since the last swap that belong to it by the edges of the range |
| Histograms.IndexBeyond | tstat/histo.c:386-387 | the bin beyond the columns is hit only from the last unit below a maximum that is not positive |
| Histograms.AddKeepsBalance | tstat/histo.c:329-392 | the sample count stays the sum of the columns if and only if the sample is none of those |
| Histograms.GlobalIsEverything | tstat/histo.c:519-602 | with a clear between swaps, global data are all samples before the last swap and the frozen buffer those of the last interval |
| Histograms.RunKeepsBalance | tstat/histo.c:329-602 | after any run both buffers are balanced and not negative |
| Histograms.NonNegativeRangeIsSafe | tstat/histo.c:386-387 | in a range from zero or above, every sample is counted in the bin that covers it |
| Histograms.TruncationMisplaces | tstat/histo.c:386-387 | -0.5 in a range that ends at zero is counted above the range |
| Percentiles.PercentileIsFound | tstat/rrd.c:412-424 | the search always succeeds, at the first bin whose cumulative count reaches the target |
| Percentiles.PercentileIsExact | tstat/rrd.c:412-424 | without samples below the range the percentile is the lower edge of the first column up to which at least prc percent of the samples in range lie |
| Percentiles.PercentileBelowRange | tstat/rrd.c:412-424 | it reports an edge below the range if and only if the samples below it are at least prc percent of those in range |
| Percentiles.PositionCovers | tstat/rrd.c:432-436 | an index in range names the column that covers it |
| Percentiles.PositionIs | tstat/rrd.c:433-434 | which indexes name which bin, in range or not |
| Percentiles.PositionInArray | tstat/rrd.c:433-436 | the indexes whose bin is in the array |
| Percentiles.OthersAreTheRest | tstat/rrd.c:429-441 | the others are the samples of columns not indexed, less those of columns indexed twice and of bins outside the range that are indexed |
| Percentiles.OthersAfterLastBin | tstat/rrd.c:429-441 | an index that names the count itself takes it to zero, and what is indexed afterwards makes it negative |
| HistogramBuffers.DoubleHisto.AddHisto | tstat/histo.c:329-392 | __add_histo in place |
| HistogramBuffers.DoubleHisto.SwapHisto | tstat/histo.c:519-562 | the loop over the global data and the exchange of the buffers |
| HistogramBuffers.DoubleHisto.ClearHisto | tstat/histo.c:592-602 | the loop over the frozen buffer, which is empty afterwards |
| HistogramBuffers.DoubleHisto.PercentileOf | tstat/rrd.c:412-424 | the search loop |
| HistogramBuffers.DoubleHisto.ReportIndexes | tstat/rrd.c:429-441 | the indexed bins, taken off the last bin in place |
| Averages.TimesAreMicros | tstat/output.c:64-146 | on normal times, subtraction, addition, comparison and elapsed are those of microseconds, with normal results |
| Averages.SubUndoesAdd | tstat/output.c:84-112 | addition and subtraction undo each other |
| Averages.RecordFollows | tstat/misc.c:29-92 | the quantity in the record is the value of the last new step and the arrivals less the departures since; its times are those of the last call and the last reading |
| Averages.RecordIsArea | tstat/misc.c:40-76 | the record holds the integral of that quantity since the last reading, both defined from the calls alone |
| Averages.ReadingIsTimeAverage | tstat/misc.c:80-92 | a reading is the exact time average since the one before |
| Averages.ReadingWithinValues | tstat/misc.c:80-92 | it lies between the smallest and largest value held for some time |
| Averages.WinStat.Arrive | tstat/misc.c:40-51 | AVE_arrival adds the area so far and one to the quantity |
| Averages.WinStat.Depart | tstat/misc.c:54-64 | AVE_departure takes one from it |
| Averages.WinStat.Jump | tstat/misc.c:67-76 | AVE_new_step replaces it |
| Averages.WinStat.GetStat | tstat/misc.c:80-92 | AVE_get_stat returns it and starts a new interval |
| Statistics.RadicandNeverNegative | tstat/output.c:37-57 | for count, sum and sum of squares of real samples the radicand is not negative |
| Statistics.DifferenceOfTotals | tstat/output.c:37-57 | also for differences of running totals |
| Statistics.UnionOfSamples | tstat/output.c:37-57 | also for merged totals |
| Statistics.RadicandIsVariance | tstat/output.c:37-57 | the radicand is the sample variance: the squared distances from the mean over one less than the number of samples |

## Left out

- Capture, decoding, log files and all other input and output: lines of a log are a sequence of values.
- `rules_test` and the classification of segments (`type_of_segment`): it rests on floating thresholds, and only writes that field and histograms.
- Smoothed RTT, `rtt_min`, `rtt_max` and the `retr_*` statistics of `rtt_ackin` and `rtt_retrans`; the call of the bufferbloat analysis from `rtt_ackin`.
- 32-bit overflow of counters and byte counts; the ack counter of a segment and the RTT counters are unbounded. The 8-bit `retrans` counter does wrap.
- Threads and their locks.
- The fields of a segment other than its links are one record; the pointer from a connection to its sequence space is merged into one object.
- The history fields of a modelled segment (times really resent, time of creation, first byte before an eviction widened it) are not in the program; `SegmentsTellPackets` ties them to the packets of the run.
- Packets of no bytes or of a quadrant's length and more: the callers of `rexmit` pass neither (`tstat/tcp.c:1184-1194`).
- Floating point: delays are integers as `delay_t` is, times are integer microseconds, averages, percentiles and chi-square are exact rationals. The chi-square of a direction without packets divides zero by zero and is not modelled.
- The moving average, the size statistics and `qd_max_w1` of the queueing-delay record, which no window resets; the check at `tstat/bufferbloat.c:396` that needs every packet to update the size information, as all TCP callers do.
- `print_queueing_dly_sample` and its check that no estimate exceeds its delay (`tstat/bufferbloat.c:895`), in builds with SAMPLE_BY_SAMPLE_LOG; `UpperBound` says when that fails.
- `overfitting_avoided` (`tstat/bufferbloat.c:351`) is taken as always true, as the TCP callers pass it; for LEDBAT, where it may be false, estimates of 120000 and more are then not counted.
- Capture times before the first second of the epoch, for which a window edge of zero means unset, and edges beyond 32 bits.
- `check_direction_consistency`, which looks up both records of a connection and then makes the modelled check.
- PSquare.LaterStep: models the SEVERE_DEBUG build, which exits where other builds write before the array.
- PSquareMarkers.Percentile.Add: models one percentile; the program keeps four independent columns of the same arrays.
- The pointers inside a recycled connection record that survive clearing.
- HistogramBuffers.DoubleHisto.ReportIndexes: does not model an index whose bin lies outside the array (`PositionInArray`), which the program reads and writes nevertheless.
- Address entries: the maximum rates, and the `max_adx` pass that computes them.
- ManyFiles.RunIsIdeal: models the file system without buffering; `Mfclose` is left out because it leaves a closed file on the open list.
- Swapping, clearing and freezing of all histograms at once: one histogram is modelled, for positive bin sizes.
- Names of files, histograms and averages.
