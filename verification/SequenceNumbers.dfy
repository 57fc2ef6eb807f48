/** 32-bit TCP sequence numbers and the macros that cut the sequence space into four quadrants. */
module SequenceNumbers {

  const SEQ_SPACE := 0x1_0000_0000
  const QUADSIZE := 0x4000_0000

  /** A sequence number, stored by the program in an unsigned 32-bit integer. */
  type SeqNum = s: int | 0 <= s < SEQ_SPACE

  /** Conversion to the unsigned 32-bit type: arithmetic on it wraps around. */
  function Wrap(n: int): (s: SeqNum)
    ensures 0 <= n < SEQ_SPACE ==> s == n
    ensures n % SEQ_SPACE == s
  {
    n % SEQ_SPACE
  }

  /** The number of a quadrant, 1 to 4. */
  type QuadNum = q: int | 1 <= q <= 4 witness 1

  function QuadNumOf(s: SeqNum): (q: QuadNum)
    ensures QUADSIZE * (q - 1) <= s < QUADSIZE * q
  {
    s / QUADSIZE + 1
  }

  function FirstSeq(q: QuadNum): SeqNum {
    QUADSIZE * (q - 1)
  }

  /** The macro multiplies QUADSIZE - 1 by the quadrant number, so only quadrant 1 gets its true last byte. */
  function LastSeq(q: QuadNum): SeqNum {
    (QUADSIZE - 1) * q
  }

  /** The byte that really closes quadrant q. */
  function TrueLastSeq(q: QuadNum): SeqNum {
    QUADSIZE * q - 1
  }

  function LastByte(first: SeqNum, len: int): SeqNum {
    Wrap(first + len - 1)
  }

  predicate Boundary(first: SeqNum, last: SeqNum) {
    QuadNumOf(first) != QuadNumOf(last)
  }

  /** LastSeq falls short of the end of its quadrant by one byte for each quadrant before it. */
  lemma LastSeqShortfall(q: QuadNum)
    ensures TrueLastSeq(q) - LastSeq(q) == q - 1
    ensures LastSeq(q) == TrueLastSeq(q) <==> q == 1
  {
  }

  /** The bytes from lo to hi, both included. */
  function Range(lo: int, hi: int): (bytes: set<int>)
    ensures forall b :: b in bytes <==> lo <= b <= hi
    ensures |bytes| == if lo <= hi then hi - lo + 1 else 0
    decreases hi - lo + 1
  {
    if lo > hi then {} else Range(lo, hi - 1) + {hi}
  }

  /** How many places after first byte b comes. */
  function Offset(first: SeqNum, b: int): int {
    (b - first) % SEQ_SPACE
  }

  /** The bytes of a segment of len bytes that starts at first: sequence numbers wrap around at 2^32. */
  function SegmentBytes(first: SeqNum, len: nat): set<int> {
    set b | 0 <= b < SEQ_SPACE && Offset(first, b) < len
  }
}
