/** The same queue with its writer and its reader running at the same time in two processes.
    Every step makes one access to shared memory: one int, or one byte of a memcpy. Each C
    read of the other side's offset is a step of its own, so the double reads of tail
    (mem_queue.c:102 and 123) and of head (73, 74 and 80) are all there. */
module RingConcurrent {
  import opened Layout
  import opened Ring

  /** Where the process inside mq_push is; the numbers are lines of mem_queue.c. */
  datatype Writer =
    | WIdle
    | WStart        // 102: read tail
    | WMarkKind     // 106: write the marker's type
    | WMarkLen      // 107: write the marker's length
    | WCheckTail    // 109: read tail
    | WWrap         // 112: write head
    | WCopy(k: nat) // 117-118, 128-129: byte k of the block; then 119, 130: write head
    | WRecheck      // 123: read tail
    | WRoom         // 124: read tail

  /** Where the process inside mq_get, the handling of the block, or mq_pop is. */
  datatype Reader =
    | RIdle
    | RAhead                        // 73: read head
    | RWhole                        // 74: read head
    | RBehind                       // 80: read head
    | RKind                         // 86: read the type at tail
    | RReset                        // 82, 87: write tail
    | RRead(buf: seq<Byte>)         // the caller reads the block; then 146: read its length
    | RAdvance(blk: Block, n: int)  // 146: write tail

  /** The shared memory, the locals of both sides, and four things that no code looks at:
      the blocks for which head was moved, how many there were when head last went back to the
      start, the blocks for which mq_push returned 0, and the blocks read and popped. */
  datatype State = State(
    mem: seq<Byte>, head: int, tail: int,
    writer: Writer, blk: Block, wraps: nat,
    reader: Reader, resets: nat,
    accepted: seq<Block>, wrapAt: nat, acked: seq<Block>, consumed: seq<Block>)

  datatype Label = Offer(b: Block) | WriterMoves | Ask | ReaderMoves

  function Init(size: nat): State {
    State(seq(size, i => 0), MEM_HEAD_LEN, MEM_HEAD_LEN,
          WIdle, Block(0, 0, BLK_DATA, []), 0, RIdle, 0, [], 0, [], [])
  }

  /** Memory accesses by address. An address outside the mapping reads 0 and ignores writes
      here; EveryAccessIsInside shows that none is ever used. */
  function Peek(m: seq<Byte>, i: int): Byte {
    if 0 <= i < |m| then m[i] else 0
  }

  function Poke(m: seq<Byte>, i: int, v: Byte): (m': seq<Byte>)
    ensures |m'| == |m|
  {
    if 0 <= i < |m| then m[i := v] else m
  }

  function PeekInt(m: seq<Byte>, i: int): int {
    FromBytes(Peek(m, i), Peek(m, i + 1), Peek(m, i + 2), Peek(m, i + 3))
  }

  function PokeInt(m: seq<Byte>, i: int, x: int): (m': seq<Byte>)
    ensures |m'| == |m|
  {
    Poke(Poke(Poke(Poke(m, i, ByteOf(x, 0)), i + 1, ByteOf(x, 1)), i + 2, ByteOf(x, 2)), i + 3, ByteOf(x, 3))
  }

  function StepWriter(s: State): State {
    var n := s.blk.Len();
    match s.writer
    case WIdle => s
    case WStart =>
      if s.head >= s.tail then
        if s.head + n >= |s.mem| then
          s.(writer := if s.head + BLK_HEAD_LEN <= |s.mem| then WMarkKind else WCheckTail)
        else s.(writer := WCopy(0))
      else s.(writer := WRecheck)
    case WMarkKind => s.(mem := Poke(s.mem, s.head + 8, BLK_ALIGN), writer := WMarkLen)
    case WMarkLen => s.(mem := PokeInt(s.mem, s.head + 9, |s.mem| - s.head), writer := WCheckTail)
    case WCheckTail => s.(writer := if MEM_HEAD_LEN == s.tail then WIdle else WWrap)
    case WWrap => s.(head := MEM_HEAD_LEN, wrapAt := |s.accepted|, wraps := s.wraps + 1, writer := WStart)
    case WCopy(k) =>
      if k < n && s.blk.Storable() then
        s.(mem := Poke(s.mem, s.head + k, ByteAt(s.blk, k)), writer := WCopy(k + 1))
      else
        s.(head := s.head + n, writer := WIdle,
           accepted := s.accepted + [s.blk], acked := s.acked + [s.blk])
    case WRecheck =>
      if s.head < s.tail then s.(writer := WRoom)
      else s.(writer := WIdle, acked := s.acked + [s.blk]) // neither branch ran: 139 returns 0
    case WRoom => s.(writer := if s.head + n >= s.tail then WIdle else WCopy(0))
  }

  predicate Complete(buf: seq<Byte>) {
    |buf| >= BLK_HEAD_LEN && |buf| >= LenAt(buf, 0)
  }

  /** What the caller makes of the bytes it has read. */
  function Understood(buf: seq<Byte>): Block {
    if Readable(buf, 0) then ReadBlock(buf, 0) else Block(0, 0, BLK_DATA, [])
  }

  function StepReader(s: State): State {
    match s.reader
    case RIdle => s
    case RAhead => s.(reader := if s.head > s.tail then RWhole else RBehind)
    case RWhole => s.(reader := if s.head >= s.tail + BLK_HEAD_LEN then RRead([]) else RIdle)
    case RBehind =>
      if s.head < s.tail then
        s.(reader := if |s.mem| < s.tail + BLK_HEAD_LEN then RReset else RKind)
      else s.(reader := RIdle)
    case RKind => s.(reader := if Peek(s.mem, s.tail + 8) == BLK_ALIGN then RReset else RRead([]))
    case RReset => s.(tail := MEM_HEAD_LEN, resets := s.resets + 1, reader := RAhead)
    case RRead(buf) =>
      if !Complete(buf) then s.(reader := RRead(buf + [Peek(s.mem, s.tail + |buf|)]))
      else s.(reader := RAdvance(Understood(buf), PeekInt(s.mem, s.tail + 9)))
    case RAdvance(blk, n) =>
      s.(tail := s.tail + n, consumed := s.consumed + [blk], reader := RIdle)
  }

  /** One step of a run. A label that does not apply leaves the state as it is. */
  function Step(s: State, l: Label): State {
    match l
    case Offer(b) =>
      if s.writer == WIdle && b.Storable() then s.(writer := WStart, blk := b, wraps := 0) else s
    case WriterMoves => StepWriter(s)
    case Ask => if s.reader == RIdle then s.(reader := RAhead, resets := 0) else s
    case ReaderMoves => StepReader(s)
  }

  /** A run: any interleaving of the two sides, given as a list of labels. */
  function Run(s: State, ls: seq<Label>): State
    decreases |ls|
  {
    if ls == [] then s else Run(Step(s, ls[0]), ls[1..])
  }

  // ------------------------------------------------------------------------ the invariant

  /** The pending blocks before and behind the wrap. */
  function Front(s: State): seq<Block>
    requires HistoryInv(s)
  {
    if s.head < s.tail then s.accepted[|s.consumed|..s.wrapAt] else s.accepted[|s.consumed|..]
  }

  function Back(s: State): seq<Block>
    requires HistoryInv(s)
  {
    if s.head < s.tail then s.accepted[s.wrapAt..] else []
  }

  predicate HistoryInv(s: State) {
    && s.consumed <= s.accepted
    && (s.head < s.tail ==> |s.consumed| <= s.wrapAt <= |s.accepted|)
  }

  ghost predicate WriterInv(s: State)
    requires MEM_HEAD_LEN <= s.head < |s.mem|
  {
    var n := s.blk.Len();
    && s.blk.Storable()
    && (s.writer != WIdle && s.wraps > 0 ==> s.wraps == 1 && s.head == MEM_HEAD_LEN)
    && match s.writer
       case WIdle => true
       case WStart => true
       case WMarkKind => s.tail <= s.head && s.head + BLK_HEAD_LEN <= |s.mem|
       case WMarkLen => s.tail <= s.head && s.head + BLK_HEAD_LEN <= |s.mem| && s.mem[s.head + 8] == BLK_ALIGN
       case WCheckTail => s.tail <= s.head && Skips(s.mem, s.head)
       case WWrap => MEM_HEAD_LEN < s.tail <= s.head && Skips(s.mem, s.head)
       case WCopy(k) =>
         && k <= n && s.head + n < Limit(s.head, s.tail, |s.mem|) <= |s.mem|
         && forall i :: 0 <= i < k ==> s.mem[s.head + i] == ByteAt(s.blk, i)
       case WRecheck => true
       case WRoom => true
  }

  /** What has been read so far is the beginning of the oldest accepted block. */
  ghost predicate Reading(buf: seq<Byte>, f: seq<Block>) {
    && f != [] && f[0].Storable() && |buf| <= f[0].Len()
    && forall i :: 0 <= i < |buf| ==> buf[i] == ByteAt(f[0], i)
  }

  ghost predicate ReaderInv(s: State)
    requires HistoryInv(s)
  {
    && (s.reader != RIdle && s.resets > 0 ==> s.resets == 1 && s.tail == MEM_HEAD_LEN)
    && match s.reader
       case RIdle => true
       case RAhead => true
       case RWhole => true
       case RBehind => true
       case RKind => s.head < s.tail && s.tail + BLK_HEAD_LEN <= |s.mem|
       case RReset => s.head < s.tail && Front(s) == []
       case RRead(buf) => Reading(buf, Front(s))
       case RAdvance(blk, n) => Front(s) != [] && blk == Front(s)[0] && n == blk.Len()
  }

  ghost predicate Inv(s: State) {
    && HistoryInv(s)
    && RingInv(s.mem, s.head, s.tail, Front(s), Back(s))
    && WriterInv(s)
    && ReaderInv(s)
  }

  // --------------------------------------------------------------- the writer keeps it

  /** The writer only ever changes bytes in the free region. */
  lemma ScribbleStep(s: State, m': seq<Byte>, w: Writer)
    requires Inv(s) && SameOutside(s.mem, m', s.head, Limit(s.head, s.tail, |s.mem|))
    requires WriterInv(s.(mem := m', writer := w))
    ensures Inv(s.(mem := m', writer := w))
  {
    ScribbleKeeps(s.mem, m', s.head, s.tail, Front(s), Back(s));
  }

  lemma MarkStep(s: State)
    requires Inv(s) && (s.writer == WMarkKind || s.writer == WMarkLen)
    ensures Inv(StepWriter(s))
  {
    var s' := StepWriter(s);
    ScribbleStep(s, s'.mem, s'.writer);
  }

  lemma CopyStep(s: State)
    requires Inv(s) && s.writer.WCopy? && s.writer.k < s.blk.Len()
    ensures Inv(StepWriter(s))
  {
    var s' := StepWriter(s);
    ScribbleStep(s, s'.mem, s'.writer);
  }

  lemma CopiedBlock(s: State)
    requires Inv(s) && s.writer == WCopy(s.blk.Len())
    ensures HoldsOne(s.mem, s.head, s.blk)
  {
    var e := Encode(s.blk);
    assert s.mem[s.head..s.head + s.blk.Len()] == e;
  }

  lemma PublishedHistory(s: State)
    requires Inv(s) && s.writer == WCopy(s.blk.Len())
    ensures var s' := StepWriter(s);
      && HistoryInv(s')
      && Front(s') == (if s.tail <= s.head then Front(s) + [s.blk] else Front(s))
      && Back(s') == (if s.tail <= s.head then Back(s) else Back(s) + [s.blk])
      && (Front(s) != [] ==> Front(s') != [] && Front(s')[0] == Front(s)[0])
  {
  }

  lemma PublishStep(s: State)
    requires Inv(s) && s.writer == WCopy(s.blk.Len())
    ensures Inv(StepWriter(s))
  {
    CopiedBlock(s);
    PublishKeeps(s.mem, s.head, s.tail, Front(s), Back(s), s.blk);
    PublishedHistory(s);
  }

  lemma WrapStep(s: State)
    requires Inv(s) && s.writer == WWrap
    ensures Inv(StepWriter(s))
  {
    var s' := StepWriter(s);
    WrapKeeps(s.mem, s.head, s.tail, Front(s));
    assert Front(s') == Front(s) && Back(s') == Back(s);
  }

  /** Only the writer's own place, and what it has told its caller, change. */
  lemma WriterMoved(s: State, w: Writer, acked: seq<Block>)
    requires Inv(s) && WriterInv(s.(writer := w))
    ensures Inv(s.(writer := w, acked := acked))
  {
  }

  lemma DecideStep(s: State)
    requires Inv(s) && !s.writer.WMarkKind? && !s.writer.WMarkLen? && !s.writer.WWrap? && !s.writer.WCopy?
    ensures Inv(StepWriter(s))
  {
    var s' := StepWriter(s);
    WriterMoved(s, s'.writer, s'.acked);
  }

  lemma WriterKeeps(s: State)
    requires Inv(s)
    ensures Inv(StepWriter(s))
  {
    if s.writer == WMarkKind || s.writer == WMarkLen {
      MarkStep(s);
    } else if s.writer == WWrap {
      WrapStep(s);
    } else if s.writer.WCopy? {
      if s.writer.k < s.blk.Len() {
        CopyStep(s);
      } else {
        PublishStep(s);
      }
    } else {
      DecideStep(s);
    }
  }

  // --------------------------------------------------------------- the reader keeps it

  lemma AdvancedRing(s: State)
    requires Inv(s) && s.reader.RAdvance?
    ensures var s' := StepReader(s); RingInv(s'.mem, s'.head, s'.tail, Front(s)[1..], Back(s))
  {
    AdvanceKeeps(s.mem, s.head, s.tail, Front(s), Back(s));
  }

  /** Only tail, the reader's own place and what it has consumed change. */
  lemma TailMoved(s': State, front: seq<Block>, back: seq<Block>)
    requires HistoryInv(s') && WriterInvOf(s') && s'.reader.RIdle?
    requires Front(s') == front && Back(s') == back && RingInv(s'.mem, s'.head, s'.tail, front, back)
    ensures Inv(s')
  {
  }

  ghost predicate WriterInvOf(s: State) {
    MEM_HEAD_LEN <= s.head < |s.mem| && WriterInv(s)
  }

  lemma AdvanceStep(s: State)
    requires Inv(s) && s.reader.RAdvance?
    ensures Inv(StepReader(s))
  {
    var s' := StepReader(s);
    AdvancedRing(s);
    PoppedHistory(s);
    TailMoves(s, s');
    TailMoved(s', Front(s)[1..], Back(s));
  }

  /** The writer's place stays good when tail moves forward, or back to the start. */
  lemma TailMoves(s: State, s': State)
    requires MEM_HEAD_LEN <= s.head < |s.mem| && WriterInv(s)
    requires s' == s.(tail := s'.tail, reader := s'.reader, resets := s'.resets, consumed := s'.consumed)
    requires s'.tail <= |s.mem|
    requires s.tail <= s.head ==> s.tail <= s'.tail <= s.head
    requires s.head < s.tail ==> s.tail <= s'.tail || s'.tail <= s.head
    ensures WriterInv(s')
  {
  }

  lemma PoppedHistory(s: State)
    requires Inv(s) && s.reader.RAdvance?
    ensures var s' := StepReader(s);
      HistoryInv(s') && Front(s') == Front(s)[1..] && Back(s') == Back(s) && (s.tail <= s.head <==> s'.tail <= s'.head)
  {
    var s' := StepReader(s);
    HoldsBounds(s.mem, s.tail, Front(s));
    assert s.accepted[|s.consumed|] == s.reader.blk;
    assert s'.consumed == s.accepted[..|s.consumed| + 1];
    assert Front(s') == Front(s)[1..];
  }

  lemma ResetStep(s: State)
    requires Inv(s) && s.reader == RReset
    ensures Inv(StepReader(s))
  {
    var s' := StepReader(s);
    ResetKeeps(s.mem, s.head, s.tail, Back(s));
    assert |s.consumed| == s.wrapAt;
    assert Front(s') == Back(s);
    TailMoves(s, s');
  }

  /** The byte read next is the next byte of the oldest block, and the bytes are complete
      exactly when there are as many as the block has. */
  lemma ReadingNext(m: seq<Byte>, tail: int, buf: seq<Byte>, f: seq<Block>)
    requires Holds(m, tail, f) && Reading(buf, f)
    ensures Complete(buf) <==> |buf| == f[0].Len()
    ensures |buf| < f[0].Len() ==> tail + |buf| < |m| && Reading(buf + [m[tail + |buf|]], f)
    ensures |buf| == f[0].Len() ==> Understood(buf) == f[0]
    ensures tail + f[0].Len() <= |m| && PeekInt(m, tail + 9) == f[0].Len()
  {
    var b := f[0];
    var n, e := b.Len(), Encode(b);
    HoldsFirst(m, tail, f);
    assert LenAt(m, tail) == PeekInt(m, tail + 9);
    if |buf| < n {
      assert m[tail + |buf|] == m[tail..tail + n][|buf|] == e[|buf|];
      PartIsNotComplete(buf, b);
    } else {
      assert buf[0..0 + n] == buf == e;
      ReadBack(buf, 0, b);
    }
  }

  /** What the reader knows of the oldest block after one more access. */
  ghost predicate Knows(r: Reader, f: seq<Block>) {
    match r
    case RRead(buf) => Reading(buf, f)
    case RAdvance(blk, n) => f != [] && blk == f[0] && n == blk.Len()
    case _ => false
  }

  function NextReader(m: seq<Byte>, tail: int, buf: seq<Byte>): Reader {
    if !Complete(buf) then RRead(buf + [Peek(m, tail + |buf|)])
    else RAdvance(Understood(buf), PeekInt(m, tail + 9))
  }

  lemma NextIsKnown(m: seq<Byte>, tail: int, buf: seq<Byte>, f: seq<Block>)
    requires Holds(m, tail, f) && Reading(buf, f)
    ensures Knows(NextReader(m, tail, buf), f)
  {
    ReadingNext(m, tail, buf, f);
  }

  lemma ReadIsNext(s: State)
    requires s.reader.RRead?
    ensures StepReader(s) == s.(reader := NextReader(s.mem, s.tail, s.reader.buf))
  {
  }

  /** Only the reader's own place changes, to another one in the same block. */
  lemma ReaderKnows(s: State, r: Reader)
    requires Inv(s) && s.reader != RIdle && Knows(r, Front(s))
    ensures Inv(s.(reader := r))
  {
    assert Front(s.(reader := r)) == Front(s) && Back(s.(reader := r)) == Back(s);
  }

  lemma ReadStep(s: State)
    requires Inv(s) && s.reader.RRead?
    ensures Inv(StepReader(s))
  {
    ReadIsNext(s);
    NextIsKnown(s.mem, s.tail, s.reader.buf, Front(s));
    ReaderKnows(s, NextReader(s.mem, s.tail, s.reader.buf));
  }

  /** A block of which bytes are missing does not look complete. */
  lemma PartIsNotComplete(buf: seq<Byte>, b: Block)
    requires b.Storable() && |buf| < b.Len()
    requires forall i :: 0 <= i < |buf| ==> buf[i] == ByteAt(b, i)
    ensures !Complete(buf)
  {
    if BLK_HEAD_LEN <= |buf| {
      IntRoundTrip(b.Len());
      assert buf[9] == ByteOf(b.Len(), 0) && buf[10] == ByteOf(b.Len(), 1);
      assert buf[11] == ByteOf(b.Len(), 2) && buf[12] == ByteOf(b.Len(), 3);
    }
  }

  /** Only the reader's own place changes. */
  lemma ReaderMoved(s: State, r: Reader)
    requires Inv(s) && ReaderInv(s.(reader := r))
    ensures Inv(s.(reader := r))
  {
  }

  lemma LookAhead(s: State)
    requires Inv(s) && (s.reader == RIdle || s.reader == RAhead || s.reader == RWhole)
    ensures Inv(StepReader(s))
  {
    var r := StepReader(s).reader;
    SkipIffUsedUp(s.mem, s.head, s.tail, Front(s), Back(s));
    ReaderMoved(s, r);
  }

  lemma LookBehind(s: State)
    requires Inv(s) && (s.reader == RBehind || s.reader == RKind)
    ensures Inv(StepReader(s))
  {
    var r := StepReader(s).reader;
    SkipIffUsedUp(s.mem, s.head, s.tail, Front(s), Back(s));
    ReaderMoved(s, r);
  }

  lemma ReaderKeeps(s: State)
    requires Inv(s)
    ensures Inv(StepReader(s))
  {
    if s.reader.RReset? {
      ResetStep(s);
    } else if s.reader.RRead? {
      ReadStep(s);
    } else if s.reader.RAdvance? {
      AdvanceStep(s);
    } else if s.reader == RBehind || s.reader == RKind {
      LookBehind(s);
    } else {
      LookAhead(s);
    }
  }

  // ---------------------------------------------------------------------- the theorems

  lemma InitInv(size: nat)
    requires MEM_HEAD_LEN < size
    ensures Inv(Init(size))
  {
  }

  lemma StepKeeps(s: State, l: Label)
    requires Inv(s)
    ensures Inv(Step(s, l))
  {
    match l {
      case WriterMoves => WriterKeeps(s);
      case ReaderMoves => ReaderKeeps(s);
      case _ =>
    }
  }

  lemma {:induction false} RunKeeps(s: State, ls: seq<Label>)
    requires Inv(s)
    ensures Inv(Run(s, ls))
    decreases |ls|
  {
    if ls != [] {
      StepKeeps(s, ls[0]);
      RunKeeps(Step(s, ls[0]), ls[1..]);
    }
  }

  ghost predicate PendingIs(s: State, front: seq<Block>, back: seq<Block>) {
    RingInv(s.mem, s.head, s.tail, front, back) && s.consumed + front + back == s.accepted
  }

  /** In every interleaving the blocks read and popped, followed by the blocks that the memory
      holds between tail and head, are the blocks accepted, in order and byte for byte. */
  lemma ConsumedThenPendingIsAccepted(size: nat, ls: seq<Label>)
    requires MEM_HEAD_LEN < size
    ensures exists front, back :: PendingIs(Run(Init(size), ls), front, back)
  {
    InitInv(size);
    RunKeeps(Init(size), ls);
    var s := Run(Init(size), ls);
    assert s.consumed + Front(s) + Back(s) == s.accepted;
    assert PendingIs(s, Front(s), Back(s));
  }

  /** From the moment mq_get has returned a block until mq_pop, whatever the writer does, each
      byte the caller has read, and each byte still in memory, is a byte of the oldest accepted
      block that has not been popped. */
  lemma NoTornRead(size: nat, ls: seq<Label>)
    requires MEM_HEAD_LEN < size
    ensures var s := Run(Init(size), ls);
      s.reader.RRead? ==>
        && |s.consumed| < |s.accepted|
        && var b := s.accepted[|s.consumed|];
           && HoldsOne(s.mem, s.tail, b)
           && |s.reader.buf| <= b.Len() && s.reader.buf == Encode(b)[..|s.reader.buf|]
  {
    InitInv(size);
    RunKeeps(Init(size), ls);
  }

  /** The next access of each side falls on the bytes behind the queue head and inside the
      mapping. */
  predicate WriterInside(s: State) {
    match s.writer
    case WMarkKind => MEM_HEAD_LEN <= s.head + 8 < |s.mem|
    case WMarkLen => MEM_HEAD_LEN <= s.head + 9 && s.head + 13 <= |s.mem|
    case WCopy(k) => k < s.blk.Len() ==> MEM_HEAD_LEN <= s.head + k < |s.mem|
    case _ => true
  }

  predicate ReaderInside(s: State) {
    match s.reader
    case RKind => MEM_HEAD_LEN <= s.tail + 8 < |s.mem|
    case RRead(buf) =>
      if Complete(buf) then MEM_HEAD_LEN <= s.tail + 9 && s.tail + 13 <= |s.mem|
      else MEM_HEAD_LEN <= s.tail + |buf| < |s.mem|
    case _ => true
  }

  lemma ReadInside(s: State)
    requires Inv(s)
    ensures ReaderInside(s)
  {
    if s.reader.RRead? {
      var buf, f := s.reader.buf, Front(s);
      ReadingNext(s.mem, s.tail, buf, f);
      assert |buf| <= f[0].Len();
      assert if Complete(buf) then s.tail + 13 <= |s.mem| else s.tail + |buf| < |s.mem|;
    }
  }

  lemma EveryAccessIsInside(size: nat, ls: seq<Label>)
    requires MEM_HEAD_LEN < size
    ensures WriterInside(Run(Init(size), ls)) && ReaderInside(Run(Init(size), ls))
  {
    InitInv(size);
    RunKeeps(Init(size), ls);
    ReadInside(Run(Init(size), ls));
  }

  /** push_again and get_again are each taken at most once in a call. */
  lemma AtMostTwoPasses(size: nat, ls: seq<Label>)
    requires MEM_HEAD_LEN < size
    ensures var s := Run(Init(size), ls);
      (s.writer != WIdle ==> s.wraps <= 1) && (s.reader != RIdle ==> s.resets <= 1)
  {
    InitInv(size);
    RunKeeps(Init(size), ls);
  }

  // ----------------------------------------------------- what mq_push tells its caller

  /** Line 123 is reached after line 102 saw head < tail, and reads tail again. If the reader
      has followed the writer to the start in between, no branch is left to take. */
  predicate FallsThrough(s: State, l: Label) {
    l == WriterMoves && s.writer == WRecheck && s.tail <= s.head
  }

  function FallThroughs(s: State, ls: seq<Label>): nat
    decreases |ls|
  {
    if ls == [] then 0
    else (if FallsThrough(s, ls[0]) then 1 else 0) + FallThroughs(Step(s, ls[0]), ls[1..])
  }

  /** A step adds the same blocks to both lists, unless it falls through. */
  lemma AckedStep(s: State, l: Label)
    ensures var s', n := Step(s, l), if FallsThrough(s, l) then 1 else 0;
      && |s'.acked| - |s'.accepted| == |s.acked| - |s.accepted| + n
      && (n == 0 && s.acked == s.accepted ==> s'.acked == s'.accepted)
  {
  }

  lemma {:induction false} AckedCount(s: State, ls: seq<Label>)
    ensures var s' := Run(s, ls);
      && |s'.acked| - |s'.accepted| == |s.acked| - |s.accepted| + FallThroughs(s, ls)
      && (FallThroughs(s, ls) == 0 && s.acked == s.accepted ==> s'.acked == s'.accepted)
    decreases |ls|
  {
    if ls != [] {
      AckedStep(s, ls[0]);
      AckedCount(Step(s, ls[0]), ls[1..]);
    }
  }

  /** The reader resets tail (lines 82 and 87) between the two tests of tail in a call of
      mq_push, and the writer goes on. */
  predicate Overtaken(s: State, ls: seq<Label>)
    decreases |ls|
  {
    ls != [] &&
    (|| (ls[0] == ReaderMoves && s.reader == RReset && s.writer == WRecheck && WriterMoves in ls[1..])
     || Overtaken(Step(s, ls[0]), ls[1..]))
  }

  /** The writer waits at line 123, and its second test of tail will fail. */
  predicate Doomed(s: State) {
    s.writer == WRecheck && s.tail <= s.head
  }

  /** What a step does to a writer between its two tests: it comes there only when the first test
      has succeeded, and nothing but a reset makes the second one fail. */
  lemma DoomedByReset(s: State, l: Label)
    requires Inv(s)
    ensures l == WriterMoves ==> !Doomed(Step(s, l))
    ensures l != WriterMoves ==>
              (Doomed(Step(s, l)) <==> Doomed(s) || (l == ReaderMoves && s.reader == RReset && s.writer == WRecheck))
  {
    if l == ReaderMoves && s.reader != RReset {
      TailStaysAhead(s);
    }
  }

  /** Unless it resets tail, the reader does not change which offset is ahead. */
  lemma TailStaysAhead(s: State)
    requires Inv(s) && s.reader != RReset
    ensures var s' := StepReader(s);
      s'.head == s.head && s'.writer == s.writer && (s'.tail <= s'.head <==> s.tail <= s.head)
  {
    if s.reader.RAdvance? {
      PoppedHistory(s);
    }
  }

  lemma {:induction false} FallsThroughIff(s: State, ls: seq<Label>)
    requires Inv(s)
    ensures 0 < FallThroughs(s, ls) <==> Overtaken(s, ls) || (Doomed(s) && WriterMoves in ls)
    decreases |ls|
  {
    if ls != [] {
      var l, s1, rest := ls[0], Step(s, ls[0]), ls[1..];
      StepKeeps(s, l);
      DoomedByReset(s, l);
      FallsThroughIff(s1, rest);
      assert WriterMoves in ls <==> l == WriterMoves || WriterMoves in rest;
    }
  }

  /** In every interleaving: the blocks for which mq_push returned 0 are the blocks in the queue
      if and only if no call was overtaken by a reset of tail between its two tests of tail. */
  lemma AckedIffNotOvertaken(size: nat, ls: seq<Label>)
    requires MEM_HEAD_LEN < size
    ensures var s := Run(Init(size), ls);
      s.acked == s.accepted <==> !Overtaken(Init(size), ls)
  {
    InitInv(size);
    AckedCount(Init(size), ls);
    FallsThroughIff(Init(size), ls);
  }

  function Times(l: Label, n: nat): seq<Label> {
    seq(n, i => l)
  }

  lemma {:induction false} RunInParts(s: State, a: seq<Label>, b: seq<Label>)
    ensures Run(s, a + b) == Run(Run(s, a), b)
    decreases |a|
  {
    if a == [] {
      assert a + b == b;
    } else {
      assert (a + b)[0] == a[0] && (a + b)[1..] == a[1..] + b;
      RunInParts(Step(s, a[0]), a[1..], b);
    }
  }

  lemma RunCons(s: State, l: Label, ls: seq<Label>)
    ensures Run(s, [l] + ls) == Run(Step(s, l), ls)
  {
    assert ([l] + ls)[1..] == ls;
  }

  lemma TimesCons(l: Label, n: nat)
    ensures Times(l, n + 1) == [l] + Times(l, n)
  {
  }

  lemma {:induction false} CopyRuns(s: State, k: nat, t: State)
    requires s.blk.Storable() && s.writer == WCopy(k) && k <= s.blk.Len()
    requires t == Run(s, Times(WriterMoves, s.blk.Len() - k + 1))
    ensures t == s.(mem := t.mem, head := s.head + s.blk.Len(), writer := WIdle,
                    accepted := s.accepted + [s.blk], acked := s.acked + [s.blk])
    ensures |t.mem| == |s.mem|
    decreases s.blk.Len() - k
  {
    var n := s.blk.Len() - k;
    TimesCons(WriterMoves, n);
    RunCons(s, WriterMoves, Times(WriterMoves, n));
    if n > 0 {
      CopyRuns(StepWriter(s), k + 1, t);
    } else {
      assert Times(WriterMoves, 0) == [];
    }
  }

  /** One access while the block at tail is read. */
  lemma ReadOneByte(s: State, buf: seq<Byte>, f: seq<Block>)
    requires Holds(s.mem, s.tail, f) && Reading(buf, f) && s.reader == RRead(buf)
    ensures var more := buf + [Peek(s.mem, s.tail + |buf|)];
      && (|buf| < f[0].Len() ==> StepReader(s) == s.(reader := RRead(more)) && Reading(more, f))
      && (|buf| == f[0].Len() ==> StepReader(s) == s.(reader := RAdvance(f[0], f[0].Len())))
  {
    ReadingNext(s.mem, s.tail, buf, f);
  }

  function Taken(s: State, b: Block): State {
    s.(tail := s.tail + b.Len(), reader := RIdle, consumed := s.consumed + [b])
  }

  lemma {:induction false} ReadRuns(s: State, buf: seq<Byte>, f: seq<Block>, n: nat)
    requires Holds(s.mem, s.tail, f) && Reading(buf, f) && s.reader == RRead(buf) && |buf| + n == f[0].Len()
    ensures Run(s, Times(ReaderMoves, n + 2)) == Taken(s, f[0])
    decreases n
  {
    var s1 := StepReader(s);
    ReadOneByte(s, buf, f);
    TimesCons(ReaderMoves, n + 1);
    RunCons(s, ReaderMoves, Times(ReaderMoves, n + 1));
    if n > 0 {
      ReadRuns(s1, buf + [Peek(s.mem, s.tail + |buf|)], f, n - 1);
    } else {
      PopRuns(s1, f[0]);
    }
  }

  lemma PopRuns(s: State, b: Block)
    requires s.reader == RAdvance(b, b.Len())
    ensures Run(s, Times(ReaderMoves, 1)) == Taken(s, b)
  {
    TimesCons(ReaderMoves, 0);
    RunCons(s, ReaderMoves, []);
    assert Times(ReaderMoves, 0) == [];
  }

  // --------------------------------------------------- a side that runs alone comes to its end

  /** One more move. */
  lemma MoveOn(s: State, l: Label, n: nat)
    ensures Run(s, Times(l, n + 1)) == Step(Run(s, Times(l, n)), l)
  {
    assert Times(l, n + 1) == Times(l, n) + [l];
    RunInParts(s, Times(l, n), [l]);
    assert [l] == [l] + [];
    RunCons(Run(s, Times(l, n)), l, []);
  }

  lemma MovesInTwo(s: State, l: Label, a: nat, b: nat)
    ensures Run(s, Times(l, a + b)) == Run(Run(s, Times(l, a)), Times(l, b))
  {
    assert Times(l, a + b) == Times(l, a) + Times(l, b);
    RunInParts(s, Times(l, a), Times(l, b));
  }

  lemma Moves(s: State, l: Label)
    ensures Run(s, Times(l, 0)) == s && Run(s, Times(l, 1)) == Step(s, l)
    ensures Run(s, Times(l, 2)) == Step(Step(s, l), l) && Run(s, Times(l, 3)) == Step(Step(Step(s, l), l), l)
  {
    assert Times(l, 0) == [];
    MoveOn(s, l, 0);
    MoveOn(s, l, 1);
    MoveOn(s, l, 2);
  }

  /** mq_get from line 73 on, if the queue is not wrapped. */
  lemma FindsAhead(s: State)
    requires Inv(s) && s.reader == RAhead && s.tail <= s.head
    ensures StepReader(StepReader(s)) == s.(reader := if Front(s) != [] then RRead([]) else RIdle)
  {
    SkipIffUsedUp(s.mem, s.head, s.tail, Front(s), Back(s));
  }

  /** And if it is: the oldest block lies before the wrap, or tail goes back to the start. */
  lemma FindsBehind(s: State) returns (n: nat)
    requires Inv(s) && s.reader == RAhead && s.head < s.tail
    ensures n <= 4
    ensures Run(s, Times(ReaderMoves, n)) ==
              if Front(s) != [] then s.(reader := RRead([]))
              else s.(tail := MEM_HEAD_LEN, resets := s.resets + 1, reader := RAhead)
  {
    SkipIffUsedUp(s.mem, s.head, s.tail, Front(s), Back(s));
    Moves(s, ReaderMoves);
    n := 3;
    if Front(s) == [] && s.tail + BLK_HEAD_LEN <= |s.mem| {
      MoveOn(s, ReaderMoves, 3);
      n := 4;
    }
  }

  lemma FindsAlone(s: State) returns (n: nat, t: State)
    requires Inv(s) && s.reader == RAhead
    ensures n <= 6 && t == Run(s, Times(ReaderMoves, n)) && Inv(t)
    ensures t == s.(tail := t.tail, resets := t.resets, reader := if s.accepted != s.consumed then RRead([]) else RIdle)
  {
    NothingPending(s);
    if s.tail <= s.head {
      n := 2;
      FindsAhead(s);
      Moves(s, ReaderMoves);
    } else {
      n := FindsBehind(s);
      if Front(s) == [] {
        n := FindsInTwo(s, n);
      }
    }
    t := Run(s, Times(ReaderMoves, n));
    RunKeeps(s, Times(ReaderMoves, n));
  }

  lemma NothingPending(s: State)
    requires Inv(s)
    ensures s.accepted == s.consumed <==> Front(s) == [] && Back(s) == []
    ensures s.tail <= s.head ==> Back(s) == []
  {
    assert s.consumed + Front(s) + Back(s) == s.accepted;
  }

  /** After tail has gone back to the start. */
  lemma FindsInTwo(s: State, k: nat) returns (n: nat)
    requires Inv(s) && s.head < s.tail && Front(s) == []
    requires Run(s, Times(ReaderMoves, k)) == s.(tail := MEM_HEAD_LEN, resets := s.resets + 1, reader := RAhead)
    ensures n == k + 2
    ensures Run(s, Times(ReaderMoves, n)) ==
              s.(tail := MEM_HEAD_LEN, resets := s.resets + 1, reader := if Back(s) != [] then RRead([]) else RIdle)
  {
    var u := Run(s, Times(ReaderMoves, k));
    RunKeeps(s, Times(ReaderMoves, k));
    NothingPending(u);
    NothingPending(s);
    FindsAhead(u);
    Moves(u, ReaderMoves);
    n := k + 2;
    MovesInTwo(s, ReaderMoves, k, 2);
  }

  /** The block that mq_get has returned is the oldest one accepted. */
  lemma FoundIsOldest(t: State)
    requires Inv(t) && t.reader == RRead([])
    ensures |t.consumed| < |t.accepted| && Front(t) != [] && Front(t)[0] == t.accepted[|t.consumed|]
    ensures Holds(t.mem, t.tail, Front(t)) && Reading([], Front(t)) && HoldsOne(t.mem, t.tail, Front(t)[0])
  {
  }

  /** From every reachable state, mq_get that runs alone returns the oldest accepted block if there
      is one that has not been popped, wherever it lies, and NULL if there is none. */
  lemma ReaderAloneFinds(size: nat, ls: seq<Label>) returns (n: nat)
    requires MEM_HEAD_LEN < size && Run(Init(size), ls).reader == RIdle
    ensures n <= 6
    ensures var s := Run(Init(size), ls);
      var t := Run(s, [Ask] + Times(ReaderMoves, n));
      && t == s.(tail := t.tail, resets := t.resets, reader := t.reader)
      && t.reader == (if s.accepted == s.consumed then RIdle else RRead([]))
      && (s.accepted != s.consumed ==>
            |s.consumed| < |s.accepted| && HoldsOne(t.mem, t.tail, s.accepted[|s.consumed|]))
  {
    var s := Run(Init(size), ls);
    InitInv(size);
    RunKeeps(Init(size), ls);
    StepKeeps(s, Ask);
    var t;
    n, t := FindsAlone(Step(s, Ask));
    RunCons(s, Ask, Times(ReaderMoves, n));
    if s.accepted != s.consumed {
      FoundIsOldest(t);
    }
  }

  /** And if it goes on to read and pop, that block has been consumed. */
  lemma ReaderAloneTakes(size: nat, ls: seq<Label>) returns (n: nat)
    requires MEM_HEAD_LEN < size && Run(Init(size), ls).reader == RIdle
    requires Run(Init(size), ls).accepted != Run(Init(size), ls).consumed
    ensures var s := Run(Init(size), ls);
      && |s.consumed| < |s.accepted| && n <= s.accepted[|s.consumed|].Len() + 8
      && var t := Run(s, [Ask] + Times(ReaderMoves, n));
         && t.reader == RIdle && t.consumed == s.consumed + [s.accepted[|s.consumed|]]
         && t.accepted == s.accepted && t.mem == s.mem && t.head == s.head
  {
    var s := Run(Init(size), ls);
    InitInv(size);
    RunKeeps(Init(size), ls);
    StepKeeps(s, Ask);
    n := TakesAlone(Step(s, Ask));
    RunCons(s, Ask, Times(ReaderMoves, n));
  }

  lemma TakesAlone(s: State) returns (n: nat)
    requires Inv(s) && s.reader == RAhead && s.accepted != s.consumed
    ensures |s.consumed| < |s.accepted| && n <= s.accepted[|s.consumed|].Len() + 8
    ensures var t := Run(s, Times(ReaderMoves, n));
      && t.reader == RIdle && t.consumed == s.consumed + [s.accepted[|s.consumed|]]
      && t.accepted == s.accepted && t.mem == s.mem && t.head == s.head
  {
    var t;
    n, t := FindsAlone(s);
    n := FindThenTake(s, n, t);
  }

  lemma FindThenTake(s: State, n: nat, t: State) returns (k: nat)
    requires t == Run(s, Times(ReaderMoves, n)) && Inv(t) && t.reader == RRead([])
    ensures |t.consumed| < |t.accepted| && k == n + t.accepted[|t.consumed|].Len() + 2
    ensures Run(s, Times(ReaderMoves, k)) == Taken(t, t.accepted[|t.consumed|])
  {
    var m := TakesFound(t);
    MovesInTwo(s, ReaderMoves, n, m);
    k := n + m;
  }

  lemma TakesFound(t: State) returns (m: nat)
    requires Inv(t) && t.reader == RRead([])
    ensures |t.consumed| < |t.accepted| && m == t.accepted[|t.consumed|].Len() + 2
    ensures Run(t, Times(ReaderMoves, m)) == Taken(t, t.accepted[|t.consumed|])
  {
    FoundIsOldest(t);
    m := Front(t)[0].Len() + 2;
    ReadRuns(t, [], Front(t), m - 2);
  }

  /** What mq_push comes to: the block is accepted and acknowledged, or neither. */
  ghost predicate PushedAlone(s: State, t: State, ok: bool, head: int) {
    && t == s.(mem := t.mem, head := head, writer := WIdle, wraps := t.wraps, wrapAt := t.wrapAt,
               accepted := if ok then s.accepted + [s.blk] else s.accepted,
               acked := if ok then s.acked + [s.blk] else s.acked)
    && |t.mem| == |s.mem|
  }

  /** From line 116 or 127 on. */
  lemma CopiesAlone(s: State) returns (n: nat)
    requires s.blk.Storable() && s.writer == WCopy(0)
    ensures n == s.blk.Len() + 1 && PushedAlone(s, Run(s, Times(WriterMoves, n)), true, s.head + s.blk.Len())
  {
    n := s.blk.Len() + 1;
    CopyRuns(s, 0, Run(s, Times(WriterMoves, n)));
  }

  /** A pass in a wrapped queue. */
  lemma FillsAlone(s: State) returns (n: nat)
    requires s.blk.Storable() && s.writer == WStart && s.head < s.tail
    ensures n <= s.blk.Len() + 4
    ensures var ok := s.head + s.blk.Len() < s.tail;
      PushedAlone(s, Run(s, Times(WriterMoves, n)), ok, if ok then s.head + s.blk.Len() else s.head)
  {
    Moves(s, WriterMoves);
    n := 3;
    if s.head + s.blk.Len() < s.tail {
      var u := Run(s, Times(WriterMoves, 3));
      var k := CopiesAlone(u);
      MovesInTwo(s, WriterMoves, 3, k);
      n := 3 + k;
    }
  }

  /** The end of the mapping is reached: the marker is written, if there is room for one. */
  lemma MarksAlone(s: State) returns (n: nat, u: State)
    requires s.writer == WStart && s.tail <= s.head && |s.mem| <= s.head + s.blk.Len()
    ensures n <= 3 && u == Run(s, Times(WriterMoves, n))
    ensures u == s.(mem := u.mem, writer := WCheckTail) && |u.mem| == |s.mem|
  {
    Moves(s, WriterMoves);
    n := if s.head + BLK_HEAD_LEN <= |s.mem| then 3 else 1;
    u := Run(s, Times(WriterMoves, n));
  }

  /** From there on: mq_push gives up if tail is at the start, and starts again there if not. */
  lemma WrapsAlone(s: State) returns (n: nat)
    requires s.blk.Storable() && s.writer == WCheckTail && MEM_HEAD_LEN <= s.tail
    ensures n <= s.blk.Len() + 6
    ensures var ok := MEM_HEAD_LEN != s.tail && MEM_HEAD_LEN + s.blk.Len() < s.tail;
      PushedAlone(s, Run(s, Times(WriterMoves, n)), ok,
                  if MEM_HEAD_LEN == s.tail then s.head else if ok then MEM_HEAD_LEN + s.blk.Len() else MEM_HEAD_LEN)
  {
    Moves(s, WriterMoves);
    n := 1;
    if MEM_HEAD_LEN != s.tail {
      var u := Run(s, Times(WriterMoves, 2));
      var k := FillsAlone(u);
      MovesInTwo(s, WriterMoves, 2, k);
      n := 2 + k;
    }
  }

  /** From every reachable state, mq_push that runs alone accepts the block, and returns 0, exactly
      if the offsets that it starts from leave room for it, and leaves head where the sequential
      queue does. */
  lemma WriterAlonePushes(size: nat, ls: seq<Label>, b: Block) returns (n: nat)
    requires MEM_HEAD_LEN < size && Run(Init(size), ls).writer == WIdle && b.Storable()
    ensures n <= b.Len() + 9
    ensures var s := Run(Init(size), ls);
      var t, (ok, head) := Run(s, [Offer(b)] + Times(WriterMoves, n)), PushOutcome(s.head, s.tail, |s.mem|, b.Len());
      && t.writer == WIdle && t.head == head && t.tail == s.tail && t.reader == s.reader && t.consumed == s.consumed
      && t.accepted == (if ok then s.accepted + [b] else s.accepted)
      && t.acked == if ok then s.acked + [b] else s.acked
  {
    var s := Run(Init(size), ls);
    InitInv(size);
    RunKeeps(Init(size), ls);
    var s1 := Step(s, Offer(b));
    n := PushesAlone(s1);
    RunCons(s, Offer(b), Times(WriterMoves, n));
  }

  lemma PushesAlone(s: State) returns (n: nat)
    requires s.blk.Storable() && s.writer == WStart && MEM_HEAD_LEN <= s.tail
    ensures n <= s.blk.Len() + 9
    ensures var (ok, head) := PushOutcome(s.head, s.tail, |s.mem|, s.blk.Len());
      PushedAlone(s, Run(s, Times(WriterMoves, n)), ok, head)
  {
    Moves(s, WriterMoves);
    if s.head < s.tail {
      n := FillsAlone(s);
    } else if s.head + s.blk.Len() < |s.mem| {
      var k := CopiesAlone(StepWriter(s));
      MovesInTwo(s, WriterMoves, 1, k);
      n := 1 + k;
    } else {
      var m, u := MarksAlone(s);
      var k := WrapsAlone(u);
      MovesInTwo(s, WriterMoves, m, k);
      n := m + k;
    }
  }

  /** The writer goes back to the start, the reader follows, the writer's second test fails. */
  lemma SecondPushIsLost(s: State, b: Block) returns (ls: seq<Label>)
    requires |s.mem| == 30 && s.head == s.tail == 25 && b == Block(0, 0, BLK_DATA, [])
    requires s.writer == WIdle && s.reader == RIdle
    ensures Run(s, ls).acked == s.acked + [b] && Run(s, ls).accepted == s.accepted
    ensures Run(s, ls).writer == WIdle && Run(s, ls).head == Run(s, ls).tail
  {
    var s1 := Step(s, Offer(b));
    var s2 := StepWriter(StepWriter(StepWriter(StepWriter(s1))));
    assert s2 == s1.(head := MEM_HEAD_LEN, wrapAt := |s1.accepted|, wraps := 1, writer := WRecheck);
    var s3 := StepReader(StepReader(StepReader(Step(s2, Ask))));
    assert s3 == s2.(tail := MEM_HEAD_LEN, resets := 1, reader := RAhead);
    var s4 := StepWriter(s3);
    ls := [WriterMoves];
    RunCons(s3, WriterMoves, []);
    ls := RunThreeMore(s2, Step(s2, Ask), Ask, ReaderMoves, ls);
    ls := RunFourMore(s, s1, Offer(b), ls);
  }

  lemma RunThreeMore(s: State, s1: State, first: Label, next: Label, ls: seq<Label>) returns (r: seq<Label>)
    requires s1 == Step(s, first)
    ensures r == [first] + ([next] + ([next] + ([next] + ls)))
    ensures Run(s, r) == Run(Step(Step(Step(s1, next), next), next), ls)
  {
    r := [first] + ([next] + ([next] + ([next] + ls)));
    RunCons(s, first, [next] + ([next] + ([next] + ls)));
    RunCons(s1, next, [next] + ([next] + ls));
    RunCons(Step(s1, next), next, [next] + ls);
    RunCons(Step(Step(s1, next), next), next, ls);
  }

  lemma RunFourMore(s: State, s1: State, first: Label, ls: seq<Label>) returns (r: seq<Label>)
    requires s1 == Step(s, first)
    ensures Run(s, r) == Run(StepWriter(StepWriter(StepWriter(StepWriter(s1)))), ls)
  {
    var rest := [WriterMoves] + ls;
    r := RunThreeMore(s, s1, first, WriterMoves, rest);
    RunCons(StepWriter(StepWriter(StepWriter(s1))), WriterMoves, ls);
  }

  /** A new mapping of 30 bytes. */
  predicate Fresh(s: State) {
    && |s.mem| == 30 && s.head == s.tail == MEM_HEAD_LEN && s.writer == WIdle && s.reader == RIdle
    && s.accepted == s.acked == s.consumed == []
  }

  lemma FirstPushBegun(s: State, b: Block)
    requires Fresh(s) && b == Block(0, 0, BLK_DATA, [])
    ensures Run(s, [Offer(b)] + ([WriterMoves] + [])) == s.(blk := b, wraps := 0, writer := WCopy(0))
  {
    var s1 := Step(s, Offer(b));
    RunCons(s, Offer(b), [WriterMoves] + []);
    RunCons(s1, WriterMoves, []);
    assert s1 == s.(writer := WStart, blk := b, wraps := 0);
    assert StepWriter(s1) == s1.(writer := WCopy(0));
  }

  /** In such a mapping one block is stored. */
  lemma FirstBlockStored(s: State, b: Block) returns (ls: seq<Label>, t: State)
    requires Fresh(s) && b == Block(0, 0, BLK_DATA, [])
    ensures t == Run(s, ls) && |t.mem| == 30
    ensures t.head == 25 && t.tail == MEM_HEAD_LEN && t.writer == WIdle && t.reader == RIdle
    ensures t.accepted == t.acked == [b] && t.consumed == []
  {
    var p1, p2 := [Offer(b)] + ([WriterMoves] + []), Times(WriterMoves, b.Len() + 1);
    var s1 := s.(blk := b, wraps := 0, writer := WCopy(0));
    FirstPushBegun(s, b);
    t := Run(s1, p2);
    FirstCopy(s1, b);
    ls := p1 + p2;
    RunInParts(s, p1, p2);
  }

  lemma FirstCopy(s: State, b: Block)
    requires s.blk == b == Block(0, 0, BLK_DATA, []) && s.writer == WCopy(0) && s.accepted == s.acked == []
    ensures var t := Run(s, Times(WriterMoves, b.Len() + 1));
      && t == s.(mem := t.mem, head := s.head + 13, writer := WIdle, accepted := [b], acked := [b])
      && |t.mem| == |s.mem|
  {
    assert b.Len() == 13 && b.Storable() && [] + [b] == [b];
    CopyRuns(s, 0, Run(s, Times(WriterMoves, b.Len() + 1)));
  }

  /** And one mq_get is begun. */
  lemma FirstBlockFound(s: State, b: Block) returns (ls: seq<Label>, t: State)
    requires Fresh(s) && Inv(s) && b == Block(0, 0, BLK_DATA, [])
    ensures t == Run(s, ls) && Inv(t) && |t.mem| == 30
    ensures t.head == 25 && t.tail == MEM_HEAD_LEN && t.writer == WIdle && t.reader == RRead([])
    ensures t.accepted == t.acked == [b] && t.consumed == []
  {
    var p, s1 := FirstBlockStored(s, b);
    var q := [Ask] + ([ReaderMoves] + ([ReaderMoves] + ([] + [])));
    t := Run(s1, q);
    ReaderArrives(s1, q);
    ls := p + q;
    RunInParts(s, p, q);
    RunKeeps(s, ls);
  }

  /** And the block is read and popped. */
  lemma FirstBlockTaken(s: State, b: Block) returns (ls: seq<Label>, t: State)
    requires Fresh(s) && Inv(s) && b == Block(0, 0, BLK_DATA, [])
    ensures t == Run(s, ls) && |t.mem| == 30
    ensures t.head == t.tail == 25 && t.writer == WIdle && t.reader == RIdle && t.accepted == t.acked == [b]
  {
    var p, s1 := FirstBlockFound(s, b);
    assert Front(s1)[0] == b;
    var q := Times(ReaderMoves, b.Len() + 2);
    t := Run(s1, q);
    ReadRuns(s1, [], Front(s1), b.Len());
    ls := p + q;
    RunInParts(s, p, q);
  }

  /** It does happen: in a mapping of 30 bytes, one block is stored and read; the second push
      goes back to the start, where its first test of tail still sees the old tail; mq_get
      then moves tail to the start as well. mq_push returns 0 and the block is nowhere. */
  lemma FallThroughHappens() returns (ls: seq<Label>)
    ensures var s := Run(Init(30), ls);
      s.acked != s.accepted && s.writer == WIdle && s.head == s.tail
  {
    var b := Block(0, 0, BLK_DATA, []);
    InitInv(30);
    var p, s1 := FirstBlockTaken(Init(30), b);
    var q := SecondPushIsLost(s1, b);
    ls := p + q;
    RunInParts(Init(30), p, q);
  }

  lemma ReaderArrives(s: State, ls: seq<Label>)
    requires s.reader == RIdle && s.head >= s.tail + BLK_HEAD_LEN
    requires ls == [Ask] + ([ReaderMoves] + ([ReaderMoves] + ([] + [])))
    ensures Run(s, ls) == s.(reader := RRead([]), resets := 0)
  {
    var s1 := Step(s, Ask);
    RunCons(s, Ask, [ReaderMoves] + ([ReaderMoves] + ([] + [])));
    RunCons(s1, ReaderMoves, [ReaderMoves] + ([] + []));
    RunCons(Step(s1, ReaderMoves), ReaderMoves, [] + []);
  }
}
