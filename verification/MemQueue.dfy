/** The shared-memory queue used by one process at a time (mem_queue.c:37-161). */
module MemQueue {
  import opened Layout
  import opened Ring

  /** What mq_get returns: NULL, or the address of a block as an offset into the mapping. */
  datatype Ptr = Null | At(offset: int)

  /** What a queue comes to: its two offsets, and the pending blocks before and behind the wrap. */
  datatype Fifo = Fifo(head: int, tail: int, front: seq<Block>, back: seq<Block>) {
    function Pending(): seq<Block> {
      front + back
    }

    /** mq_get: the reader goes back to the start when its run is used up. */
    function AfterGet(): Fifo {
      if Passes() == 2 then Fifo(head, MEM_HEAD_LEN, back, []) else this
    }

    function Passes(): nat {
      if head < tail && front == [] then 2 else 1
    }

    /** mq_push into a mapping of len bytes: where the block goes, if anywhere. */
    function AfterPush(len: int, b: Block): Fifo {
      var (ok, head') := PushOutcome(head, tail, len, b.Len());
      var stored := if ok then [b] else [];
      if tail <= head && PushPasses(len, b) == 1 then Fifo(head', tail, front + stored, back)
      else Fifo(head', tail, front, back + stored)
    }

    function PushPasses(len: int, b: Block): nat {
      if tail <= head && len <= head + b.Len() && tail != MEM_HEAD_LEN then 2 else 1
    }

    function AfterPop(): Fifo
      requires front != []
    {
      Fifo(head, tail + front[0].Len(), front[1..], back)
    }
  }

  class Queue {
    const mem: array<Byte>
    var head: int
    var tail: int
    var blkCnt: int

    ghost var front: seq<Block>
    ghost var back: seq<Block>

    ghost predicate Valid()
      reads this, mem
    {
      && mem.Length + BLK_HEAD_LEN <= INT_MAX
      && RingInv(mem[..], head, tail, front, back)
      && blkCnt == |front + back|
    }

    /** Enough for mq_push to stay inside the mapping. */
    ghost predicate Sane()
      reads this, mem
    {
      && mem.Length + BLK_HEAD_LEN <= INT_MAX
      && MEM_HEAD_LEN <= head < mem.Length && MEM_HEAD_LEN <= tail <= mem.Length
    }

    ghost function View(): Fifo
      reads this
    {
      Fifo(head, tail, front, back)
    }

    ghost function Contents(): seq<Block>
      reads this
    {
      front + back
    }

    /** The tail is at a block, as it is after a successful Get. */
    ghost predicate AtBlock()
      reads this
    {
      front != []
    }

    constructor (size: int)
      requires MEM_HEAD_LEN < size <= INT_MAX - BLK_HEAD_LEN
      ensures Valid() && fresh(mem) && mem.Length == size
      ensures Contents() == [] && View() == Fifo(MEM_HEAD_LEN, MEM_HEAD_LEN, [], [])
    {
      mem := new Byte[size](_ => 0);
      head, tail := MEM_HEAD_LEN, MEM_HEAD_LEN;
      blkCnt := 0;
      front, back := [], [];
    }

    /** mq_get: the oldest block, skipping padding. */
    method Get() returns (r: Ptr, ghost passes: nat)
      requires Valid()
      modifies this`tail, this`front, this`back
      ensures Valid() && Contents() == old(Contents())
      ensures View() == old(View()).AfterGet() && passes == old(View()).Passes() <= 2
      ensures r == Null <==> Contents() == []
      ensures r == Null ==> head == tail
      ensures r != Null ==>
                && r == At(tail) && AtBlock()
                && Readable(mem[..], tail) && ReadBlock(mem[..], tail) == Contents()[0]
    {
      r := Null;
      var again := true;
      passes := 0;
      while again
        invariant Valid() && Contents() == old(Contents()) && mem[..] == old(mem[..])
        invariant passes == 0 ==> View() == old(View())
        invariant passes >= 1 ==> View() == old(View()).AfterGet()
        invariant again && passes == 1 ==> old(View()).Passes() == 2
        invariant !again ==> passes == old(View()).Passes()
        invariant passes == 0 ==> again
        invariant again ==> r == Null && passes <= 1
        invariant again && passes == 1 ==> tail <= head
        invariant !again ==> (r == Null <==> Contents() == []) && (r == Null ==> head == tail)
        invariant r != Null ==> r == At(tail) && front != []
        invariant passes <= 2
        decreases 2 - passes
      {
        again := false;
        passes := passes + 1;
        SkipIffUsedUp(mem[..], head, tail, front, back);
        if head > tail {
          if head >= tail + BLK_HEAD_LEN {
            r := At(tail);
          }
        } else if head < tail {
          if mem.Length < tail + BLK_HEAD_LEN {
            tail := MEM_HEAD_LEN;
            front, back := back, [];
            again := true;
          } else if mem[tail + 8] == BLK_ALIGN {
            tail := MEM_HEAD_LEN;
            front, back := back, [];
            again := true;
          } else {
            r := At(tail);
          }
        }
      }
      if r != Null {
        HoldsFirst(mem[..], tail, front);
      }
    }

    /** A memcpy into the mapping. */
    method WriteBytes(at: int, s: seq<Byte>)
      requires MEM_HEAD_LEN <= at && at + |s| <= mem.Length
      modifies mem
      ensures mem[at..at + |s|] == s
      ensures SameOutside(old(mem[..]), mem[..], at, at + |s|)
    {
      for i := 0 to |s|
        invariant mem[at..at + i] == s[..i]
        invariant SameOutside(old(mem[..]), mem[..], at, at + i)
      {
        mem[at + i] := s[i];
        assert mem[at..at + (i + 1)] == mem[at..at + i] + [s[i]];
      }
    }

    /** The header and the payload, one memcpy each. */
    method CopyBlock(b: Block)
      requires b.Storable() && MEM_HEAD_LEN <= head && head + b.Len() <= mem.Length
      modifies mem
      ensures HoldsOne(mem[..], head, b)
      ensures SameOutside(old(mem[..]), mem[..], head, head + b.Len())
    {
      var e := Encode(b);
      WriteBytes(head, e[..BLK_HEAD_LEN]);
      label L:
      WriteBytes(head + BLK_HEAD_LEN, e[BLK_HEAD_LEN..]);
      assert mem[head..head + BLK_HEAD_LEN] == old@L(mem[head..head + BLK_HEAD_LEN]);
      assert mem[head..head + b.Len()]
          == mem[head..head + BLK_HEAD_LEN] + mem[head + BLK_HEAD_LEN..head + b.Len()];
    }

    /** Copy a block to head and move head over it (mem_queue.c:116-120, 127-131). */
    method Store(b: Block)
      requires Sane() && b.Storable()
      requires head + b.Len() < Limit(head, tail, mem.Length)
      modifies mem, this`head, this`blkCnt, this`front, this`back
      ensures Sane() && (old(Valid()) ==> Valid() && Contents() == old(Contents()) + [b])
      ensures head == old(head) + b.Len()
      ensures front == if tail <= old(head) then old(front) + [b] else old(front)
      ensures back == if tail <= old(head) then old(back) else old(back) + [b]
      ensures mem[..MEM_HEAD_LEN] == old(mem[..MEM_HEAD_LEN])
    {
      ghost var m0, valid := mem[..], Valid();
      CopyBlock(b);
      assert mem[..MEM_HEAD_LEN] == m0[..MEM_HEAD_LEN];
      if valid {
        StoreKeeps(m0, mem[..], head, tail, front, back, b);
        AppendEnds(front, back, b);
      }
      if tail <= head {
        front := front + [b];
      } else {
        back := back + [b];
      }
      head := head + b.Len();
      blkCnt := blkCnt + 1;
    }

    /** The padding marker, where a header still fits (mem_queue.c:104-108). */
    method Mark()
      requires Sane() && tail <= head
      modifies mem
      ensures Sane() && (old(Valid()) ==> Valid() && Skips(mem[..], head))
      ensures head + BLK_HEAD_LEN <= mem.Length ==> mem[head + 8] == BLK_ALIGN && LenAt(mem[..], head) == mem.Length - head
      ensures mem[..MEM_HEAD_LEN] == old(mem[..MEM_HEAD_LEN])
    {
      if head + BLK_HEAD_LEN <= mem.Length {
        ghost var m0, valid := mem[..], Valid();
        mem[head + 8] := BLK_ALIGN;
        var pad := mem.Length - head;
        WriteBytes(head + 9, seq(4, i => ByteOf(pad, i)));
        MarkIsRead(mem[..], head, pad);
        if valid {
          ScribbleKeeps(m0, mem[..], head, tail, front, back);
        }
        assert mem[..MEM_HEAD_LEN] == m0[..MEM_HEAD_LEN];
      }
    }

    /** One pass from push_again on: stored (r == 0), refused (r == -1), or head has gone back
        to the start and another pass is due. */
    method PushPass(b: Block) returns (r: int, again: bool)
      requires Sane() && b.Storable()
      modifies mem, this`head, this`blkCnt, this`front, this`back
      ensures Sane() && (old(Valid()) ==> Valid())
      ensures again <==> old(tail <= head && mem.Length <= head + b.Len() && tail != MEM_HEAD_LEN)
      ensures again ==> head == MEM_HEAD_LEN < tail
      ensures !again ==> r == if old(head + b.Len() < Limit(head, tail, mem.Length)) then 0 else -1
      ensures !again ==> head == if r == 0 then old(head) + b.Len() else old(head)
      ensures !again && r == 0 && old(Valid()) ==> Contents() == old(Contents()) + [b]
      ensures !again && r == 0 ==> front == if old(tail <= head) then old(front) + [b] else old(front)
      ensures !again && r == 0 ==> back == if old(tail <= head) then old(back) else old(back) + [b]
      ensures again || r != 0 ==> front == old(front) && back == old(back)
      ensures mem[..MEM_HEAD_LEN] == old(mem[..MEM_HEAD_LEN])
    {
      r, again := 0, false;
      ghost var valid := Valid();
      if head >= tail {
        if head + b.Len() >= mem.Length {
          Mark();
          if MEM_HEAD_LEN == tail {
            r := -1;
          } else {
            if valid {
              WrapKeeps(mem[..], head, tail, front);
            }
            head := MEM_HEAD_LEN;
            again := true;
          }
        } else {
          Store(b);
        }
      } else {
        if head + b.Len() >= tail {
          r := -1;
        } else {
          Store(b);
        }
      }
    }

    /** mq_push: 0 and the block is appended, or -1 and nothing that is pending has changed,
        even when a marker has been written and head has gone back to the start. */
    method Push(b: Block) returns (r: int, ghost passes: nat)
      requires Sane() && b.Storable()
      requires head + b.Len() <= INT_MAX && MEM_HEAD_LEN + b.Len() <= INT_MAX
      modifies mem, this`head, this`blkCnt, this`front, this`back
      ensures Sane() && (r == 0 || r == -1)
      ensures r == 0 <==> PushOutcome(old(head), old(tail), mem.Length, b.Len()).0
      ensures View() == old(View()).AfterPush(mem.Length, b)
      ensures passes == old(View()).PushPasses(mem.Length, b) <= 2
      ensures mem.Length <= MEM_HEAD_LEN + b.Len() ==> r == -1
      ensures old(Valid()) ==> Valid() && Contents() == if r == 0 then old(Contents()) + [b] else old(Contents())
      ensures old(Valid()) && old(AtBlock()) ==> SameSlice(old(mem[..]), mem[..], tail, old(front[0].Len()))
      ensures old(front) <= front
      ensures mem[..MEM_HEAD_LEN] == old(mem[..MEM_HEAD_LEN])
    {
      ghost var valid := Valid();
      var again: bool;
      r, again := PushPass(b);
      passes := 1;
      while again
        invariant passes <= 2 && (again ==> passes == 1)
        invariant passes == (if again then 1 else old(View()).PushPasses(mem.Length, b))
        invariant Sane() && (valid ==> Valid())
        invariant again ==> front == old(front) && back == old(back)
        invariant again ==> old(head) >= tail > MEM_HEAD_LEN == head && old(head) + b.Len() >= mem.Length
        invariant !again ==> r == 0 || r == -1
        invariant !again ==> (r == 0, head) == PushOutcome(old(head), tail, mem.Length, b.Len())
        invariant !again ==> View() == old(View()).AfterPush(mem.Length, b)
        invariant !again && valid ==> Contents() == if r == 0 then old(Contents()) + [b] else old(Contents())
        invariant old(front) <= front
        invariant mem[..MEM_HEAD_LEN] == old(mem[..MEM_HEAD_LEN])
        decreases 2 - passes
      {
        r, again := PushPass(b);
        passes := passes + 1;
      }
      if valid && old(front) != [] {
        OldestIsIntact(old(mem[..]), mem[..], tail, old(front), front);
      }
    }

    /** mq_pop: drops exactly the block that mq_get returned. */
    method Pop()
      requires Valid() && AtBlock()
      modifies this`tail, this`blkCnt, this`front
      ensures Valid() && Contents() == old(Contents())[1..]
      ensures View() == old(View()).AfterPop()
    {
      RestOfConcat(front, back);
      AdvanceKeeps(mem[..], head, tail, front, back);
      tail := tail + LenAt(mem[..], tail);
      blkCnt := blkCnt - 1;
      front := front[1..];
    }

    /** What work.c:263-264 does to the block at the tail: it becomes a CLOSE of no data, while
        its payload stays where it is. */
    method SpoilFront()
      requires Valid() && AtBlock()
      modifies mem
      ensures Readable(mem[..], tail) && LenAt(mem[..], tail) == BLK_HEAD_LEN
      ensures ReadBlock(mem[..], tail) == Block(front[0].id, front[0].fd, BLK_CLOSE, [])
      ensures SameOutside(old(mem[..]), mem[..], tail, tail + BLK_HEAD_LEN)
    {
      ghost var m0 := mem[..];
      assert HoldsOne(m0, tail, front[0]);
      mem[tail + 8] := BLK_CLOSE;
      label L:
      var len4 := seq(4, i => ByteOf(BLK_HEAD_LEN, i));
      WriteBytes(tail + 9, len4);
      assert mem[tail + 8] == old@L(mem[tail + 8]);
      forall o | 0 <= o < 4 ensures mem[tail + 9 + o] == ByteOf(BLK_HEAD_LEN, o) {
        assert mem[tail + 9 + o] == mem[tail + 9..tail + 9 + |len4|][o] == len4[o];
      }
      SpoiledIsClose(m0, mem[..], tail, front[0]);
    }

    /** mq_pop, wherever the tail stands. */
    method PopRaw()
      requires Readable(mem[..], tail)
      modifies this`tail, this`blkCnt
      ensures tail == old(tail) + LenAt(mem[..], old(tail))
    {
      tail := tail + LenAt(mem[..], tail);
      blkCnt := blkCnt - 1;
    }
  }

  lemma MarkIsRead(m: seq<Byte>, p: int, pad: int)
    requires IsInt32(pad) && 0 <= p && p + BLK_HEAD_LEN <= |m| && m[p + 9..p + 13] == seq(4, i => ByteOf(pad, i))
    ensures LenAt(m, p) == pad
  {
    var s := m[p + 9..p + 13];
    assert m[p + 9] == s[0] && m[p + 10] == s[1] && m[p + 11] == s[2] && m[p + 12] == s[3];
    IntRoundTrip(pad);
  }

  /** From every state in which nothing is pending, a block gets in exactly when it fits behind
      the queue head: at once, or after one failed push and one mq_get. */
  method PushWhenEmpty(q: Queue, b: Block) returns (r: int)
    requires q.Valid() && q.Contents() == [] && b.Storable()
    requires q.mem.Length + b.Len() <= INT_MAX
    modifies q, q.mem
    ensures q.Valid()
    ensures r == 0 <==> MEM_HEAD_LEN + b.Len() < q.mem.Length
    ensures q.Contents() == if r == 0 then [b] else []
  {
    ghost var passes;
    r, passes := q.Push(b);
    if r == -1 {
      var p;
      p, passes := q.Get();
      assert p == Null;
      r, passes := q.Push(b);
    }
  }

  // ------------------------------------------------------------ any sequence of calls

  /** The uses the callers make of a queue: push, look at the oldest block, or look at it and
      then drop it. */
  datatype Op = OpPush(b: Block) | OpGet | OpTake
  datatype Out = Pushed(ok: bool) | Got(blk: Block) | Nothing

  /** What a queue in a mapping of len bytes answers. */
  function Answer(len: int, f: Fifo, op: Op): Out {
    match op
    case OpPush(b) => Pushed(PushOutcome(f.head, f.tail, len, b.Len()).0)
    case _ => if f.Pending() == [] then Nothing else Got(f.Pending()[0])
  }

  function After(len: int, f: Fifo, op: Op): Fifo {
    match op
    case OpPush(b) => f.AfterPush(len, b)
    case OpGet => f.AfterGet()
    case OpTake => if f.AfterGet().front == [] then f.AfterGet() else f.AfterGet().AfterPop()
  }

  function AfterAll(len: int, f: Fifo, ops: seq<Op>): Fifo {
    if ops == [] then f else After(len, AfterAll(len, f, ops[..|ops| - 1]), ops[|ops| - 1])
  }

  function Answers(len: int, f: Fifo, ops: seq<Op>): seq<Out> {
    if ops == [] then []
    else
      Answers(len, f, ops[..|ops| - 1]) + [Answer(len, AfterAll(len, f, ops[..|ops| - 1]), ops[|ops| - 1])]
  }

  /** An unbounded FIFO that holds q when it is given op and may refuse it if it is a push. */
  function FifoAfter(q: seq<Block>, op: Op, out: Out): seq<Block> {
    match op
    case OpPush(b) => if out == Pushed(true) then q + [b] else q
    case OpGet => q
    case OpTake => if q == [] then [] else q[1..]
  }

  predicate FifoAnswers(q: seq<Block>, op: Op, out: Out) {
    match op
    case OpPush(b) => out.Pushed?
    case _ => out == if q == [] then Nothing else Got(q[0])
  }

  function FifoState(ops: seq<Op>, outs: seq<Out>): seq<Block>
    requires |outs| == |ops|
  {
    if ops == [] then []
    else
      var n := |ops| - 1;
      FifoAfter(FifoState(ops[..n], outs[..n]), ops[n], outs[n])
  }

  /** An unbounded FIFO, empty at first, answers ops with outs. */
  predicate FifoTrace(ops: seq<Op>, outs: seq<Out>)
    requires |outs| == |ops|
  {
    ops == [] ||
    var n := |ops| - 1;
    FifoTrace(ops[..n], outs[..n]) && FifoAnswers(FifoState(ops[..n], outs[..n]), ops[n], outs[n])
  }

  /** Only a wrapped queue has blocks behind the wrap. */
  predicate Shaped(f: Fifo) {
    f.tail <= f.head ==> f.back == []
  }

  lemma StepIsFifo(len: int, f: Fifo, op: Op)
    requires Shaped(f)
    requires MEM_HEAD_LEN <= f.head < len && MEM_HEAD_LEN <= f.tail
    ensures FifoAnswers(f.Pending(), op, Answer(len, f, op))
    ensures After(len, f, op).Pending() == FifoAfter(f.Pending(), op, Answer(len, f, op))
  {
    if op.OpPush? {
      AppendEnds(f.front, f.back, op.b);
      assert f.front + [] == f.front && f.back + [] == f.back;
    } else {
      assert f.back + [] == f.back && [] + f.back == f.back;
      if f.front != [] {
        RestOfConcat(f.front, f.back);
      }
    }
  }

  /** One call, or Get and Pop as in the loops that drain a queue (work.c:256-273): the queue
      answers what its offsets and pending blocks say, and that is a FIFO's answer. */
  method Perform(q: Queue, op: Op) returns (out: Out)
    requires q.Valid()
    requires op.OpPush? ==> op.b.Storable() && q.mem.Length + op.b.Len() <= INT_MAX
    modifies q, q.mem
    ensures q.Valid()
    ensures out == Answer(q.mem.Length, old(q.View()), op)
    ensures q.View() == After(q.mem.Length, old(q.View()), op)
    ensures FifoAnswers(old(q.Contents()), op, out)
    ensures q.Contents() == FifoAfter(old(q.Contents()), op, out)
  {
    ghost var passes;
    StepIsFifo(q.mem.Length, q.View(), op);
    match op {
      case OpPush(b) =>
        var r;
        r, passes := q.Push(b);
        out := Pushed(r == 0);
      case OpGet =>
        var p;
        p, passes := q.Get();
        out := if p == Null then Nothing else Got(ReadBlock(q.mem[..], p.offset));
      case OpTake =>
        var p;
        p, passes := q.Get();
        out := if p == Null then Nothing else Got(ReadBlock(q.mem[..], p.offset));
        if p != Null {
          q.Pop();
        }
    }
  }

  /** The calls ops on a new queue gave outs and left it as f: the answers, refusals included,
      and the state that Answers and AfterAll give, and those of an unbounded FIFO. */
  ghost predicate Played(len: int, ops: seq<Op>, outs: seq<Out>, f: Fifo) {
    var start := Fifo(MEM_HEAD_LEN, MEM_HEAD_LEN, [], []);
    && outs == Answers(len, start, ops) && f == AfterAll(len, start, ops)
    && |outs| == |ops| && FifoTrace(ops, outs) && f.Pending() == FifoState(ops, outs)
  }

  lemma OneMoreOp(len: int, ops: seq<Op>, outs: seq<Out>, f: Fifo, op: Op)
    requires Played(len, ops, outs, f)
    requires FifoAnswers(f.Pending(), op, Answer(len, f, op))
    requires After(len, f, op).Pending() == FifoAfter(f.Pending(), op, Answer(len, f, op))
    ensures Played(len, ops + [op], outs + [Answer(len, f, op)], After(len, f, op))
  {
    var out := Answer(len, f, op);
    assert (ops + [op])[..|ops|] == ops && (outs + [out])[..|ops|] == outs;
  }

  /** Every finite sequence of calls on a new queue, and blk_cnt counts the pending blocks. */
  method Replay(size: int, ops: seq<Op>) returns (q: Queue, outs: seq<Out>)
    requires MEM_HEAD_LEN < size <= INT_MAX - BLK_HEAD_LEN
    requires forall i :: 0 <= i < |ops| && ops[i].OpPush? ==>
               ops[i].b.Storable() && size + ops[i].b.Len() <= INT_MAX
    ensures q.Valid() && Played(size, ops, outs, q.View())
    ensures q.blkCnt == |q.Contents()|
  {
    q := new Queue(size);
    outs := [];
    for i := 0 to |ops|
      invariant fresh(q) && fresh(q.mem) && q.Valid() && q.mem.Length == size
      invariant Played(size, ops[..i], outs, q.View())
    {
      ghost var f := q.View();
      assert ops[..i + 1] == ops[..i] + [ops[i]];
      var out := Perform(q, ops[i]);
      OneMoreOp(size, ops[..i], outs, f, ops[i]);
      outs := outs + [out];
    }
    assert ops[..|ops|] == ops;
  }

  // ------------------------------------------------------------------ when a push is refused

  /** The pending blocks fill the run up to head, or up to the wrap and from the start to head;
      and what is lost behind the wrap is less than a block of `longest` bytes. */
  predicate Filled(len: int, f: Fifo, longest: int) {
    && MEM_HEAD_LEN <= f.head < len && MEM_HEAD_LEN <= f.tail < len
    && if f.tail <= f.head then f.back == [] && f.tail + Size(f.front) == f.head
       else
         && MEM_HEAD_LEN + Size(f.back) == f.head
         && f.tail + Size(f.front) < len <= f.tail + Size(f.front) + longest
  }

  lemma SizeOne(b: Block)
    ensures Size([b]) == b.Len() && Size([]) == 0
  {
    assert [b][1..] == [];
  }

  lemma PushFills(len: int, f: Fifo, longest: int, b: Block)
    requires Filled(len, f, longest) && b.Len() <= longest
    ensures Filled(len, f.AfterPush(len, b), longest)
  {
    SizeOne(b);
    SizeAppend(f.front, [b]);
    SizeAppend(f.back, [b]);
    assert f.front + [] == f.front && f.back + [] == f.back && [] + [b] == [b];
  }

  lemma TakeFills(len: int, f: Fifo, longest: int)
    requires Filled(len, f, longest)
    ensures Filled(len, f.AfterGet(), longest)
    ensures f.front != [] ==> Filled(len, f.AfterPop(), longest)
  {
    SizeOne(Block(0, 0, BLK_DATA, []));
  }

  lemma {:induction false} AlwaysFilled(len: int, ops: seq<Op>, longest: int)
    requires MEM_HEAD_LEN < len
    requires forall j :: 0 <= j < |ops| && ops[j].OpPush? ==> ops[j].b.Len() <= longest
    ensures Filled(len, AfterAll(len, Fifo(MEM_HEAD_LEN, MEM_HEAD_LEN, [], []), ops), longest)
    decreases |ops|
  {
    var start := Fifo(MEM_HEAD_LEN, MEM_HEAD_LEN, [], []);
    if ops == [] {
      SizeOne(Block(0, 0, BLK_DATA, []));
    } else {
      var p, op := ops[..|ops| - 1], ops[|ops| - 1];
      assert forall j :: 0 <= j < |p| ==> p[j] == ops[j];
      AlwaysFilled(len, p, longest);
      var f := AfterAll(len, start, p);
      if op.OpPush? {
        PushFills(len, f, longest, op.b);
      } else {
        TakeFills(len, f, longest);
        TakeFills(len, f.AfterGet(), longest);
      }
    }
  }

  /** After any calls whose blocks had at most `longest` bytes: a push gets in only if the
      pending bytes and its own are below the capacity, and is refused only if they and one
      longest block more are not. */
  lemma RefusedOnlyIfFull(len: int, ops: seq<Op>, longest: int, b: Block)
    requires MEM_HEAD_LEN < len && b.Len() <= longest
    requires forall j :: 0 <= j < |ops| && ops[j].OpPush? ==> ops[j].b.Len() <= longest
    ensures var f := AfterAll(len, Fifo(MEM_HEAD_LEN, MEM_HEAD_LEN, [], []), ops);
      var taken := Size(f.Pending()) + b.Len();
      && (Answer(len, f, OpPush(b)) == Pushed(true) ==> taken < len - MEM_HEAD_LEN)
      && (Answer(len, f, OpPush(b)) == Pushed(false) ==> len - MEM_HEAD_LEN <= taken + longest)
  {
    AlwaysFilled(len, ops, longest);
    var f := AfterAll(len, Fifo(MEM_HEAD_LEN, MEM_HEAD_LEN, [], []), ops);
    SizeAppend(f.front, f.back);
    SizeOne(b);
  }
}
