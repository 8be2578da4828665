/** What the bytes of a shared queue look like between two accesses, and what every single
    access keeps. Both the sequential queue and the interleaved one are proved from here. */
module Ring {
  import opened Layout

  /** The bytes a run of blocks takes up. */
  function Size(bs: seq<Block>): nat {
    if bs == [] then 0 else bs[0].Len() + Size(bs[1..])
  }

  /** The blocks bs lie back to back in m, starting at p. */
  ghost predicate Holds(m: seq<Byte>, p: int, bs: seq<Block>)
    decreases |bs|
  {
    if bs == [] then 0 <= p <= |m|
    else HoldsOne(m, p, bs[0]) && Holds(m, p + bs[0].Len(), bs[1..])
  }

  lemma {:induction false} HoldsBounds(m: seq<Byte>, p: int, bs: seq<Block>)
    requires Holds(m, p, bs)
    ensures 0 <= p && p + Size(bs) <= |m|
    decreases |bs|
  {
    if bs != [] {
      HoldsBounds(m, p + bs[0].Len(), bs[1..]);
    }
  }

  /** Nothing is read at w: a padding marker is there, or no header fits. */
  predicate Skips(m: seq<Byte>, w: int)
    requires 0 <= w
  {
    |m| < w + BLK_HEAD_LEN || KindAt(m, w) == BLK_ALIGN
  }

  /** The pending blocks are front ++ back. While tail <= head they are one run, front. While
      head < tail the run front ends at the wrap offset, where the reader must skip, and back
      starts again behind the queue head. */
  ghost predicate RingInv(m: seq<Byte>, head: int, tail: int, front: seq<Block>, back: seq<Block>) {
    && MEM_HEAD_LEN <= head < |m|
    && MEM_HEAD_LEN <= tail < |m|
    && Holds(m, tail, front)
    && Holds(m, MEM_HEAD_LEN, back)
    && if tail <= head then
         back == [] && tail + Size(front) == head
       else
         && tail + Size(front) < |m| && Skips(m, tail + Size(front))
         && MEM_HEAD_LEN + Size(back) == head
  }

  /** Bytes outside [lo, hi) are the same in both memories. */
  ghost predicate SameOutside(m: seq<Byte>, m': seq<Byte>, lo: int, hi: int) {
    |m| == |m'| && forall i :: 0 <= i < |m| && !(lo <= i < hi) ==> m'[i] == m[i]
  }

  /** Where the writer may write without touching a pending block or the wrap marker. */
  function Limit(head: int, tail: int, len: int): int {
    if tail <= head then len else tail
  }

  lemma {:induction false} HoldsFrame(m: seq<Byte>, m': seq<Byte>, p: int, bs: seq<Block>, lo: int, hi: int)
    requires Holds(m, p, bs) && SameOutside(m, m', lo, hi)
    requires p + Size(bs) <= lo || hi <= p
    ensures Holds(m', p, bs)
    decreases |bs|
  {
    if bs != [] {
      var q := p + bs[0].Len();
      HoldsFrame(m, m', q, bs[1..], lo, hi);
      assert m'[p..q] == m[p..q];
    }
  }

  lemma {:induction false} HoldsAppend(m: seq<Byte>, p: int, bs: seq<Block>, b: Block)
    requires Holds(m, p, bs) && HoldsOne(m, p + Size(bs), b)
    ensures Holds(m, p, bs + [b]) && Size(bs + [b]) == Size(bs) + b.Len()
    decreases |bs|
  {
    var s := bs + [b];
    if bs != [] {
      HoldsAppend(m, p + bs[0].Len(), bs[1..], b);
      assert s[0] == bs[0] && s[1..] == bs[1..] + [b];
    } else {
      assert s[0] == b && s[1..] == [];
    }
  }

  /** The oldest of the blocks at p is what a reader finds there. */
  lemma HoldsFirst(m: seq<Byte>, p: int, bs: seq<Block>)
    requires Holds(m, p, bs) && bs != []
    ensures Readable(m, p) && ReadBlock(m, p) == bs[0]
    ensures LenAt(m, p) == bs[0].Len() && KindAt(m, p) == bs[0].kind != BLK_ALIGN
  {
    ReadBack(m, p, bs[0]);
  }

  ghost predicate SameSlice(m: seq<Byte>, m': seq<Byte>, p: int, n: int) {
    0 <= p <= p + n <= |m| && p + n <= |m'| && m'[p..p + n] == m[p..p + n]
  }

  /** While the oldest block stays the oldest, its bytes stay as they are. */
  lemma OldestIsIntact(m: seq<Byte>, m': seq<Byte>, p: int, f: seq<Block>, f': seq<Block>)
    requires Holds(m, p, f) && Holds(m', p, f') && f != [] && f <= f'
    ensures SameSlice(m, m', p, f[0].Len())
  {
  }

  /** Writing anywhere in the free region changes nothing that is pending. */
  lemma ScribbleKeeps(m: seq<Byte>, m': seq<Byte>, head: int, tail: int, front: seq<Block>, back: seq<Block>)
    requires RingInv(m, head, tail, front, back)
    requires SameOutside(m, m', head, Limit(head, tail, |m|))
    ensures RingInv(m', head, tail, front, back)
  {
    HoldsBounds(m, tail, front);
    HoldsFrame(m, m', tail, front, head, Limit(head, tail, |m|));
    HoldsFrame(m, m', MEM_HEAD_LEN, back, head, Limit(head, tail, |m|));
  }

  /** Moving head over a block that has been written in the free region appends that block. */
  lemma PublishKeeps(m: seq<Byte>, head: int, tail: int, front: seq<Block>, back: seq<Block>, b: Block)
    requires RingInv(m, head, tail, front, back)
    requires HoldsOne(m, head, b) && head + b.Len() < Limit(head, tail, |m|)
    ensures if tail <= head then RingInv(m, head + b.Len(), tail, front + [b], back)
            else RingInv(m, head + b.Len(), tail, front, back + [b])
  {
    if tail <= head {
      HoldsAppend(m, tail, front, b);
    } else {
      HoldsAppend(m, MEM_HEAD_LEN, back, b);
    }
  }

  /** Returning head to the start, once the reader is bound to skip what lies there. */
  lemma WrapKeeps(m: seq<Byte>, head: int, tail: int, front: seq<Block>)
    requires RingInv(m, head, tail, front, [])
    requires MEM_HEAD_LEN < tail <= head && Skips(m, head)
    ensures RingInv(m, MEM_HEAD_LEN, tail, front, [])
  {
  }

  /** The reader follows the writer to the start when its run is used up. */
  lemma ResetKeeps(m: seq<Byte>, head: int, tail: int, back: seq<Block>)
    requires RingInv(m, head, tail, [], back) && head < tail
    ensures RingInv(m, head, MEM_HEAD_LEN, back, [])
  {
  }

  lemma AdvanceKeeps(m: seq<Byte>, head: int, tail: int, front: seq<Block>, back: seq<Block>)
    requires RingInv(m, head, tail, front, back) && front != []
    ensures RingInv(m, head, tail + front[0].Len(), front[1..], back)
    ensures Readable(m, tail) && LenAt(m, tail) == front[0].Len()
  {
    HoldsBounds(m, tail, front);
    HoldsFirst(m, tail, front);
  }

  /** Scribble and publish in one: a block copied to head becomes the newest pending one. */
  lemma StoreKeeps(m: seq<Byte>, m': seq<Byte>, head: int, tail: int, front: seq<Block>, back: seq<Block>, b: Block)
    requires RingInv(m, head, tail, front, back)
    requires b.Storable() && head + b.Len() < Limit(head, tail, |m|)
    requires SameOutside(m, m', head, head + b.Len()) && HoldsOne(m', head, b)
    ensures if tail <= head then RingInv(m', head + b.Len(), tail, front + [b], back)
            else RingInv(m', head + b.Len(), tail, front, back + [b])
  {
    ScribbleKeeps(m, m', head, tail, front, back);
    PublishKeeps(m', head, tail, front, back, b);
  }

  /** The reader's no-room rule and the writer's marker rule are complements: in a wrapped
      queue the reader skips exactly when its run is used up, and in an unwrapped one
      head > tail exactly when a whole block is there. */
  lemma SkipIffUsedUp(m: seq<Byte>, head: int, tail: int, front: seq<Block>, back: seq<Block>)
    requires RingInv(m, head, tail, front, back)
    ensures head < tail ==> (Skips(m, tail) <==> front == [])
    ensures tail <= head ==> (tail < head <==> front != [])
    ensures tail < head ==> tail + BLK_HEAD_LEN <= head
  {
    if front != [] {
      HoldsFirst(m, tail, front);
      HoldsBounds(m, tail, front);
    }
  }

  /** The pending bytes always leave at least one byte of the queue unused. */
  lemma PendingSizeBelowCapacity(m: seq<Byte>, head: int, tail: int, front: seq<Block>, back: seq<Block>)
    requires RingInv(m, head, tail, front, back)
    ensures Size(front + back) < |m| - MEM_HEAD_LEN
  {
    SizeAppend(front, back);
  }

  lemma {:induction false} SizeAppend(a: seq<Block>, b: seq<Block>)
    ensures Size(a + b) == Size(a) + Size(b)
  {
    var s := a + b;
    if a == [] {
      assert s == b;
    } else {
      assert s[0] == a[0] && s[1..] == a[1..] + b;
      SizeAppend(a[1..], b);
    }
  }

  /** For given offsets and bytes there is only one list of pending blocks. */
  lemma PendingIsUnique(m: seq<Byte>, head: int, tail: int, f1: seq<Block>, b1: seq<Block>, f2: seq<Block>, b2: seq<Block>)
    requires RingInv(m, head, tail, f1, b1) && RingInv(m, head, tail, f2, b2)
    ensures f1 == f2 && b1 == b2
  {
    RunIsUnique(m, MEM_HEAD_LEN, b1, b2);
    RunIsUnique(m, tail, f1, f2);
  }

  /** Two runs from the same place are equal when they end at the same place, and also when
      both end where the reader must skip. */
  lemma {:induction false} RunIsUnique(m: seq<Byte>, p: int, f1: seq<Block>, f2: seq<Block>)
    requires Holds(m, p, f1) && Holds(m, p, f2)
    requires Size(f1) == Size(f2) || (Skips(m, p + Size(f1)) && Skips(m, p + Size(f2)))
    ensures f1 == f2
    decreases |f1|
  {
    SameFirst(m, p, f1, f2);
    if f1 != [] {
      var g1, g2, q := f1[1..], f2[1..], p + f1[0].Len();
      assert q + Size(g1) == p + Size(f1) && q + Size(g2) == p + Size(f2);
      RunIsUnique(m, q, g1, g2);
      HeadAndRest(f1, f2);
    }
  }

  lemma SameFirst(m: seq<Byte>, p: int, f1: seq<Block>, f2: seq<Block>)
    requires Holds(m, p, f1) && Holds(m, p, f2)
    requires Size(f1) == Size(f2) || (Skips(m, p + Size(f1)) && Skips(m, p + Size(f2)))
    ensures f1 == [] <==> f2 == []
    ensures f1 != [] ==> f1[0] == f2[0]
  {
    if f1 != [] {
      HoldsFirst(m, p, f1);
    }
    if f2 != [] {
      HoldsFirst(m, p, f2);
    }
  }

  /** A block whose type and length have been overwritten reads as a CLOSE of no data. */
  lemma SpoiledIsClose(m: seq<Byte>, m': seq<Byte>, p: int, b: Block)
    requires HoldsOne(m, p, b) && |m'| == |m|
    requires forall x :: p <= x < p + 8 ==> m'[x] == m[x]
    requires m'[p + 8] == BLK_CLOSE
    requires forall o :: 0 <= o < 4 ==> m'[p + 9 + o] == ByteOf(BLK_HEAD_LEN, o)
    ensures Readable(m', p) && LenAt(m', p) == BLK_HEAD_LEN
    ensures ReadBlock(m', p) == Block(b.id, b.fd, BLK_CLOSE, [])
  {
    ReadBack(m, p, b);
    IntRoundTrip(BLK_HEAD_LEN);
    assert m'[p + 9 + 0] == ByteOf(BLK_HEAD_LEN, 0) && m'[p + 9 + 1] == ByteOf(BLK_HEAD_LEN, 1);
    assert m'[p + 9 + 2] == ByteOf(BLK_HEAD_LEN, 2) && m'[p + 9 + 3] == ByteOf(BLK_HEAD_LEN, 3);
    assert IntAt(m', p) == IntAt(m, p) && IntAt(m', p + 4) == IntAt(m, p + 4);
  }

  /** Bytes as a C int, small enough not to be negative. */
  lemma SmallInt(x: int)
    requires 0 <= x < 0x80_0000
    ensures ByteOf(x, 3) == 0 && x == ByteOf(x, 0) + 256 * ByteOf(x, 1) + 65536 * ByteOf(x, 2)
  {
    var q1 := x / 256;
    var q2 := q1 / 256;
    assert x == 256 * q1 + x % 256 && q1 == 256 * q2 + q1 % 256 && q2 < 256;
  }

  /** An OPEN b at p has been overwritten and popped by its new length, so that the reader stands
      before the address in it; and another block, b2, follows. Whatever b2 is, the reader takes
      what it finds for a DATA block: for the descriptor that the peer's port and the id in b2 make
      up, and with the descriptor in b2, times 256, as its length. */
  lemma MisreadBehindSpoiled(m: seq<Byte>, m': seq<Byte>, p: int, b: Block, b2: Block)
    requires HoldsOne(m, p, b) && |b.data| == 6 && HoldsOne(m, p + b.Len(), b2)
    requires 0 <= b2.id < 0x8000 && 0 <= b2.fd < 0x80_0000
    requires |m'| == |m| && forall x :: p + BLK_HEAD_LEN <= x < |m| ==> m'[x] == m[x]
    ensures var q := p + BLK_HEAD_LEN;
      && q + BLK_HEAD_LEN <= |m'| && KindAt(m', q) == BLK_DATA
      && LenAt(m', q) == 256 * b2.fd
      && IntAt(m', q + 4) == b.data[4] + 256 * b.data[5] + 65536 * b2.id
  {
    var q, p2 := p + BLK_HEAD_LEN, p + b.Len();
    assert p2 == q + 6;
    LaidOut(m, p, b);
    LaidOut(m, p2, b2);
    SmallInt(b2.id);
    SmallInt(b2.fd);
    assert m'[q + 4] == m[p + (13 + 4)] == b.data[4] && m'[q + 5] == m[p + (13 + 5)] == b.data[5];
    assert m'[q + 6] == m[p2 + 0] == ByteOf(b2.id, 0) && m'[q + 7] == m[p2 + 1] == ByteOf(b2.id, 1);
    assert m'[q + 8] == m[p2 + 2] == ByteOf(b2.id, 2);
    assert m'[q + 9] == m[p2 + 3] == ByteOf(b2.id, 3) && m'[q + 10] == m[p2 + 4] == ByteOf(b2.fd, 0);
    assert m'[q + 11] == m[p2 + 5] == ByteOf(b2.fd, 1) && m'[q + 12] == m[p2 + 6] == ByteOf(b2.fd, 2);
    assert ByteOf(b2.id, 2) == 0;
  }

  lemma LaidOut(m: seq<Byte>, p: int, b: Block)
    requires HoldsOne(m, p, b)
    ensures forall i :: 0 <= i < b.Len() ==> m[p + i] == ByteAt(b, i)
  {
    var e := Encode(b);
    assert forall i :: 0 <= i < b.Len() ==> m[p + i] == m[p..p + b.Len()][i] == e[i];
  }

  /** A reader that stands fewer bytes than a header before head does not stand at a block: no
      list of pending blocks fits. */
  lemma NothingFitsThere(m: seq<Byte>, head: int, tail: int, front: seq<Block>, back: seq<Block>)
    requires tail < head < tail + BLK_HEAD_LEN
    ensures !RingInv(m, head, tail, front, back)
  {
    if RingInv(m, head, tail, front, back) {
      SkipIffUsedUp(m, head, tail, front, back);
    }
  }

  // ------------------------------------------------------------------ the writer's decision

  /** Whether mq_push stores a block of n bytes, and where it leaves head. */
  function PushOutcome(head: int, tail: int, len: int, n: int): (bool, int) {
    if head < tail then
      (head + n < tail, if head + n < tail then head + n else head)
    else if head + n < len then
      (true, head + n)
    else if tail == MEM_HEAD_LEN then
      (false, head)
    else
      (MEM_HEAD_LEN + n < tail, if MEM_HEAD_LEN + n < tail then MEM_HEAD_LEN + n else MEM_HEAD_LEN)
  }
}
