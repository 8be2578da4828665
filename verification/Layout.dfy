/** The bytes of a shared queue: packed block headers and the blocks that follow them
    (mem_queue.h:24-47). */
module Layout {
  type Byte = b: int | 0 <= b < 256

  const INT_MAX := 0x7fff_ffff
  const BLK_HEAD_LEN := 13
  const MEM_HEAD_LEN := 12

  const BLK_DATA: Byte := 0
  const BLK_ALIGN: Byte := 1
  const BLK_CLOSE: Byte := 2
  const BLK_OPEN: Byte := 3

  predicate IsInt32(x: int) {
    -0x8000_0000 <= x <= INT_MAX
  }

  /** Byte i of a C `int`, least significant first. */
  function ByteOf(x: int, i: int): Byte {
    var u := if x < 0 then x + 0x1_0000_0000 else x;
    if i == 0 then u % 256
    else if i == 1 then u / 256 % 256
    else if i == 2 then u / 256 / 256 % 256
    else u / 256 / 256 / 256 % 256
  }

  /** The C `int` that four bytes stand for. */
  function FromBytes(b0: Byte, b1: Byte, b2: Byte, b3: Byte): (x: int)
    ensures IsInt32(x)
  {
    var u := b0 as int + 256 * b1 as int + 65536 * b2 as int + 16777216 * b3 as int;
    if u > INT_MAX then u - 0x1_0000_0000 else u
  }

  lemma IntRoundTrip(x: int)
    requires IsInt32(x)
    ensures FromBytes(ByteOf(x, 0), ByteOf(x, 1), ByteOf(x, 2), ByteOf(x, 3)) == x
  {
    var u := if x < 0 then x + 0x1_0000_0000 else x;
    var q1 := u / 256;
    var q2 := q1 / 256;
    assert u == 256 * q1 + u % 256 && q1 == 256 * q2 + q1 % 256 && q2 == 256 * (q2 / 256) + q2 % 256;
    assert q2 / 256 < 256;
    assert u == u % 256 + 256 * (q1 % 256) + 65536 * (q2 % 256) + 16777216 * (q2 / 256);
  }

  /** One block: the header fields and the payload. The header's length field is Len(). */
  datatype Block = Block(id: int, fd: int, kind: int, data: seq<Byte>) {
    function Len(): int {
      BLK_HEAD_LEN + |data|
    }

    /** What the callers of mq_push provide: fields that fit the header, and never the
        padding type. */
    predicate Storable() {
      && IsInt32(id) && IsInt32(fd)
      && 0 <= kind < 256 && kind != BLK_ALIGN
      && Len() <= INT_MAX
    }
  }

  /** Byte i of a block as it is laid out: id, fd, type, len, payload. */
  function ByteAt(b: Block, i: int): Byte
    requires b.Storable() && 0 <= i < b.Len()
  {
    if i < 4 then ByteOf(b.id, i)
    else if i < 8 then ByteOf(b.fd, i - 4)
    else if i == 8 then b.kind
    else if i < 13 then ByteOf(b.Len(), i - 9)
    else b.data[i - 13]
  }

  function Encode(b: Block): (s: seq<Byte>)
    requires b.Storable()
    ensures |s| == b.Len()
  {
    seq(b.Len(), i requires 0 <= i < b.Len() => ByteAt(b, i))
  }

  function IntAt(m: seq<Byte>, p: int): int
    requires 0 <= p && p + 4 <= |m|
  {
    FromBytes(m[p], m[p + 1], m[p + 2], m[p + 3])
  }

  function KindAt(m: seq<Byte>, p: int): Byte
    requires 0 <= p && p + BLK_HEAD_LEN <= |m|
  {
    m[p + 8]
  }

  function LenAt(m: seq<Byte>, p: int): int
    requires 0 <= p && p + BLK_HEAD_LEN <= |m|
  {
    IntAt(m, p + 9)
  }

  /** A whole block can be read at p: its header, and as many bytes as the header says. */
  predicate Readable(m: seq<Byte>, p: int) {
    0 <= p && p + BLK_HEAD_LEN <= |m| && BLK_HEAD_LEN <= LenAt(m, p) <= |m| - p
  }

  function ReadBlock(m: seq<Byte>, p: int): Block
    requires Readable(m, p)
  {
    Block(IntAt(m, p), IntAt(m, p + 4), KindAt(m, p), m[p + BLK_HEAD_LEN..p + LenAt(m, p)])
  }

  /** One block lies in m at p. */
  ghost predicate HoldsOne(m: seq<Byte>, p: int, b: Block) {
    b.Storable() && 0 <= p && p + b.Len() <= |m| && m[p..p + b.Len()] == Encode(b)
  }

  /** Reading a block back gives what was written there, field by field. */
  lemma ReadBack(m: seq<Byte>, p: int, b: Block)
    requires HoldsOne(m, p, b)
    ensures Readable(m, p) && LenAt(m, p) == b.Len() && KindAt(m, p) == b.kind
    ensures ReadBlock(m, p) == b
  {
    var e := Encode(b);
    assert forall i :: 0 <= i < b.Len() ==> m[p + i] == m[p..p + b.Len()][i] == e[i];
    HeaderInt(m, p, b, 0, b.id);
    HeaderInt(m, p, b, 4, b.fd);
    HeaderInt(m, p, b, 9, b.Len());
    assert m[p + 8] == e[8];
    assert m[p + 13..p + b.Len()] == b.data;
  }

  lemma HeaderInt(m: seq<Byte>, p: int, b: Block, o: int, x: int)
    requires HoldsOne(m, p, b) && IsInt32(x) && 0 <= o && o + 4 <= b.Len()
    requires forall i :: 0 <= i < 4 ==> ByteAt(b, o + i) == ByteOf(x, i)
    ensures IntAt(m, p + o) == x
  {
    var e := Encode(b);
    forall i | 0 <= i < 4 ensures m[p + o + i] == ByteOf(x, i) {
      assert m[p + (o + i)] == e[o + i] == ByteAt(b, o + i);
    }
    IntRoundTrip(x);
    assert m[p + o] == ByteOf(x, 0) by { assert p + o + 0 == p + o; }
  }

  lemma RestOfConcat<T>(a: seq<T>, b: seq<T>)
    requires a != []
    ensures (a + b)[1..] == a[1..] + b && (a + b)[0] == a[0]
  {
    assert (a + b)[1..] == a[1..] + b;
  }

  lemma AppendEnds<T>(a: seq<T>, b: seq<T>, x: T)
    ensures a + (b + [x]) == (a + b) + [x]
    ensures b == [] ==> (a + [x]) + b == (a + b) + [x]
  {
  }

  lemma HeadAndRest<T>(a: seq<T>, b: seq<T>)
    requires a != [] && b != [] && a[0] == b[0] && a[1..] == b[1..]
    ensures a == b
  {
    assert a == [a[0]] + a[1..];
    assert b == [b[0]] + b[1..];
  }
}
