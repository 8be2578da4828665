/** The code of the protocol on the queues in shared memory: the functions of the master and of
    the workers, with their tables and with blocks read from and written to bytes. Each call is
    a step of Session, in which a push fails exactly when the offsets of its queue leave no
    room. */
module Server {
  import opened Layout
  import opened Ring
  import opened MemQueue
  import opened Framing
  import opened Told
  import opened Session
  import opened SessionSteps

  /** What the master keeps in epinfo.fds[fd], and a worker in its table fds. */
  datatype FdInfo = FdInfo(listen: bool, idx: int, addr: seq<Byte>)
  datatype Sess = Sess(id: int, addr: seq<Byte>)

  /** A message given to proc_cli_msg. */
  datatype Heard = Heard(fd: int, data: seq<Byte>)

  function Blocks(q: seq<Msg>): seq<Block> {
    if q == [] then [] else [q[0].blk] + Blocks(q[1..])
  }

  lemma {:induction false} BlocksMore(q: seq<Msg>, m: Msg)
    ensures Blocks(q + [m]) == Blocks(q) + [m.blk]
    decreases |q|
  {
    if q == [] {
      assert q + [m] == [m];
    } else {
      assert (q + [m])[0] == q[0] && (q + [m])[1..] == q[1..] + [m];
      BlocksMore(q[1..], m);
    }
  }

  function HeardOf(done: seq<Msg>, met: seq<nat>): seq<Heard>
    requires |met| == |done|
  {
    if done == [] then []
    else
      var n := |done| - 1;
      HeardOf(done[..n], met[..n]) +
      (if done[n].blk.kind == BLK_DATA && met[n] != 0 then [Heard(done[n].blk.fd, done[n].blk.data)] else [])
  }

  lemma HeardMore(done: seq<Msg>, met: seq<nat>, m: Msg, c: nat)
    requires |met| == |done|
    ensures HeardOf(done + [m], met + [c]) == HeardOf(done, met) +
              (if m.blk.kind == BLK_DATA && c != 0 then [Heard(m.blk.fd, m.blk.data)] else [])
  {
    assert (done + [m])[..|done|] == done && (met + [c])[..|met|] == met;
  }

  predicate TableIs(fds: map<int, Sess>, table: map<int, Conn>) {
    && fds.Keys == table.Keys
    && forall fd :: fd in fds ==> fds[fd] == Sess(table[fd].idx, table[fd].addr) && IsInt32(fd)
  }

  // ------------------------------------------------------------- what the queues come to

  /** The two queues of a worker, as their offsets and pending blocks. */
  datatype Rings = Rings(rq: Fifo, sq: Fifo)

  /** Whether mq_push has room for n bytes in a mapping of len bytes. */
  function RoomIn(len: int, f: Fifo, n: int): bool {
    PushOutcome(f.head, f.tail, len, n).0
  }

  function PutRq(len: int, qs: seq<Rings>, i: int, b: Block): seq<Rings>
    requires 0 <= i < |qs|
  {
    qs[i := qs[i].(rq := qs[i].rq.AfterPush(len, b))]
  }

  function PutSq(len: int, qs: seq<Rings>, i: int, b: Block): seq<Rings>
    requires 0 <= i < |qs|
  {
    qs[i := qs[i].(sq := qs[i].sq.AfterPush(len, b))]
  }

  function GotSq(qs: seq<Rings>, i: int): seq<Rings>
    requires 0 <= i < |qs|
  {
    qs[i := qs[i].(sq := qs[i].sq.AfterGet())]
  }

  function PoppedSq(qs: seq<Rings>, i: int): seq<Rings>
    requires 0 <= i < |qs|
  {
    if qs[i].sq.front == [] then qs else qs[i := qs[i].(sq := qs[i].sq.AfterPop())]
  }

  function GotRq(qs: seq<Rings>, i: int): seq<Rings>
    requires 0 <= i < |qs|
  {
    qs[i := qs[i].(rq := qs[i].rq.AfterGet())]
  }

  function PoppedRq(qs: seq<Rings>, i: int): seq<Rings>
    requires 0 <= i < |qs|
  {
    if qs[i].rq.front == [] then qs else qs[i := qs[i].(rq := qs[i].rq.AfterPop())]
  }

  /** A state of the protocol, with queues for each of its workers. */
  predicate Paired(s: Sys, qs: seq<Rings>) {
    Indexed(s) && |qs| == |s.works|
  }

  predicate InUse(s: Sys, fd: int) {
    fd in s.listen || fd in s.open
  }

  function CloseBlock(s: Sys, fd: int): Block
    requires InUse(s, fd)
  {
    Block(if fd in s.listen then s.listen[fd] else s.open[fd].idx, fd, BLK_CLOSE, [])
  }

  /** Whether do_fd_close has room for its CLOSE, and the queues after it. */
  function CloseRoom(len: int, s: Sys, qs: seq<Rings>, fd: int): bool
    requires Paired(s, qs)
  {
    InUse(s, fd) ==> RoomIn(len, qs[CloseBlock(s, fd).id].rq, BLK_HEAD_LEN)
  }

  function CloseFlow(len: int, s: Sys, qs: seq<Rings>, fd: int): seq<Rings>
    requires Paired(s, qs)
  {
    if InUse(s, fd) then PutRq(len, qs, CloseBlock(s, fd).id, CloseBlock(s, fd)) else qs
  }

  function OpenBlock(s: Sys, l: int, fd: int, addr: seq<Byte>): Block
    requires l in s.listen
  {
    Block(s.listen[l], fd, BLK_OPEN, addr)
  }

  function DataBlock(s: Sys, fd: int, frame: Frame): Block
    requires fd in s.open
  {
    Block(s.open[fd].idx, fd, BLK_DATA, frame)
  }

  function SessBlock(k: Work, kind: Byte, fd: int, data: seq<Byte>): Block
    requires fd in k.table
  {
    Block(k.table[fd].idx, fd, kind, data)
  }

  /** The event op, with room for everything. */
  function Plain(op: Act): Act {
    match op
    case Accept(l, fd, addr, _, _) => Accept(l, fd, addr, true, true)
    case HangUp(fd, _) => HangUp(fd, true)
    case CutFrame(fd, frame, _, _) => CutFrame(fd, frame, true, true)
    case TurnSend(i, broken, _) => TurnSend(i, broken, true)
    case TurnRecv(i, finish, _) => TurnRecv(i, finish, true)
    case TurnMisread(i, b, finish, _) => TurnMisread(i, b, finish, true)
    case EndSession(i, fd, _) => EndSession(i, fd, true)
    case Send(i, fd, frame, _) => Send(i, fd, frame, true)
  }

  /** The event op, with the room that its pushes find; a push that is not made finds room. */
  function Resolve(len: int, s: Sys, qs: seq<Rings>, op: Act): Act
    requires Paired(s, qs)
  {
    if !Can(s, op) then Plain(op)
    else
      match op
      case Accept(l, fd, addr, _, _) =>
        var b := OpenBlock(s, l, fd, addr);
        var room := RoomIn(len, qs[b.id].rq, b.Len());
        Accept(l, fd, addr, room, room || CloseRoom(len, s, PutRq(len, qs, b.id, b), l))
      case HangUp(fd, _) => HangUp(fd, CloseRoom(len, s, qs, fd))
      case CutFrame(fd, frame, _, _) =>
        var b := DataBlock(s, fd, frame);
        var room := RoomIn(len, qs[b.id].rq, b.Len());
        CutFrame(fd, frame, room, room || CloseRoom(len, s, PutRq(len, qs, b.id, b), fd))
      case TurnSend(i, broken, _) =>
        var b := s.works[i].sq[0].blk;
        TurnSend(i, broken, b.kind == BLK_CLOSE || broken ==> CloseRoom(len, s, GotSq(qs, i), b.fd))
      case TurnRecv(i, finish, _) =>
        TurnRecv(i, finish, Ends(s.works[i], finish) || Refuses(s.works[i]) ==> RoomIn(len, qs[i].sq, BLK_HEAD_LEN))
      case TurnMisread(_, _, _, _) => Plain(op)
      case EndSession(i, fd, _) =>
        EndSession(i, fd, fd in s.works[i].table ==> RoomIn(len, qs[i].sq, BLK_HEAD_LEN))
      case Send(i, fd, frame, _) => Send(i, fd, frame, RoomIn(len, qs[i].sq, BLK_HEAD_LEN + |frame|))
  }

  predicate Refused(k: Work, m: Msg) {
    m.blk.kind == BLK_OPEN && !Session.DoBlkOpen(k, m).0
  }

  /** The next turn of a worker's loop meets an OPEN that is refused. */
  predicate Refuses(k: Work)
    requires k.rq != []
  {
    Refused(k, k.rq[0])
  }

  /** A refused OPEN is sent back as a CLOSE, and popped by the length of that (work.c:263-273). */
  function Spoiled(len: int, q: Rings, b: Block): Rings {
    Rings(q.rq.(tail := q.rq.tail + BLK_HEAD_LEN), q.sq.AfterPush(len, Block(b.id, b.fd, BLK_CLOSE, [])))
  }

  /** The next turn of a worker's loop calls close_cli. */
  predicate Ends(k: Work, finish: bool)
    requires k.rq != []
  {
    k.rq[0].blk.kind == BLK_DATA && k.rq[0].blk.fd in k.table && finish
  }

  /** The queues after the event. */
  function Flow(len: int, s: Sys, qs: seq<Rings>, op: Act): seq<Rings>
    requires Paired(s, qs)
  {
    match op
    case Accept(l, fd, addr, _, _) =>
      if !Can(s, op) then qs
      else
        var b := OpenBlock(s, l, fd, addr);
        var qs1 := PutRq(len, qs, b.id, b);
        if RoomIn(len, qs[b.id].rq, b.Len()) then qs1 else CloseFlow(len, s, qs1, l)
    case HangUp(fd, _) => if Can(s, op) then CloseFlow(len, s, qs, fd) else qs
    case CutFrame(fd, frame, _, _) =>
      if !Can(s, op) then qs
      else
        var b := DataBlock(s, fd, frame);
        var qs1 := PutRq(len, qs, b.id, b);
        if RoomIn(len, qs[b.id].rq, b.Len()) then qs1 else CloseFlow(len, s, qs1, fd)
    case TurnSend(i, broken, _) =>
      if !(0 <= i < |qs|) then qs
      else if s.works[i].sq == [] then GotSq(qs, i)
      else
        var b := s.works[i].sq[0].blk;
        PoppedSq(if b.kind == BLK_CLOSE || broken then CloseFlow(len, s, GotSq(qs, i), b.fd) else GotSq(qs, i), i)
    case TurnRecv(i, finish, _) =>
      if !(0 <= i < |qs|) || s.works[i].wrecked then qs
      else if s.works[i].rq == [] then GotRq(qs, i)
      else if Refuses(s.works[i]) then qs[i := Spoiled(len, GotRq(qs, i)[i], s.works[i].rq[0].blk)]
      else PoppedRq(Ended(len, s.works[i], GotRq(qs, i), i, finish), i)
    case TurnMisread(_, _, _, _) => qs
    case EndSession(i, fd, _) =>
      if Can(s, op) && fd in s.works[i].table then PutSq(len, qs, i, SessBlock(s.works[i], BLK_CLOSE, fd, []))
      else qs
    case Send(i, fd, frame, _) =>
      if Can(s, op) then PutSq(len, qs, i, SessBlock(s.works[i], BLK_DATA, fd, frame)) else qs
  }

  function Ended(len: int, k: Work, qs: seq<Rings>, i: int, finish: bool): seq<Rings>
    requires k.rq != [] && 0 <= i < |qs|
  {
    if Ends(k, finish) then PutSq(len, qs, i, SessBlock(k, BLK_CLOSE, k.rq[0].blk.fd, [])) else qs
  }

  datatype Option = None | Some(blk: Block)

  /** A worker process, with the two queues it shares with the master. */
  class Worker {
    const rq: Queue
    const sq: Queue
    var fds: map<int, Sess>
    /** The reader stands inside a block. The code has no such flag. */
    var astray: bool

    ghost function Foot(): set<object> {
      {this, rq, rq.mem, sq, sq.mem}
    }

    ghost function Shows(): Side
      reads this, rq, sq
    {
      Side(fds, rq.Contents(), sq.Contents(), sq.head, sq.tail)
    }

    /** Its bytes and tables are the state k of the protocol, and its queues come to q. */
    ghost predicate Is(k: Work, q: Rings)
      reads this, rq, rq.mem, sq, sq.mem
    {
      && rq != sq && rq.mem != sq.mem
      && rq.Sane() && rq.View() == q.rq && (!k.wrecked ==> rq.Valid() && rq.Contents() == Blocks(k.rq))
      && sq.Valid() && sq.Contents() == Blocks(k.sq) && sq.View() == q.sq
      && TableIs(fds, k.table) && astray == k.wrecked && k.misread == []
    }

    constructor (size: int)
      requires MEM_HEAD_LEN < size <= INT_MAX - BLK_HEAD_LEN
      ensures Is(NewWork(), NewRings()) && fresh(Foot()) && rq.mem.Length == sq.mem.Length == size
    {
      rq := new Queue(size);
      sq := new Queue(size);
      fds, astray := map[], false;
    }

    /** mq_push by the master. */
    method PushRq(b: Block, ghost m: Msg, ghost k: Work, ghost q: Rings) returns (ok: bool)
      requires Is(k, q) && m.blk == b && b.Storable() && rq.mem.Length + b.Len() <= INT_MAX
      modifies rq, rq.mem
      ensures ok == RoomIn(rq.mem.Length, q.rq, b.Len())
      ensures !astray ==> rq.Contents() == if ok then old(rq.Contents()) + [b] else old(rq.Contents())
      ensures Is(Tell(k, m, ok), q.(rq := q.rq.AfterPush(rq.mem.Length, b)))
    {
      var r, _ := rq.Push(b);
      ok := r == 0;
      BlocksMore(k.rq, m);
    }

    /** mq_push by the worker. */
    method PushSq(b: Block, ghost m: Msg, ghost k: Work, ghost q: Rings) returns (ok: bool)
      requires Is(k, q) && m.blk == b && b.Storable() && sq.mem.Length + b.Len() <= INT_MAX
      modifies sq, sq.mem
      ensures ok == RoomIn(sq.mem.Length, q.sq, b.Len())
      ensures sq.Contents() == if ok then old(sq.Contents()) + [b] else old(sq.Contents())
      ensures Is(Session.PushSq(k, m, ok), q.(sq := q.sq.AfterPush(sq.mem.Length, b)))
    {
      var r, _ := sq.Push(b);
      ok := r == 0;
      BlocksMore(k.sq, m);
    }

    /** do_blk_open. */
    method DoBlkOpen(b: Block, ghost m: Msg, ghost k: Work, ghost q: Rings) returns (r: int)
      requires Is(k, q) && m.blk == b && IsInt32(b.fd)
      modifies this`fds
      ensures Is(Session.DoBlkOpen(k, m).1, q) && r == if Session.DoBlkOpen(k, m).0 then 0 else -1
    {
      if b.fd in fds || b.Len() != BLK_HEAD_LEN + ADDR_LEN {
        r := -1;
      } else {
        fds := fds[b.fd := Sess(b.id, b.data)];
        r := 0;
      }
    }

    /** do_blk_close, after which the application has been called. */
    method DoBlkClose(fd: int, ghost k: Work, ghost q: Rings) returns (r: int)
      requires Is(k, q)
      modifies this`fds
      ensures Is(Session.DoBlkClose(k, fd), q) && r == (if fd in k.table then 0 else -1) && fds == old(fds) - {fd}
    {
      if fd !in fds {
        return -1;
      }
      fds := fds - {fd};
      r := 0;
    }

    /** close_cli once the session has been found. */
    method CloseCli(fd: int, ghost k: Work, ghost q: Rings) returns (ok: bool)
      requires Is(k, q) && fd in k.table && IsInt32(k.table[fd].idx) && sq.mem.Length + BLK_HEAD_LEN <= INT_MAX
      modifies this, sq, sq.mem
      ensures ok == RoomIn(sq.mem.Length, q.sq, BLK_HEAD_LEN) && fds == old(fds) - {fd}
      ensures var b := Block(k.table[fd].idx, fd, BLK_CLOSE, []);
        sq.Contents() == if ok then old(sq.Contents()) + [b] else old(sq.Contents())
      ensures Is(Session.CloseCli(k, fd, ok), q.(sq := q.sq.AfterPush(sq.mem.Length, SessBlock(k, BLK_CLOSE, fd, []))))
    {
      var b := Block(fds[fd].id, fd, BLK_CLOSE, []);
      ghost var c := k.table[fd];
      ok := PushSq(b, CloseMsg(c.idx, fd, c.inc), k, q);
      ghost var k1 := Session.PushSq(k, CloseMsg(c.idx, fd, c.inc), ok);
      var _ := DoBlkClose(fd, if ok then k1 else k1.(unsaid := k1.unsaid + {c.inc}),
                          q.(sq := q.sq.AfterPush(sq.mem.Length, b)));
    }

    /** mq_get by the worker, and the block that it finds. */
    method GetRq(ghost k: Work, ghost q: Rings) returns (b: Option)
      requires Is(k, q) && !k.wrecked
      modifies rq`tail, rq`front, rq`back
      ensures Is(k, q.(rq := q.rq.AfterGet())) && b == (if k.rq == [] then None else Some(k.rq[0].blk))
      ensures k.rq != [] ==> rq.AtBlock() && rq.front[0] == k.rq[0].blk && k.rq[0].blk.Storable()
    {
      var p, _ := rq.Get();
      b := if p == Null then None else Some(ReadBlock(rq.mem[..], p.offset));
    }

    /** mq_get by the master. */
    method GetSq(ghost k: Work, ghost q: Rings) returns (b: Option)
      requires Is(k, q)
      modifies sq`tail, sq`front, sq`back
      ensures Is(k, q.(sq := q.sq.AfterGet())) && b == (if k.sq == [] then None else Some(k.sq[0].blk))
      ensures k.sq != [] ==> sq.AtBlock()
    {
      var p, _ := sq.Get();
      b := if p == Null then None else Some(ReadBlock(sq.mem[..], p.offset));
    }

    /** mq_pop of the block that mq_get returned; met is the session it met. */
    method PopRq(ghost met: nat, ghost k: Work, ghost q: Rings)
      requires Is(k, q) && !k.wrecked && q.rq.front != [] && k.rq != []
      modifies rq
      ensures Is(Session.PopRq(k, met), q.(rq := q.rq.AfterPop()))
    {
      rq.Pop();
      assert Blocks(k.rq)[1..] == Blocks(k.rq[1..]);
    }

    /** What the code does with an OPEN that do_blk_open has refused (work.c:263-265 and 273): the
        block is overwritten where it is, sent back, and popped by its new length. Then, if another
        block follows, what the reader finds is no block of the master's: a DATA block for the
        descriptor that the refused peer's port and that block's id make up, with that block's
        descriptor, times 256, as its length. If none follows, no list of blocks fits the queue. */
    method Refuse(ghost m: Msg, ghost k: Work, ghost q: Rings) returns (ok: bool)
      requires Is(k, q) && !k.wrecked && q.rq.front != [] && m.blk == q.rq.front[0] && |m.blk.data| == ADDR_LEN
      requires sq.mem.Length + BLK_HEAD_LEN <= INT_MAX
      modifies this`astray, rq, rq.mem, sq, sq.mem
      ensures ok == RoomIn(sq.mem.Length, q.sq, BLK_HEAD_LEN)
      ensures Is(Session.Refuse(k, m, ok), Spoiled(sq.mem.Length, q, m.blk))
      ensures Inside(rq.mem[..], rq.head, rq.tail, q.rq)
    {
      ok := RefuseFront(CloseMsg(m.blk.id, m.blk.fd, m.inc), q.rq, k.sq, q.sq);
      astray := true;
      RefusedWork(k, m, ok);
    }

    /** The same on the two queues. */
    method RefuseFront(ghost m: Msg, ghost f: Fifo, ghost msgs: seq<Msg>, ghost g: Fifo) returns (ok: bool)
      requires rq != sq && rq.mem != sq.mem && rq.Valid() && rq.View() == f && f.front != [] && |f.front[0].data| == ADDR_LEN
      requires sq.Valid() && sq.Contents() == Blocks(msgs) && sq.View() == g && sq.mem.Length + BLK_HEAD_LEN <= INT_MAX
      requires m.blk == Block(f.front[0].id, f.front[0].fd, BLK_CLOSE, [])
      modifies rq, rq.mem, sq, sq.mem
      ensures ok == RoomIn(sq.mem.Length, g, BLK_HEAD_LEN)
      ensures rq.Sane() && rq.View() == f.(tail := f.tail + BLK_HEAD_LEN)
      ensures sq.Valid() && sq.Contents() == Blocks(if ok then msgs + [m] else msgs)
      ensures sq.View() == g.AfterPush(sq.mem.Length, m.blk)
      ensures Inside(rq.mem[..], rq.head, rq.tail, f)
    {
      var b := Overwrite(f);
      ok := SendBack(b, m, msgs, g);
      rq.PopRaw();
    }

    /** The refused block becomes a CLOSE of no data. */
    method Overwrite(ghost f: Fifo) returns (b: Block)
      requires rq.Valid() && rq.View() == f && f.front != [] && |f.front[0].data| == ADDR_LEN
      modifies rq.mem
      ensures b == Block(f.front[0].id, f.front[0].fd, BLK_CLOSE, [])
      ensures Readable(rq.mem[..], rq.tail) && LenAt(rq.mem[..], rq.tail) == BLK_HEAD_LEN
      ensures Inside(rq.mem[..], rq.head, rq.tail + BLK_HEAD_LEN, f)
    {
      ghost var m0 := rq.mem[..];
      rq.SpoilFront();
      InsideFound(m0, rq.mem[..], f);
      b := ReadBlock(rq.mem[..], rq.tail);
    }

    /** mq_push of the overwritten block. */
    method SendBack(b: Block, ghost m: Msg, ghost msgs: seq<Msg>, ghost f: Fifo) returns (ok: bool)
      requires sq.Valid() && sq.Contents() == Blocks(msgs) && sq.View() == f && m.blk == b && b.Storable()
      requires sq.mem.Length + b.Len() <= INT_MAX
      modifies sq, sq.mem
      ensures ok == RoomIn(sq.mem.Length, f, b.Len())
      ensures sq.Valid() && sq.Contents() == Blocks(if ok then msgs + [m] else msgs)
      ensures sq.View() == f.AfterPush(sq.mem.Length, b)
    {
      var r, _ := sq.Push(b);
      ok := r == 0;
      BlocksMore(msgs, m);
    }

    /** mq_pop by the master. */
    method PopSq(ghost k: Work, ghost q: Rings)
      requires Is(k, q) && q.sq.front != [] && k.sq != []
      modifies sq
      ensures Is(k.(sq := k.sq[1..]), q.(sq := q.sq.AfterPop()))
    {
      sq.Pop();
      assert Blocks(k.sq)[1..] == Blocks(k.sq[1..]);
    }
  }

  lemma RefusedWork(k: Work, m: Msg, ok: bool)
    ensures var k' := Session.Refuse(k, m, ok);
      && k'.wrecked && k'.misread == k.misread && k'.table == k.table
      && k'.sq == if ok then k.sq + [CloseMsg(m.blk.id, m.blk.fd, m.inc)] else k.sq
  {
  }

  /** Where the reader stands once the front block of was has been refused: before the address in
      it. If another block follows, FindsInside says what the reader finds; if not, no list of
      blocks fits the queue. */
  ghost predicate Inside(m: seq<Byte>, head: int, tail: int, was: Fifo) {
    && tail == was.tail + BLK_HEAD_LEN
    && (|was.front| > 1 ==> FindsInside(m, tail, was.front[0], was.front[1]))
    && (head == tail + ADDR_LEN ==> forall f, b :: !RingInv(m, head, tail, f, b))
  }

  /** What a reader finds that stands six bytes before block b2, inside the refused OPEN b. */
  predicate FindsInside(m: seq<Byte>, q: int, b: Block, b2: Block) {
    0 <= b2.id < 0x8000 && 0 <= b2.fd < 0x80_0000 && |b.data| == ADDR_LEN ==>
      && 0 <= q && q + BLK_HEAD_LEN <= |m|
      && KindAt(m, q) == BLK_DATA && LenAt(m, q) == 256 * b2.fd
      && IntAt(m, q + 4) == b.data[4] + 256 * b.data[5] + 65536 * b2.id
  }

  lemma InsideFound(m: seq<Byte>, m': seq<Byte>, was: Fifo)
    requires Holds(m, was.tail, was.front) && was.front != [] && |was.front[0].data| == ADDR_LEN
    requires SameOutside(m, m', was.tail, was.tail + BLK_HEAD_LEN)
    ensures Inside(m', was.head, was.tail + BLK_HEAD_LEN, was)
  {
    var p, q := was.tail, was.tail + BLK_HEAD_LEN;
    if |was.front| > 1 {
      var b, b2 := was.front[0], was.front[1];
      assert was.front[1..][0] == b2 && Holds(m, p + b.Len(), was.front[1..]);
      if 0 <= b2.id < 0x8000 && 0 <= b2.fd < 0x80_0000 {
        MisreadBehindSpoiled(m, m', p, b, b2);
      }
    }
    if was.head == q + ADDR_LEN {
      forall f, b ensures !RingInv(m', was.head, q, f, b) {
        NothingFitsThere(m', was.head, q, f, b);
      }
    }
  }

  /** The master's record of a descriptor is that of the protocol. */
  ghost predicate FdIs(fds: map<int, FdInfo>, s: Sys, fd: int) {
    && (fd in fds <==> InUse(s, fd)) && (fd in fds ==> IsInt32(fd))
    && (fd in s.listen ==> fds[fd].listen && fds[fd].idx == s.listen[fd])
    && (fd in s.open ==> fds[fd] == FdInfo(false, s.open[fd].idx, s.open[fd].addr))
  }

  ghost predicate FdsAre(fds: map<int, FdInfo>, s: Sys) {
    forall fd {:trigger FdIs(fds, s, fd)} :: FdIs(fds, s, fd)
  }

  function IncOf(s: Sys, fd: int): nat {
    if fd in s.open then s.open[fd].inc else 0
  }

  lemma CloseTarget(fds: map<int, FdInfo>, s: Sys, fd: int)
    requires FdsAre(fds, s) && Indexed(s) && fd in fds && |s.works| <= INT_MAX
    ensures InUse(s, fd) && CloseBlock(s, fd) == Block(fds[fd].idx, fd, BLK_CLOSE, [])
    ensures 0 <= fds[fd].idx < |s.works| && CloseBlock(s, fd).Storable()
  {
    assert FdIs(fds, s, fd);
  }

  lemma CloseUpdates(fds: map<int, FdInfo>, s: Sys, fd: int, room: bool)
    requires FdsAre(fds, s) && Inv(s) && fd in fds && InUse(s, fd) && 0 <= CloseBlock(s, fd).id < |s.works|
    ensures var b, s' := CloseBlock(s, fd), Session.DoFdClose(s, fd, room);
      && s'.works == s.works[b.id := Session.Tell(s.works[b.id], Msg(b, IncOf(s, fd)), room)]
      && FdsAre(fds - {fd}, s') && Inv(s')
  {
    CloseKeeps(s, fd, room);
    assert FdInv(s, fd);
    FdsAfterClose(fds, s, fd, room);
  }

  lemma FdsAfterClose(fds: map<int, FdInfo>, s: Sys, fd: int, room: bool)
    requires FdsAre(fds, s) && Indexed(s) && FdInv(s, fd)
    ensures FdsAre(fds - {fd}, Session.DoFdClose(s, fd, room))
  {
    var s' := Session.DoFdClose(s, fd, room);
    forall f ensures FdIs(fds - {fd}, s', f) {
      assert FdIs(fds, s, f);
    }
  }

  lemma InitFds(workers: nat, listen: map<int, int>)
    requires forall l :: l in listen ==> IsInt32(l)
    ensures FdsAre(map l | l in listen :: FdInfo(true, listen[l], []), Init(workers, listen))
  {
    var fds := map l | l in listen :: FdInfo(true, listen[l], []);
    forall f ensures FdIs(fds, Init(workers, listen), f) {
    }
  }

  lemma SameFds(fds: map<int, FdInfo>, s: Sys, s': Sys)
    requires FdsAre(fds, s) && s'.listen == s.listen && s'.open == s.open
    ensures FdsAre(fds, s')
  {
    forall f ensures FdIs(fds, s', f) {
      assert FdIs(fds, s, f);
    }
  }

  /** The state after do_blk_send, before mq_pop. */
  function Obeyed(s: Sys, b: Block, broken: bool, room: bool): Sys
    requires Indexed(s)
  {
    if b.kind == BLK_CLOSE || broken then Session.DoFdClose(s, b.fd, room) else s
  }

  lemma SendTurnUpdates(fds: map<int, FdInfo>, s: Sys, i: int, broken: bool, room: bool)
    requires Inv(s) && 0 <= i < |s.works| && s.works[i].sq != []
    requires FdsAre(fds, Obeyed(s, s.works[i].sq[0].blk, broken, room))
    ensures var s1, s' := Obeyed(s, s.works[i].sq[0].blk, broken, room), Step(s, TurnSend(i, broken, room));
      && |s1.works| == |s.works| && s1.works[i].sq == s.works[i].sq
      && s'.works == s1.works[i := s1.works[i].(sq := s1.works[i].sq[1..])]
      && FdsAre(fds, s') && Inv(s')
  {
    SendTurnKeeps(s, i, broken, room);
    CloseEffect(s, s.works[i].sq[0].blk.fd, room);
    SameFds(fds, Obeyed(s, s.works[i].sq[0].blk, broken, room), Step(s, TurnSend(i, broken, room)));
  }

  lemma CloseCliUpdates(s: Sys, i: int, fd: int, room: bool)
    requires Inv(s) && 0 <= i < |s.works| && fd in s.works[i].table && s.works[i].misread == []
    ensures var s' := Step(s, EndSession(i, fd, room));
      s.works[i].table[fd].idx == i && Inv(s') && s' == s.(works := s.works[i := Session.CloseCli(s.works[i], fd, room)])
  {
    assert WorkInv(s, i);
    CloseCliKeeps(s, i, fd, room);
  }

  lemma TableIndex(s: Sys, i: int, fd: int)
    requires Inv(s) && 0 <= i < |s.works| && fd in s.works[i].table && s.works[i].misread == []
    ensures s.works[i].table[fd].idx == i
  {
    assert WorkInv(s, i);
  }

  lemma SendUpdates(s: Sys, i: int, fd: int, frame: Frame, room: bool)
    requires Inv(s) && 0 <= i < |s.works| && fd in s.works[i].table && s.works[i].misread == []
    ensures var k, s' := s.works[i], Step(s, Send(i, fd, frame, room));
      && k.table[fd].idx == i && Inv(s')
      && s' == s.(works := s.works[i := Session.PushSq(k, DataMsg(i, fd, frame, k.table[fd].inc), room)])
  {
    assert WorkInv(s, i);
    SendKeeps(s, i, fd, frame, room);
  }

  lemma ConnectTarget(fds: map<int, FdInfo>, s: Sys, l: int, newfd: int)
    requires FdsAre(fds, s) && Indexed(s) && l in fds && fds[l].listen && newfd !in fds
    ensures 0 <= fds[l].idx < |s.works| && l in s.listen && s.listen[l] == fds[l].idx && !InUse(s, newfd)
  {
    assert FdIs(fds, s, l) && FdIs(fds, s, newfd);
  }

  lemma ConnectUpdates(fds: map<int, FdInfo>, s: Sys, l: int, newfd: int, addr: seq<Byte>, room: bool)
    requires FdsAre(fds, s) && Inv(s) && l in s.listen && l in fds && newfd !in fds && IsInt32(newfd) && |addr| == ADDR_LEN
    ensures var i, s' := fds[l].idx, Connect(s, l, newfd, addr, room);
      && 0 <= i < |s.works|
      && s'.works == s.works[i := Session.Tell(s.works[i], OpenMsg(i, newfd, addr, s.next), room)]
      && FdsAre(fds[newfd := FdInfo(false, i, addr)], s') && Inv(s')
  {
    assert FdIs(fds, s, l) && FdIs(fds, s, newfd);
    ConnectKeeps(s, l, newfd, addr, room);
    var fds', s' := fds[newfd := FdInfo(false, s.listen[l], addr)], Connect(s, l, newfd, addr, room);
    forall f ensures FdIs(fds', s', f) {
      assert FdIs(fds, s, f);
    }
  }

  lemma FrameTarget(fds: map<int, FdInfo>, s: Sys, fd: int, frame: Frame)
    requires FdsAre(fds, s) && Indexed(s) && fd in fds && !fds[fd].listen
    requires |s.works| <= INT_MAX && BLK_HEAD_LEN + |frame| <= INT_MAX
    ensures 0 <= fds[fd].idx < |s.works| && fd in s.open && s.open[fd].idx == fds[fd].idx && fd !in s.listen
    ensures Block(fds[fd].idx, fd, BLK_DATA, frame).Storable()
  {
    assert FdIs(fds, s, fd);
  }

  lemma FrameUpdates(fds: map<int, FdInfo>, s: Sys, fd: int, frame: Frame, room: bool)
    requires FdsAre(fds, s) && Inv(s) && fd in s.open
    ensures var c := s.open[fd];
      var s' := if room then Step(s, CutFrame(fd, frame, true, true)) else LostData(s, fd, frame);
      && s'.works == s.works[c.idx := Session.Tell(s.works[c.idx], DataMsg(c.idx, fd, frame, c.inc), room)]
      && FdsAre(fds, s') && Inv(s')
  {
    SameFds(fds, s, if room then Step(s, CutFrame(fd, frame, true, true)) else LostData(s, fd, frame));
    if room {
      PushKeeps(s, fd, frame, true);
    } else {
      LostDataKeeps(s, fd, frame);
    }
  }

  lemma FrameLost(fds: map<int, FdInfo>, s: Sys, fd: int, frame: Frame, croom: bool)
    requires Inv(s) && fd in s.open
    requires FdsAre(fds, Session.DoFdClose(LostData(s, fd, frame), fd, croom))
    ensures var s' := Step(s, CutFrame(fd, frame, false, croom));
      Inv(s') && s'.works == Session.DoFdClose(LostData(s, fd, frame), fd, croom).works && FdsAre(fds, s')
  {
    CutOnlyKeeps(s, fd, frame, croom);
    SameFds(fds, Session.DoFdClose(LostData(s, fd, frame), fd, croom), Step(s, CutFrame(fd, frame, false, croom)));
  }

  /** The worker after the switch in handle_mq_recv (work.c:257-271), before mq_pop. */
  function Switched(k: Work, m: Msg, finish: bool, room: bool): Work {
    if m.blk.kind == BLK_DATA then
      if m.blk.fd in k.table && finish then Session.CloseCli(k, m.blk.fd, room) else k
    else if m.blk.kind == BLK_OPEN then Session.DoBlkOpen(k, m).1
    else if m.blk.kind == BLK_CLOSE then Session.DoBlkClose(k, m.blk.fd)
    else k
  }

  function MetBy(k: Work, m: Msg): nat {
    if m.blk.kind == BLK_OPEN then 0 else SessionOn(k.table, m.blk.fd)
  }

  lemma SwitchThenPop(k: Work, finish: bool, room: bool)
    requires k.rq != [] && !Refused(k, k.rq[0])
    ensures var m := k.rq[0];
      && Switched(k, m, finish, room).rq == k.rq
      && Session.RecvTurn(k, finish, room) == Session.PopRq(Switched(k, m, finish, room), MetBy(k, m))
  {
  }

  lemma TurnHeard(k: Work, finish: bool, room: bool)
    requires k.rq != [] && !Refused(k, k.rq[0]) && |k.met| == |k.done|
    requires forall fd :: fd in k.table ==> 0 < k.table[fd].inc
    ensures var b, k' := k.rq[0].blk, Session.RecvTurn(k, finish, room);
      HeardMatches(k, k', if b.kind == BLK_DATA && b.fd in k.table then [Heard(b.fd, b.data)] else [])
  {
    var m, k' := k.rq[0], Session.RecvTurn(k, finish, room);
    SwitchThenPop(k, finish, room);
    HeardMore(k.done, k.met, m, MetBy(k, m));
    SwitchedKeepsRecord(k, m, finish, room);
    assert k'.done == k.done + [m] && k'.met == k.met + [MetBy(k, m)];
  }

  lemma SwitchedKeepsRecord(k: Work, m: Msg, finish: bool, room: bool)
    ensures var k1 := Switched(k, m, finish, room); k1.done == k.done && k1.met == k.met
  {
  }

  lemma RecvTurnUpdates(s: Sys, i: int, finish: bool, room: bool)
    requires Inv(s) && 0 <= i < |s.works| && s.works[i].rq != [] && !s.works[i].wrecked
    ensures var s' := Step(s, TurnRecv(i, finish, room));
      && Inv(s') && s' == s.(works := s.works[i := Session.RecvTurn(s.works[i], finish, room)])
      && |s.works[i].met| == |s.works[i].done|
      && forall fd :: fd in s.works[i].table ==> 0 < s.works[i].table[fd].inc
  {
    assert WorkInv(s, i);
    DoneFacts(s.open, s.next, i, s.works[i]);
    RecvTurnKeeps(s, i, finish, room);
  }

  /** The calls of proc_cli_msg on the way from k to k'. */
  ghost predicate HeardMatches(k: Work, k': Work, heard: seq<Heard>) {
    && |k.met| == |k.done| && |k'.met| == |k'.done|
    && HeardOf(k'.done, k'.met) == HeardOf(k.done, k.met) + heard
  }

  lemma RecvTurnShrinks(k: Work, finish: bool, room: bool)
    requires k.rq != [] && !Session.RecvTurn(k, finish, room).wrecked
    ensures Session.RecvTurn(k, finish, room).rq == k.rq[1..]
  {
  }

  lemma HeardInTwo(k: Work, k1: Work, k2: Work, heard: seq<Heard>, more: seq<Heard>)
    requires HeardMatches(k, k1, heard) && HeardMatches(k1, k2, more)
    ensures HeardMatches(k, k2, heard + more)
  {
  }

  /** The event op took the protocol and its queues from s, qs to s', qs', as the step act with
      the room that its pushes found. */
  ghost predicate Did(len: int, s: Sys, qs: seq<Rings>, op: Act, act: Act, s': Sys, qs': seq<Rings>) {
    Paired(s, qs) && act == Resolve(len, s, qs, op) && s' == Step(s, act) && qs' == Flow(len, s, qs, op)
  }

  /** What an event is asked to assume about room does not matter. */
  lemma DidPlain(len: int, s: Sys, qs: seq<Rings>, op: Act, act: Act, s': Sys, qs': seq<Rings>)
    requires Did(len, s, qs, Plain(op), act, s', qs')
    ensures Did(len, s, qs, op, act, s', qs')
  {
  }

  lemma NothingDone(len: int, s: Sys, qs: seq<Rings>, op: Act)
    requires Paired(s, qs) && !Can(s, op) && !op.TurnSend? && !op.TurnRecv?
    ensures Did(len, s, qs, op, Plain(op), s, qs)
  {
  }

  lemma AcceptResolves(len: int, s: Sys, qs: seq<Rings>, l: int, fd: int, addr: seq<Byte>, room: bool, lroom: bool)
    requires Paired(s, qs) && Can(s, Accept(l, fd, addr, true, true))
    requires room == RoomIn(len, qs[s.listen[l]].rq, BLK_HEAD_LEN + ADDR_LEN)
    requires var b := OpenBlock(s, l, fd, addr);
      && Paired(Connect(s, l, fd, addr, room), PutRq(len, qs, b.id, b))
      && lroom == (room || CloseRoom(len, Connect(s, l, fd, addr, room), PutRq(len, qs, b.id, b), l))
    ensures var b, act := OpenBlock(s, l, fd, addr), Accept(l, fd, addr, room, lroom);
      var s1, qs1 := Connect(s, l, fd, addr, room), PutRq(len, qs, b.id, b);
      Did(len, s, qs, Accept(l, fd, addr, true, true), act,
          if room then s1 else Session.DoFdClose(s1, l, lroom), if room then qs1 else CloseFlow(len, s1, qs1, l))
  {
  }

  lemma CloseResolves(len: int, s: Sys, qs: seq<Rings>, fd: int)
    requires Paired(s, qs) && fd !in s.listen
    ensures var room := CloseRoom(len, s, qs, fd);
      Did(len, s, qs, HangUp(fd, true), HangUp(fd, room), Session.DoFdClose(s, fd, room), CloseFlow(len, s, qs, fd))
  {
  }

  lemma FrameResolves(len: int, s: Sys, qs: seq<Rings>, fd: int, frame: Frame, room: bool, croom: bool)
    requires Paired(s, qs) && fd in s.open && fd !in s.listen
    requires room == RoomIn(len, qs[s.open[fd].idx].rq, BLK_HEAD_LEN + |frame|)
    requires var b := DataBlock(s, fd, frame);
      && Paired(LostData(s, fd, frame), PutRq(len, qs, b.id, b))
      && croom == (room || CloseRoom(len, LostData(s, fd, frame), PutRq(len, qs, b.id, b), fd))
    ensures var b, act := DataBlock(s, fd, frame), CutFrame(fd, frame, room, croom);
      var qs1 := PutRq(len, qs, b.id, b);
      Did(len, s, qs, CutFrame(fd, frame, true, true), act,
          Step(s, act), if room then qs1 else CloseFlow(len, LostData(s, fd, frame), qs1, fd))
  {
  }

  lemma SendTurnResolves(len: int, s: Sys, qs: seq<Rings>, i: int, broken: bool, room: bool, qs1: seq<Rings>)
    requires Paired(s, qs) && 0 <= i < |qs| && s.works[i].sq != []
    requires var b := s.works[i].sq[0].blk;
      var closes := b.kind == BLK_CLOSE || broken;
      && room == (closes ==> CloseRoom(len, s, GotSq(qs, i), b.fd))
      && qs1 == if closes then CloseFlow(len, s, GotSq(qs, i), b.fd) else GotSq(qs, i)
    ensures var act := TurnSend(i, broken, room);
      Did(len, s, qs, TurnSend(i, broken, true), act, Step(s, act), PoppedSq(qs1, i))
    ensures qs1[i].sq == qs[i].sq.AfterGet()
  {
  }

  lemma NothingSent(len: int, s: Sys, qs: seq<Rings>, i: int, broken: bool)
    requires Paired(s, qs) && 0 <= i < |qs| && s.works[i].sq == []
    ensures Did(len, s, qs, TurnSend(i, broken, true), TurnSend(i, broken, true), s, GotSq(qs, i))
  {
  }

  lemma RecvTurnResolves(len: int, s: Sys, qs: seq<Rings>, i: int, finish: bool, room: bool)
    requires Paired(s, qs) && 0 <= i < |qs| && s.works[i].rq != [] && !s.works[i].wrecked
    requires !Refuses(s.works[i]) && room == (Ends(s.works[i], finish) ==> RoomIn(len, qs[i].sq, BLK_HEAD_LEN))
    ensures var act, rs := TurnRecv(i, finish, room), Ended(len, s.works[i], GotRq(qs, i), i, finish);
      && Did(len, s, qs, TurnRecv(i, finish, true), act, Step(s, act), PoppedRq(rs, i))
      && rs[i].rq == qs[i].rq.AfterGet()
  {
  }

  lemma RefusalResolves(len: int, s: Sys, qs: seq<Rings>, i: int, finish: bool)
    requires Paired(s, qs) && 0 <= i < |qs| && s.works[i].rq != [] && !s.works[i].wrecked && Refuses(s.works[i])
    ensures var room := RoomIn(len, qs[i].sq, BLK_HEAD_LEN);
      var act, m := TurnRecv(i, finish, room), s.works[i].rq[0];
      && Step(s, act) == s.(works := s.works[i := Session.Refuse(s.works[i], m, room)])
      && Did(len, s, qs, TurnRecv(i, finish, true), act, Step(s, act), qs[i := Spoiled(len, GotRq(qs, i)[i], m.blk)])
  {
  }

  lemma NothingReceived(len: int, s: Sys, qs: seq<Rings>, i: int, finish: bool)
    requires Paired(s, qs) && 0 <= i < |qs| && s.works[i].rq == [] && !s.works[i].wrecked
    ensures Did(len, s, qs, TurnRecv(i, finish, true), TurnRecv(i, finish, true), s, GotRq(qs, i))
  {
  }

  lemma EndResolves(len: int, s: Sys, qs: seq<Rings>, i: int, fd: int, room: bool)
    requires Paired(s, qs) && 0 <= i < |qs|
    requires OwnSession(s, i, fd) && room == (fd in s.works[i].table ==> RoomIn(len, qs[i].sq, BLK_HEAD_LEN))
    ensures var act := EndSession(i, fd, room);
      Did(len, s, qs, EndSession(i, fd, true), act, Step(s, act),
          if fd in s.works[i].table then PutSq(len, qs, i, SessBlock(s.works[i], BLK_CLOSE, fd, [])) else qs)
  {
  }

  lemma SendResolves(len: int, s: Sys, qs: seq<Rings>, i: int, fd: int, frame: Frame)
    requires Paired(s, qs) && 0 <= i < |qs| && fd in s.works[i].table && OwnSession(s, i, fd)
    ensures var act := Send(i, fd, frame, RoomIn(len, qs[i].sq, BLK_HEAD_LEN + |frame|));
      Did(len, s, qs, Send(i, fd, frame, true), act, Step(s, act),
          PutSq(len, qs, i, SessBlock(s.works[i], BLK_DATA, fd, frame)))
  {
  }

  lemma TableIndices(s: Sys, i: int)
    requires Inv(s) && 0 <= i < |s.works| && s.works[i].misread == []
    ensures forall fd :: fd in s.works[i].table ==> s.works[i].table[fd].idx == i
  {
    assert WorkInv(s, i);
  }

  lemma RefusalUpdates(s: Sys, i: int, finish: bool, room: bool)
    requires Inv(s) && 0 <= i < |s.works| && s.works[i].rq != [] && !s.works[i].wrecked && Refuses(s.works[i])
    ensures var s' := Step(s, TurnRecv(i, finish, room));
      && Inv(s') && s' == s.(works := s.works[i := Session.Refuse(s.works[i], s.works[i].rq[0], room)])
      && HeardMatches(s.works[i], s'.works[i], [])
  {
    RecvTurnKeeps(s, i, finish, room);
    NothingHeard(s, i);
  }

  lemma NothingHeard(s: Sys, i: int)
    requires Inv(s) && 0 <= i < |s.works|
    ensures HeardMatches(s.works[i], s.works[i], [])
  {
    assert WorkInv(s, i);
  }

  predicate AtWorker(a: Act) {
    a.TurnRecv? || a.EndSession? || a.Send?
  }

  /** The event is a turn of a worker's loop that reads inside a block. */
  predicate InsideTurn(s: Sys, op: Act) {
    op.TurnRecv? && 0 <= op.i < |s.works| && s.works[op.i].wrecked
  }

  /** Descriptors are C ints, and so are the sums that mq_push works with. */
  predicate Fitting(a: Act, queueLen: int) {
    match a
    case Accept(_, fd, _, _, _) => IsInt32(fd)
    case CutFrame(_, frame, _, _) => queueLen + BLK_HEAD_LEN + |frame| <= INT_MAX
    case Send(_, _, frame, _) => queueLen + BLK_HEAD_LEN + |frame| <= INT_MAX
    case TurnMisread(_, _, _, _) => false // not an event, but what may become of one
    case _ => true
  }

  /** The next OPEN is refused, and the CLOSE for the session it meets had been lost. */
  predicate RefusedAfterLoss(k: Work) {
    && k.rq != [] && Refused(k, k.rq[0]) && |k.rq[0].blk.data| == ADDR_LEN
    && LostClose(k.tried, k.rq[0].blk.fd, SessionOn(k.table, k.rq[0].blk.fd))
  }

  lemma RefusedOnlyAfterLoss(s: Sys, i: int)
    requires Inv(s) && 0 <= i < |s.works| && !s.works[i].wrecked
    requires s.works[i].rq != [] && Refused(s.works[i], s.works[i].rq[0])
    ensures RefusedAfterLoss(s.works[i])
  {
    var k := s.works[i];
    var m, b := k.rq[0], Before(k.tried, |k.done|);
    assert WorkInv(s, i);
    FrontIsReady(s.open, s.next, i, k);
    FrontIsRight(i, SeenAfter(k.done).link, k, m, b);
    LostBefore(k.tried, |k.done|, m.blk.fd, k.table[m.blk.fd].inc);
  }

  /** A turn that refuses nothing, as the switch and the pop make it up. */
  lemma HandledUpdates(s: Sys, i: int, finish: bool, room: bool, heard: seq<Heard>)
    requires Inv(s) && 0 <= i < |s.works| && s.works[i].rq != [] && !s.works[i].wrecked
    requires var k := s.works[i];
      var b := k.rq[0].blk;
      && !Refused(k, k.rq[0])
      && heard == if b.kind == BLK_DATA && b.fd in k.table then [Heard(b.fd, b.data)] else []
    ensures var k, s' := s.works[i], Step(s, TurnRecv(i, finish, room));
      var k1, c := Switched(k, k.rq[0], finish, room), MetBy(k, k.rq[0]);
      && k1.rq == k.rq && s'.works == s.works[i := k1][i := Session.PopRq(k1, c)]
      && Inv(s') && s'.open == s.open && s'.listen == s.listen
      && HeardMatches(k, s'.works[i], heard) && !s'.works[i].wrecked
  {
    RecvTurnUpdates(s, i, finish, room);
    SwitchThenPop(s.works[i], finish, room);
    TurnHeard(s.works[i], finish, room);
  }

  // ------------------------------------------------------------------------ all together

  datatype Net = Net(s: Sys, qs: seq<Rings>)

  function NewRings(): Rings {
    var f := Fifo(MEM_HEAD_LEN, MEM_HEAD_LEN, [], []);
    Rings(f, f)
  }

  function NewQueues(n: nat): seq<Rings> {
    seq(n, i => NewRings())
  }

  function Start(workers: nat, listen: map<int, int>): Net {
    Net(Init(workers, listen), NewQueues(workers))
  }

  function NetStep(len: int, net: Net, op: Act): Net
    requires Paired(net.s, net.qs)
  {
    Net(Step(net.s, Resolve(len, net.s, net.qs, op)), Flow(len, net.s, net.qs, op))
  }

  lemma NetStepKeeps(len: int, net: Net, op: Act)
    requires Inv(net.s) && |net.qs| == |net.s.works|
    ensures var r := NetStep(len, net, op); Inv(r.s) && |r.qs| == |r.s.works| == |net.s.works|
  {
    var act := Resolve(len, net.s, net.qs, op);
    StepKeeps(net.s, act);
    SameWorkers(net.s, act);
    FlowKeepsCount(len, net.s, net.qs, op);
  }

  lemma FlowKeepsCount(len: int, s: Sys, qs: seq<Rings>, op: Act)
    requires Paired(s, qs)
    ensures |Flow(len, s, qs, op)| == |qs|
  {
  }

  /** The protocol and its queues after the events ops, and the steps of the protocol that they
      were. Both depend on nothing but the events and the size of the queues. */
  ghost function NetAfter(len: int, net: Net, ops: seq<Act>): (r: Net)
    requires Inv(net.s) && |net.qs| == |net.s.works|
    ensures Inv(r.s) && |r.qs| == |r.s.works| == |net.s.works|
    decreases |ops|
  {
    if ops == [] then net
    else
      var r := NetAfter(len, net, ops[..|ops| - 1]);
      NetStepKeeps(len, r, ops[|ops| - 1]);
      NetStep(len, r, ops[|ops| - 1])
  }

  lemma SameWorkers(s: Sys, a: Act)
    requires Indexed(s)
    ensures |Step(s, a).works| == |s.works|
  {
  }

  ghost function Steps(len: int, net: Net, ops: seq<Act>): (acts: seq<Act>)
    requires Inv(net.s) && |net.qs| == |net.s.works|
    ensures |acts| == |ops|
    decreases |ops|
  {
    if ops == [] then []
    else
      var p, op := ops[..|ops| - 1], ops[|ops| - 1];
      var r := NetAfter(len, net, p);
      Steps(len, net, p) + [Resolve(len, r.s, r.qs, op)]
  }

  /** They are a run of the protocol. */
  lemma {:induction false} StepsAreARun(len: int, net: Net, ops: seq<Act>)
    requires Inv(net.s) && |net.qs| == |net.s.works|
    ensures Run(net.s, Steps(len, net, ops)) == NetAfter(len, net, ops).s
    decreases |ops|
  {
    if ops != [] {
      var p, op := ops[..|ops| - 1], ops[|ops| - 1];
      var r := NetAfter(len, net, p);
      StepsAreARun(len, net, p);
      RunMore(net.s, Steps(len, net, p), Resolve(len, r.s, r.qs, op));
    }
  }

  lemma OneMoreEvent(len: int, net: Net, ops: seq<Act>, op: Act)
    requires Inv(net.s) && |net.qs| == |net.s.works|
    ensures var r := NetAfter(len, net, ops);
      && NetAfter(len, net, ops + [op]) == NetStep(len, r, op)
      && Steps(len, net, ops + [op]) == Steps(len, net, ops) + [Resolve(len, r.s, r.qs, op)]
  {
    assert (ops + [op])[..|ops|] == ops;
  }

  // ------------------------------------------------------------------------ the two loops

  /** What a worker has: its table, the blocks in its two queues, and the offsets of the second. */
  datatype Side = Side(fds: map<int, Sess>, rq: seq<Block>, sq: seq<Block>, head: int, tail: int)

  ghost predicate SideOf(w: Side, k: Work, q: Rings) {
    && TableIs(w.fds, k.table) && w.sq == Blocks(k.sq) && w.head == q.sq.head && w.tail == q.sq.tail
    && (!k.wrecked ==> w.rq == Blocks(k.rq))
  }

  /** One turn of the loop in handle_mq_recv: finish is what proc_cli_msg will return, r how the turn
      ends, heard what proc_cli_msg has been given. */
  ghost predicate TookTurn(len: int, w: Side, w': Side, finish: bool, r: Turn, heard: seq<Heard>) {
    if w.rq == [] then r == Empty && heard == [] && w'.rq == [] && w'.fds == w.fds && w'.sq == w.sq
    else
      var b := w.rq[0];
      var room := PushOutcome(w.head, w.tail, len, BLK_HEAD_LEN).0;
      if b.kind == BLK_DATA && b.fd in w.fds then
        && r == Handled && w'.rq == w.rq[1..] && heard == [Heard(b.fd, b.data)]
        && w'.fds == (if finish then w.fds - {b.fd} else w.fds)
        && w'.sq == w.sq + (if finish && room then [Block(w.fds[b.fd].id, b.fd, BLK_CLOSE, [])] else [])
      else if b.kind == BLK_OPEN && (b.fd in w.fds || |b.data| != ADDR_LEN) then
        && r == Refusal && heard == [] && w'.fds == w.fds
        && w'.sq == w.sq + (if room then [Block(b.id, b.fd, BLK_CLOSE, [])] else [])
      else
        && r == Handled && w'.rq == w.rq[1..] && heard == [] && w'.sq == w.sq
        && w'.fds == if b.kind == BLK_OPEN then w.fds[b.fd := Sess(b.id, b.data)]
                     else if b.kind == BLK_CLOSE then w.fds - {b.fd} else w.fds
  }

  function BlocksOut(ks: seq<Work>, n: nat): seq<Block>
    requires n <= |ks|
  {
    if n == 0 then [] else BlocksOut(ks, n - 1) + Blocks(ks[n - 1].sq)
  }

  lemma {:induction false} BlocksLen(q: seq<Msg>)
    ensures |Blocks(q)| == |q| && forall j :: 0 <= j < |q| ==> Blocks(q)[j] == q[j].blk
  {
    if q != [] {
      BlocksLen(q[1..]);
    }
  }

  lemma {:induction false} BlocksOutAt(ks: seq<Work>, i: nat, n: nat)
    requires i < n <= |ks|
    ensures |BlocksOut(ks, i)| + |ks[i].sq| == |BlocksOut(ks, i + 1)| <= |BlocksOut(ks, n)|
    ensures BlocksOut(ks, n)[|BlocksOut(ks, i)|..|BlocksOut(ks, i)| + |ks[i].sq|] == Blocks(ks[i].sq)
    decreases n
  {
    BlocksLen(ks[i].sq);
    var a, b := BlocksOut(ks, i), Blocks(ks[i].sq);
    OneQueueMore(ks, i);
    if i + 1 < n {
      BlocksOutAt(ks, i, n - 1);
      OneQueueMore(ks, n - 1);
      StaysThere(BlocksOut(ks, n - 1), Blocks(ks[n - 1].sq), |a|, |a| + |b|);
    } else {
      SecondPart(a, b);
    }
  }

  lemma OneQueueMore(ks: seq<Work>, n: nat)
    requires n < |ks|
    ensures BlocksOut(ks, n + 1) == BlocksOut(ks, n) + Blocks(ks[n].sq)
  {
  }

  lemma SecondPart(a: seq<Block>, b: seq<Block>)
    ensures (a + b)[|a|..|a| + |b|] == b
  {
  }

  lemma StaysThere(s: seq<Block>, t: seq<Block>, lo: nat, hi: nat)
    requires lo <= hi <= |s|
    ensures (s + t)[lo..hi] == s[lo..hi]
  {
  }

  /** The descriptors that the first n of these blocks close. */
  function ClosedBy(all: seq<Block>, broken: seq<bool>, n: nat): set<int>
    requires n <= |all|
  {
    set j | 0 <= j < n && (all[j].kind == BLK_CLOSE || (j < |broken| && broken[j])) :: all[j].fd
  }

  lemma ClosedByMore(fds: map<int, FdInfo>, all: seq<Block>, broken: seq<bool>, n: nat)
    requires n < |all|
    ensures var b, gone := all[n], ClosedBy(all, broken, n);
      fds - ClosedBy(all, broken, n + 1) ==
        if b.kind == BLK_CLOSE || (n < |broken| && broken[n]) then (fds - gone) - {b.fd} else fds - gone
  {
    var b, gone, gone' := all[n], ClosedBy(all, broken, n), ClosedBy(all, broken, n + 1);
    assert gone' == if b.kind == BLK_CLOSE || (n < |broken| && broken[n]) then gone + {b.fd} else gone;
  }

  /** Of the blocks all, those of one send queue start at n; it has come from q0 to q, and m blocks in
      all have been obeyed. */
  ghost predicate Obeying(q0: seq<Msg>, q: seq<Msg>, fds0: map<int, FdInfo>, fds: map<int, FdInfo>, all: seq<Block>, broken: seq<bool>, n: nat, m: nat) {
    && n + |q0| <= |all| && all[n..n + |q0|] == Blocks(q0)
    && n <= m && m + |q| == n + |q0| && q == q0[m - n..] && fds == fds0 - ClosedBy(all, broken, m)
  }

  lemma ObeyingMore(q0: seq<Msg>, q: seq<Msg>, fds0: map<int, FdInfo>, fds: map<int, FdInfo>, all: seq<Block>, broken: seq<bool>, n: nat, m: nat, fds': map<int, FdInfo>)
    requires Obeying(q0, q, fds0, fds, all, broken, n, m) && q != []
    requires var b := q[0].blk;
      fds' == if b.kind == BLK_CLOSE || (m < |broken| && broken[m]) then fds - {b.fd} else fds
    ensures Obeying(q0, q[1..], fds0, fds', all, broken, n, m + 1)
  {
    BlocksLen(q0);
    assert all[n..n + |q0|][m - n] == all[m];
    assert all[m] == q[0].blk;
    ClosedByMore(fds0, all, broken, m);
  }

  lemma ObeyingOn(q0: seq<Msg>, q: seq<Msg>, fds0: map<int, FdInfo>, fds: map<int, FdInfo>, all: seq<Block>, broken: seq<bool>, n: nat, m: nat, r: Turn, q': seq<Msg>, fds': map<int, FdInfo>)
    requires Obeying(q0, q, fds0, fds, all, broken, n, m) && (r == Empty <==> q == [])
    requires r == Empty ==> q' == [] && fds' == fds
    requires r != Empty ==>
               && q' == q[1..]
               && var b := q[0].blk;
                  fds' == if b.kind == BLK_CLOSE || (m < |broken| && broken[m]) then fds - {b.fd} else fds
    ensures Obeying(q0, q', fds0, fds', all, broken, n, if r == Empty then m else m + 1)
  {
    if r != Empty {
      ObeyingMore(q0, q, fds0, fds, all, broken, n, m, fds');
    }
  }

  /** The send queues of the first i workers have been emptied, the others not touched. */
  ghost predicate Drained(ks0: seq<Work>, ks: seq<Work>, i: nat, fds0: map<int, FdInfo>, fds: map<int, FdInfo>, all: seq<Block>, broken: seq<bool>, n: nat) {
    && i <= |ks0| == |ks| && all == BlocksOut(ks0, |ks0|)
    && n == |BlocksOut(ks0, i)| <= |all| && fds == fds0 - ClosedBy(all, broken, n)
    && (forall j :: 0 <= j < i ==> ks[j].sq == []) && (forall j :: i <= j < |ks| ==> ks[j].sq == ks0[j].sq)
  }

  lemma DrainedNone(ks: seq<Work>, fds: map<int, FdInfo>, broken: seq<bool>)
    ensures Drained(ks, ks, 0, fds, fds, BlocksOut(ks, |ks|), broken, 0)
  {
    assert fds - {} == fds && ClosedBy(BlocksOut(ks, |ks|), broken, 0) == {};
  }

  lemma DrainedMore(ks0: seq<Work>, ks: seq<Work>, i: nat, fds0: map<int, FdInfo>, fds: map<int, FdInfo>, all: seq<Block>, broken: seq<bool>, n: nat, ks': seq<Work>, fds': map<int, FdInfo>, m: nat)
    requires Drained(ks0, ks, i, fds0, fds, all, broken, n) && i < |ks0| == |ks'| && ks'[i].sq == []
    requires forall j :: 0 <= j < |ks| && j != i ==> ks'[j].sq == ks[j].sq
    requires Obeying(ks0[i].sq, [], fds0, fds', all, broken, n, m)
    ensures Drained(ks0, ks', i + 1, fds0, fds', all, broken, m)
  {
    BlocksOutAt(ks0, i, |ks0|);
  }

  /** The protocol's turn, seen from the worker. */
  lemma TurnTaken(len: int, k: Work, q: Rings, w: Side, finish: bool, room: bool, k': Work, q': Rings, w': Side)
    requires SideOf(w, k, q) && SideOf(w', k', q') && k.rq != [] && !k.wrecked
    requires room == (Ends(k, finish) || Refuses(k) ==> RoomIn(len, q.sq, BLK_HEAD_LEN))
    requires k' == Session.RecvTurn(k, finish, room)
    ensures TookTurn(len, w, w', finish, if Refuses(k) then Refusal else Handled, HeardFrom(k))
  {
    var m := k.rq[0];
    assert w.rq[0] == m.blk && w.rq[1..] == Blocks(k.rq[1..]);
    if Refuses(k) {
      BlocksMore(k.sq, CloseMsg(m.blk.id, m.blk.fd, m.inc));
    } else if Ends(k, finish) {
      var c := k.table[m.blk.fd];
      BlocksMore(k.sq, CloseMsg(c.idx, m.blk.fd, c.inc));
    }
    assert w.sq + [] == w.sq;
    TableAfter(k, w.fds, k', w'.fds, finish, room);
  }

  lemma NothingTaken(len: int, k: Work, q: Rings, w: Side, q': Rings, w': Side, finish: bool)
    requires SideOf(w, k, q) && SideOf(w', k, q') && k.rq == [] && !k.wrecked
    ensures TookTurn(len, w, w', finish, Empty, HeardFrom(k))
  {
    OneTable(w.fds, w'.fds, k.table);
  }

  lemma OneTable(fds: map<int, Sess>, fds': map<int, Sess>, table: map<int, Conn>)
    requires TableIs(fds, table) && TableIs(fds', table)
    ensures fds == fds'
  {
    assert fds.Keys == fds'.Keys;
    assert forall fd :: fd in fds ==> fd in fds' && fds[fd] == fds'[fd];
  }

  lemma TableAfter(k: Work, fds: map<int, Sess>, k': Work, fds': map<int, Sess>, finish: bool, room: bool)
    requires k.rq != [] && TableIs(fds, k.table) && TableIs(fds', k'.table) && k' == Session.RecvTurn(k, finish, room)
    ensures var b := k.rq[0].blk;
      fds' == if b.kind == BLK_DATA && b.fd in fds && finish then fds - {b.fd}
              else if b.kind == BLK_OPEN && b.fd !in fds && |b.data| == ADDR_LEN then fds[b.fd := Sess(b.id, b.data)]
              else if b.kind == BLK_CLOSE then fds - {b.fd} else fds
  {
    var b := k.rq[0].blk;
    OneTable(if b.kind == BLK_DATA && b.fd in fds && finish then fds - {b.fd}
             else if b.kind == BLK_OPEN && b.fd !in fds && |b.data| == ADDR_LEN then fds[b.fd := Sess(b.id, b.data)]
             else if b.kind == BLK_CLOSE then fds - {b.fd} else fds, fds', k'.table);
  }

  function HeardFrom(k: Work): seq<Heard> {
    if k.rq != [] && k.rq[0].blk.kind == BLK_DATA && k.rq[0].blk.fd in k.table then [Heard(k.rq[0].blk.fd, k.rq[0].blk.data)] else []
  }

  /** A record of one turn: before it, what proc_cli_msg was to return, how it ended, what it was
      given, and after it. */
  datatype Log = Log(before: Side, finish: bool, r: Turn, heard: seq<Heard>, after: Side)

  function TurnsOf(i: int, log: seq<Log>): seq<Act> {
    seq(|log|, j requires 0 <= j < |log| => TurnRecv(i, log[j].finish, true))
  }

  function HeardIn(log: seq<Log>): seq<Heard> {
    if log == [] then [] else HeardIn(log[..|log| - 1]) + log[|log| - 1].heard
  }

  /** The turns in log lead from w to w', one after the other; proc_cli_msg returns what finish says,
      and 0 beyond; none but the last finds nothing, or refuses an OPEN. */
  ghost predicate Logged(len: int, w: Side, finish: seq<bool>, log: seq<Log>, w': Side) {
    && (forall j :: 0 <= j < |log| ==> log[j].finish == (j < |finish| && finish[j]))
    && (forall j :: 0 <= j < |log| ==> Explained(len, log[j]))
    && (forall j :: 0 <= j < |log| - 1 ==> log[j].after == log[j + 1].before && log[j].r == Handled)
    && (if log == [] then w' == w else log[0].before == w && log[|log| - 1].after == w')
  }

  ghost predicate Explained(len: int, x: Log) {
    TookTurn(len, x.before, x.after, x.finish, x.r, x.heard)
  }

  /** How far a loop is that has taken the turns in log, the last of which has ended with r. */
  ghost predicate Counted(w: Side, log: seq<Log>, r: Turn, rq: seq<Block>) {
    && (if log == [] then r == Handled else log[|log| - 1].r == r)
    && (r != Refusal ==> |log| + |rq| == |w.rq| + (if r == Empty then 1 else 0)) && (r == Empty ==> rq == [])
  }

  lemma {:induction false} LoggedMore(len: int, w: Side, finish: seq<bool>, log: seq<Log>, w': Side, x: Log)
    requires Logged(len, w, finish, log, w') && (log != [] ==> log[|log| - 1].r == Handled)
    requires x.before == w' && x.finish == (|log| < |finish| && finish[|log|]) && Explained(len, x)
    ensures Logged(len, w, finish, log + [x], x.after) && HeardIn(log + [x]) == HeardIn(log) + x.heard
  {
    var log' := log + [x];
    assert log'[..|log|] == log && log'[|log|] == x;
    assert forall j :: 0 <= j < |log| ==> log'[j] == log[j];
  }

  /** The turns in log, of worker i's loop, lead from net0 to net. */
  ghost predicate Turned(len: int, net0: Net, net: Net, i: int, log: seq<Log>)
    requires Inv(net0.s) && |net0.qs| == |net0.s.works|
  {
    && 0 <= i < |net0.s.works| && i < |net.s.works|
    && net == NetAfter(len, net0, TurnsOf(i, log))
    && HeardMatches(net0.s.works[i], net.s.works[i], HeardIn(log))
  }

  lemma NothingTurned(len: int, net: Net, i: int)
    requires Inv(net.s) && |net.qs| == |net.s.works| && 0 <= i < |net.s.works|
    ensures Turned(len, net, net, i, [])
  {
    NothingHeard(net.s, i);
    assert TurnsOf(i, []) == [];
  }

  lemma OneTurned(len: int, net0: Net, net: Net, i: int, log: seq<Log>, x: Log, act: Act, net': Net)
    requires Inv(net0.s) && |net0.qs| == |net0.s.works| && Turned(len, net0, net, i, log)
    requires Did(len, net.s, net.qs, TurnRecv(i, x.finish, true), act, net'.s, net'.qs)
    requires i < |net'.s.works| && HeardMatches(net.s.works[i], net'.s.works[i], x.heard)
    ensures Turned(len, net0, net', i, log + [x])
  {
    OneMoreTurn(len, net0, net, i, log, x, act, net');
    assert (log + [x])[..|log|] == log;
    HeardInTwo(net0.s.works[i], net.s.works[i], net'.s.works[i], HeardIn(log), x.heard);
  }

  lemma TurnsMore(i: int, log: seq<Log>, x: Log)
    ensures TurnsOf(i, log + [x]) == TurnsOf(i, log) + [TurnRecv(i, x.finish, true)]
  {
  }

  lemma DidIsNetStep(len: int, net: Net, op: Act, act: Act, net': Net)
    requires Did(len, net.s, net.qs, op, act, net'.s, net'.qs)
    ensures net' == NetStep(len, net, op)
  {
  }

  lemma OneMoreTurn(len: int, net0: Net, net: Net, i: int, log: seq<Log>, x: Log, act: Act, net': Net)
    requires Inv(net0.s) && |net0.qs| == |net0.s.works| && net == NetAfter(len, net0, TurnsOf(i, log))
    requires Did(len, net.s, net.qs, TurnRecv(i, x.finish, true), act, net'.s, net'.qs)
    ensures net' == NetAfter(len, net0, TurnsOf(i, log + [x]))
  {
    var op := TurnRecv(i, x.finish, true);
    DidIsNetStep(len, net, op, act, net');
    TurnsMore(i, log, x);
    OneMoreEvent(len, net0, TurnsOf(i, log), op);
  }

  /** A turn that refuses nothing takes one block off the receive queue. */
  lemma TurnShrinks(s: Sys, i: int, finish: bool, room: bool)
    requires Inv(s) && 0 <= i < |s.works| && s.works[i].rq != [] && !s.works[i].wrecked
    ensures var s' := Step(s, TurnRecv(i, finish, room));
      |s'.works| == |s.works| && (!s'.works[i].wrecked ==> |s'.works[i].rq| == |s.works[i].rq| - 1)
  {
    RecvTurnUpdates(s, i, finish, room);
    if !Session.RecvTurn(s.works[i], finish, room).wrecked {
      RecvTurnShrinks(s.works[i], finish, room);
    }
  }

  /** Messages cut from one connection. */
  function Cuts(fd: int, frames: seq<Frame>): seq<Act> {
    seq(|frames|, j requires 0 <= j < |frames| => CutFrame(fd, frames[j], true, true))
  }

  /** The messages in frames, cut from one connection, lead from net0 to net. */
  ghost predicate AfterCuts(len: int, net0: Net, net: Net, fd: int, frames: seq<Frame>) {
    Inv(net0.s) && |net0.qs| == |net0.s.works| && net == NetAfter(len, net0, Cuts(fd, frames))
  }

  lemma NoCuts(len: int, net: Net, fd: int)
    requires Inv(net.s) && |net.qs| == |net.s.works|
    ensures AfterCuts(len, net, net, fd, [])
  {
    assert Cuts(fd, []) == [];
  }

  lemma CutMore(len: int, net0: Net, net: Net, fd: int, frames: seq<Frame>, frame: Frame, act: Act, net': Net)
    requires AfterCuts(len, net0, net, fd, frames)
    requires Did(len, net.s, net.qs, CutFrame(fd, frame, true, true), act, net'.s, net'.qs)
    ensures AfterCuts(len, net0, net', fd, frames + [frame])
  {
    var op := CutFrame(fd, frame, true, true);
    DidIsNetStep(len, net, op, act, net');
    assert Cuts(fd, frames + [frame]) == Cuts(fd, frames) + [op];
    OneMoreEvent(len, net0, Cuts(fd, frames), op);
  }

  /** If the connection is still there, its messages are the newest blocks in its worker's queue. */
  lemma {:induction false} CutsQueued(len: int, net0: Net, net: Net, fd: int, frames: seq<Frame>)
    requires AfterCuts(len, net0, net, fd, frames) && fd in net.s.open && fd !in net0.s.listen
    ensures fd in net0.s.open && net.s.open == net0.s.open && net.s.listen == net0.s.listen
    ensures var i := net.s.open[fd].idx;
      && 0 <= i < |net.s.works| == |net0.s.works| && net.s.works[i].wrecked == net0.s.works[i].wrecked
      && Blocks(net.s.works[i].rq) == Blocks(net0.s.works[i].rq) + DataBlocks(i, fd, frames)
    decreases |frames|
  {
    if frames == [] {
      NoneQueued(len, net0, net, fd);
    } else {
      var p, last := frames[..|frames| - 1], frames[|frames| - 1];
      assert frames == p + [last];
      var mid := LastCutQueues(len, net0, net, fd, p, last);
      CutsQueued(len, net0, mid, fd, p);
      DataBlocksMore(net.s.open[fd].idx, fd, p, last);
    }
  }

  lemma LastCutQueues(len: int, net0: Net, net: Net, fd: int, p: seq<Frame>, last: Frame) returns (mid: Net)
    requires AfterCuts(len, net0, net, fd, p + [last]) && fd in net.s.open
    ensures AfterCuts(len, net0, mid, fd, p)
    ensures fd in mid.s.open && net.s.open == mid.s.open && net.s.listen == mid.s.listen
    ensures var i := mid.s.open[fd].idx;
      && 0 <= i < |net.s.works| == |mid.s.works| && net.s.works[i].wrecked == mid.s.works[i].wrecked
      && Blocks(net.s.works[i].rq) == Blocks(mid.s.works[i].rq) + [Block(i, fd, BLK_DATA, last)]
  {
    mid := CutsInTwo(len, net0, net, fd, p, last);
    CutQueues(len, mid, net, fd, last);
  }

  lemma NoneQueued(len: int, net0: Net, net: Net, fd: int)
    requires AfterCuts(len, net0, net, fd, [])
    ensures net == net0
    ensures forall i, q: seq<Block> :: q + DataBlocks(i, fd, []) == q
  {
    NoCuts(len, net0, fd);
    assert forall q: seq<Block> :: q + [] == q;
  }

  lemma CutsInTwo(len: int, net0: Net, net: Net, fd: int, p: seq<Frame>, last: Frame) returns (mid: Net)
    requires AfterCuts(len, net0, net, fd, p + [last])
    ensures AfterCuts(len, net0, mid, fd, p) && Inv(mid.s) && Paired(mid.s, mid.qs)
    ensures net == NetStep(len, mid, CutFrame(fd, last, true, true))
  {
    mid := NetAfter(len, net0, Cuts(fd, p));
    assert Cuts(fd, p + [last]) == Cuts(fd, p) + [CutFrame(fd, last, true, true)];
    OneMoreEvent(len, net0, Cuts(fd, p), CutFrame(fd, last, true, true));
  }

  function DataBlocks(i: int, fd: int, frames: seq<Frame>): seq<Block> {
    seq(|frames|, j requires 0 <= j < |frames| => Block(i, fd, BLK_DATA, frames[j]))
  }

  lemma DataBlocksMore(i: int, fd: int, frames: seq<Frame>, frame: Frame)
    ensures DataBlocks(i, fd, frames + [frame]) == DataBlocks(i, fd, frames) + [Block(i, fd, BLK_DATA, frame)]
  {
  }

  lemma CutQueues(len: int, net: Net, net': Net, fd: int, frame: Frame)
    requires Inv(net.s) && Paired(net.s, net.qs) && net' == NetStep(len, net, CutFrame(fd, frame, true, true)) && fd in net'.s.open
    ensures fd in net.s.open && net'.s.open == net.s.open && net'.s.listen == net.s.listen
    ensures var i := net.s.open[fd].idx;
      && 0 <= i < |net'.s.works| == |net.s.works| && net'.s.works[i].wrecked == net.s.works[i].wrecked
      && Blocks(net'.s.works[i].rq) == Blocks(net.s.works[i].rq) + [Block(i, fd, BLK_DATA, frame)]
  {
    assert FdInv(net.s, fd);
    var c := net.s.open[fd];
    BlocksMore(net.s.works[c.idx].rq, DataMsg(c.idx, fd, frame, c.inc));
  }

  lemma OneEvent(len: int, net: Net, op: Act)
    requires Inv(net.s) && |net.qs| == |net.s.works|
    ensures NetAfter(len, net, [op]) == NetStep(len, net, op)
  {
    assert [] + [op] == [op];
    OneMoreEvent(len, net, [], op);
  }

  /** The messages in pushed were pushed, and the next one, which is all there, found no room. */
  ghost predicate Stopped(len: int, g: MsgLen, net0: Net, net: Net, fd: int, all: seq<Byte>, msglen: nat, pushed: seq<Frame>)
    requires NonNegative(g)
  {
    && all != []
    && var p := PushTurns(g, all, msglen, |pushed|, []);
       && !p.ok && p.frames == pushed && p.msglen <= |p.buf|
       && AfterCuts(len, net0, net, fd, pushed + [p.buf[..p.msglen]])
  }

  lemma NoRoomForNext(len: int, g: MsgLen, net0: Net, net: Net, fd: int, all: seq<Byte>, msglen0: nat, pushed: seq<Frame>, rest: seq<Byte>, msglen: nat)
    requires NonNegative(g) && Leads(g, all, msglen0, pushed, rest, msglen)
    requires var m := if msglen == 0 then g(rest) else msglen;
      m <= |rest| && AfterCuts(len, net0, net, fd, pushed + [rest[..m]])
    ensures Stopped(len, g, net0, net, fd, all, msglen0, pushed)
  {
    LeadsOn(g, all, msglen0, pushed, rest, msglen);
  }

  /** The bytes that pushes can still go to, before the reader moves on. */
  function SpaceIn(len: int, f: Fifo): int {
    if f.tail <= f.head then len - f.head + f.tail else f.tail - f.head
  }

  lemma PushTakesSpace(len: int, f: Fifo, b: Block)
    requires MEM_HEAD_LEN <= f.head < len && MEM_HEAD_LEN <= f.tail <= len && RoomIn(len, f, b.Len())
    ensures 0 <= SpaceIn(len, f.AfterPush(len, b)) < SpaceIn(len, f)
  {
  }

  lemma CutTakesSpace(len: int, s: Sys, qs: seq<Rings>, fd: int, frame: Frame)
    requires Paired(s, qs) && fd in s.open && fd !in s.listen
    requires var f := qs[s.open[fd].idx].rq; MEM_HEAD_LEN <= f.head < len && MEM_HEAD_LEN <= f.tail <= len
    requires var act := Resolve(len, s, qs, CutFrame(fd, frame, true, true)); act.CutFrame? && act.room
    ensures var i, qs' := s.open[fd].idx, Flow(len, s, qs, CutFrame(fd, frame, true, true));
      |qs'| == |qs| && 0 <= SpaceIn(len, qs'[i].rq) < SpaceIn(len, qs[i].rq)
  {
    PushTakesSpace(len, qs[s.open[fd].idx].rq, DataBlock(s, fd, frame));
  }

  /** ops are turns of handle_mq_send that lead from net0 to net. */
  ghost predicate Sent(len: int, net0: Net, net: Net, ops: seq<Act>)
    requires Inv(net0.s) && |net0.qs| == |net0.s.works|
  {
    net == NetAfter(len, net0, ops) && |net.s.works| == |net0.s.works| && forall op :: op in ops ==> op.TurnSend?
  }

  lemma OneSent(len: int, net0: Net, net: Net, ops: seq<Act>, i: int, broken: bool, act: Act, net': Net)
    requires Inv(net0.s) && |net0.qs| == |net0.s.works| && Sent(len, net0, net, ops)
    requires Inv(net.s) && 0 <= i < |net.s.works| && net.s.works[i].sq != []
    requires Did(len, net.s, net.qs, TurnSend(i, broken, true), act, net'.s, net'.qs)
    ensures Sent(len, net0, net', ops + [TurnSend(i, broken, true)])
    ensures net'.s.works[i].sq == net.s.works[i].sq[1..]
    ensures forall j :: 0 <= j < |net.s.works| && j != i ==> net'.s.works[j].sq == net.s.works[j].sq
  {
    SentMore(len, net0, net, ops, i, broken, act, net');
    SendTurnPops(net.s, i, broken, act.room);
  }

  lemma SendTurnPops(s: Sys, i: int, broken: bool, room: bool)
    requires Indexed(s) && MasterInv(s) && 0 <= i < |s.works| && s.works[i].sq != []
    ensures var s' := Step(s, TurnSend(i, broken, room));
      && |s'.works| == |s.works| && s'.works[i].sq == s.works[i].sq[1..]
      && forall j :: 0 <= j < |s.works| && j != i ==> s'.works[j].sq == s.works[j].sq
  {
    CloseEffect(s, s.works[i].sq[0].blk.fd, room);
  }

  /** A turn that found nothing is a turn, too. */
  lemma OneEmpty(len: int, net0: Net, net: Net, ops: seq<Act>, i: int, broken: bool, act: Act, net': Net)
    requires Inv(net0.s) && |net0.qs| == |net0.s.works| && Sent(len, net0, net, ops)
    requires Inv(net.s) && 0 <= i < |net.s.works| && net.s.works[i].sq == []
    requires Did(len, net.s, net.qs, TurnSend(i, broken, true), act, net'.s, net'.qs)
    ensures Sent(len, net0, net', ops + [TurnSend(i, broken, true)]) && net'.s == net.s
  {
    SentMore(len, net0, net, ops, i, broken, act, net');
    StepOfNothing(net.s, act);
  }

  lemma SentMore(len: int, net0: Net, net: Net, ops: seq<Act>, i: int, broken: bool, act: Act, net': Net)
    requires Inv(net0.s) && |net0.qs| == |net0.s.works| && Sent(len, net0, net, ops)
    requires Did(len, net.s, net.qs, TurnSend(i, broken, true), act, net'.s, net'.qs)
    ensures Sent(len, net0, net', ops + [TurnSend(i, broken, true)])
  {
    OneMoreEvent(len, net0, ops, TurnSend(i, broken, true));
  }

  lemma StepOfNothing(s: Sys, a: Act)
    requires Indexed(s) && !Can(s, a)
    ensures Step(s, a) == s
  {
  }

  /** One turn of a loop that drains a queue. */
  datatype Turn = Empty | Handled | Refusal

  /** The objects of each worker are its own: owner gives its index. */
  ghost predicate Apart(works: seq<Worker>, owner: map<object, int>, queueLen: int) {
    forall i :: 0 <= i < |works| ==>
      && (forall o :: o in works[i].Foot() ==> o in owner && owner[o] == i)
      && works[i].rq.mem.Length == works[i].sq.mem.Length == queueLen
  }

  lemma ApartMore(works: seq<Worker>, owner: map<object, int>, w: Worker, queueLen: int)
    requires Apart(works, owner, queueLen) && w.Foot() !! owner.Keys
    requires w.rq.mem.Length == w.sq.mem.Length == queueLen
    ensures Apart(works + [w], owner + map o | o in w.Foot() :: |works|, queueLen)
  {
    var works', owner' := works + [w], owner + map o | o in w.Foot() :: |works|;
    forall i | 0 <= i < |works'| ensures forall o :: o in works'[i].Foot() ==> o in owner' && owner'[o] == i {
      if i < |works| {
        assert works'[i] == works[i];
      }
    }
  }

  method NewWorkers(n: nat, queueLen: int) returns (works: seq<Worker>, ghost owner: map<object, int>)
    requires MEM_HEAD_LEN < queueLen <= INT_MAX - BLK_HEAD_LEN
    ensures |works| == n && Apart(works, owner, queueLen) && fresh(owner.Keys)
    ensures forall i :: 0 <= i < n ==> works[i].Is(NewWork(), NewRings())
  {
    works, owner := [], map[];
    for i := 0 to n
      invariant |works| == i && Apart(works, owner, queueLen) && fresh(owner.Keys)
      invariant forall j :: 0 <= j < i ==> works[j].Is(NewWork(), NewRings())
    {
      var w := new Worker(queueLen);
      ApartMore(works, owner, w, queueLen);
      works := works + [w];
      owner := owner + map o | o in w.Foot() :: i;
    }
  }

  /** The master and its workers. */
  class Process {
    const works: seq<Worker>
    const queueLen: int
    ghost const owner: map<object, int>
    var fds: map<int, FdInfo>
    /** The state of the protocol that the bytes and tables stand for, and the queues' offsets. */
    ghost var s: Sys
    ghost var qs: seq<Rings>

    /** The workers' bytes and tables are those of ks, and their queues come to rs. */
    ghost predicate Are(ks: seq<Work>, rs: seq<Rings>)
      reads owner.Keys
    {
      && Apart(works, owner, queueLen) && |ks| == |rs| == |works|
      && (forall i {:trigger works[i].Is(ks[i], rs[i])} :: 0 <= i < |works| ==> works[i].Is(ks[i], rs[i]))
    }

    ghost predicate Sizes() {
      && MEM_HEAD_LEN < queueLen <= INT_MAX - BLK_HEAD_LEN - ADDR_LEN && |works| <= INT_MAX
      && this !in owner.Keys
    }

    ghost predicate Valid()
      reads this, owner.Keys
    {
      Sizes() && Are(s.works, qs) && Inv(s) && FdsAre(fds, s) && Paired(s, qs)
    }

    constructor (workers: nat, listen: map<int, int>, queueLen: int)
      requires workers <= INT_MAX && MEM_HEAD_LEN < queueLen <= INT_MAX - BLK_HEAD_LEN - ADDR_LEN
      requires Setup(workers, listen) && forall l :: l in listen ==> IsInt32(l)
      ensures Valid() && fresh(owner.Keys) && this.queueLen == queueLen
      ensures s == Init(workers, listen) && qs == NewQueues(workers)
    {
      var ws, ow := NewWorkers(workers, queueLen);
      works, owner, this.queueLen := ws, ow, queueLen;
      fds := map l | l in listen :: FdInfo(true, listen[l], []);
      s := Init(workers, listen);
      qs := NewQueues(workers);
      new;
      InitInv(workers, listen);
      InitFds(workers, listen);
      forall i | 0 <= i < |works| ensures works[i].Is(s.works[i], qs[i]) {
        assert s.works[i] == NewWork() && qs[i] == NewRings();
      }
    }

    /** Worker i stands inside the block that was the front of its receive queue. */
    ghost predicate AtInside(i: int, was: Fifo)
      requires 0 <= i < |works|
      reads works[i].rq, works[i].rq.mem
    {
      Inside(works[i].rq.mem[..], works[i].rq.head, works[i].rq.tail, was)
    }

    method Become(newFds: map<int, FdInfo>, ghost newState: Sys, ghost newQs: seq<Rings>)
      requires Sizes() && Are(newState.works, newQs) && Inv(newState) && FdsAre(newFds, newState)
      modifies this
      ensures Valid() && s == newState && qs == newQs && fds == newFds
    {
      fds, s, qs := newFds, newState, newQs;
    }

    /** A step that leaves the master's table alone. */
    method Move(ghost newState: Sys, ghost newQs: seq<Rings>)
      requires Sizes() && FdsAre(fds, s) && Are(newState.works, newQs) && Inv(newState)
      requires newState.listen == s.listen && newState.open == s.open
      modifies `s, `qs
      ensures Valid() && s == newState && qs == newQs
    {
      SameFds(fds, s, newState);
      s, qs := newState, newQs;
    }

    // ------------------------------------------------------------- one worker at a time

    twostate lemma OthersStay(new i: int, new ks: seq<Work>, new rs: seq<Rings>, new k: Work, new r: Rings)
      requires old(Are(ks, rs)) && 0 <= i < |works| && works[i].Is(k, r)
      requires forall o :: o in owner.Keys && owner[o] != i ==> unchanged(o)
      ensures Are(ks[i := k], rs[i := r])
    {
      forall j | 0 <= j < |works| && j != i ensures works[j].Is(ks[j], rs[j]) {
        var w := works[j];
        assert w in w.Foot() && w.rq in w.Foot() && w.rq.mem in w.Foot() && w.sq in w.Foot() && w.sq.mem in w.Foot();
        assert unchanged(w) && unchanged(w.rq) && unchanged(w.rq.mem) && unchanged(w.sq) && unchanged(w.sq.mem);
        assert old(w.Is(ks[j], rs[j]));
      }
    }

    /** What a worker's own variables are in the protocol. */
    lemma Known(i: int)
      requires Valid() && 0 <= i < |works|
      ensures |s.works| == |works| && works[i].Foot() <= owner.Keys
      ensures works[i].astray == s.works[i].wrecked && s.works[i].misread == []
      ensures SideOf(works[i].Shows(), s.works[i], qs[i])
    {
      assert works[i].Is(s.works[i], qs[i]);
    }

    /** mq_push to a receive queue. */
    method Tell(i: int, b: Block, ghost m: Msg, ghost ks: seq<Work>, ghost rs: seq<Rings>) returns (ok: bool)
      requires Are(ks, rs) && 0 <= i < |works| && m.blk == b && b.Storable() && queueLen + b.Len() <= INT_MAX
      modifies works[i].rq, works[i].rq.mem
      ensures ok == RoomIn(queueLen, rs[i].rq, b.Len())
      ensures !works[i].astray ==>
                works[i].rq.Contents() == if ok then old(works[i].rq.Contents()) + [b] else old(works[i].rq.Contents())
      ensures Are(ks[i := Session.Tell(ks[i], m, ok)], PutRq(queueLen, rs, i, b))
    {
      ok := works[i].PushRq(b, m, ks[i], rs[i]);
      assert forall o :: o in works[i].Foot() ==> owner[o] == i;
      OthersStay(i, ks, rs, Session.Tell(ks[i], m, ok), rs[i].(rq := rs[i].rq.AfterPush(queueLen, b)));
    }

    /** mq_push to a send queue. */
    method Answer(i: int, b: Block, ghost m: Msg, ghost ks: seq<Work>, ghost rs: seq<Rings>) returns (ok: bool)
      requires Are(ks, rs) && 0 <= i < |works| && m.blk == b && b.Storable() && queueLen + b.Len() <= INT_MAX
      modifies works[i].sq, works[i].sq.mem
      ensures ok == RoomIn(queueLen, rs[i].sq, b.Len())
      ensures works[i].sq.Contents() == if ok then old(works[i].sq.Contents()) + [b] else old(works[i].sq.Contents())
      ensures Are(ks[i := Session.PushSq(ks[i], m, ok)], PutSq(queueLen, rs, i, b))
    {
      ok := works[i].PushSq(b, m, ks[i], rs[i]);
      assert forall o :: o in works[i].Foot() ==> owner[o] == i;
      OthersStay(i, ks, rs, Session.PushSq(ks[i], m, ok), rs[i].(sq := rs[i].sq.AfterPush(queueLen, b)));
    }

    method LookAtSendQueue(i: int, ghost ks: seq<Work>, ghost rs: seq<Rings>) returns (b: Option)
      requires Are(ks, rs) && 0 <= i < |works|
      modifies works[i].sq
      ensures Are(ks, GotSq(rs, i)) && b == (if ks[i].sq == [] then None else Some(ks[i].sq[0].blk))
      ensures ks[i].sq != [] ==> rs[i].sq.AfterGet().front != []
    {
      b := works[i].GetSq(ks[i], rs[i]);
      assert forall o :: o in works[i].Foot() ==> owner[o] == i;
      OthersStay(i, ks, rs, ks[i], rs[i].(sq := rs[i].sq.AfterGet()));
      assert ks[i := ks[i]] == ks;
    }

    method PopSendQueue(i: int, ghost ks: seq<Work>, ghost rs: seq<Rings>)
      requires Are(ks, rs) && 0 <= i < |works| && rs[i].sq.front != [] && ks[i].sq != []
      modifies works[i].sq
      ensures Are(ks[i := ks[i].(sq := ks[i].sq[1..])], PoppedSq(rs, i))
    {
      works[i].PopSq(ks[i], rs[i]);
      assert forall o :: o in works[i].Foot() ==> owner[o] == i;
      OthersStay(i, ks, rs, ks[i].(sq := ks[i].sq[1..]), rs[i].(sq := rs[i].sq.AfterPop()));
    }

    method LookAtRecvQueue(i: int, ghost ks: seq<Work>, ghost rs: seq<Rings>) returns (b: Option)
      requires Are(ks, rs) && 0 <= i < |works| && !ks[i].wrecked
      modifies works[i].rq
      ensures Are(ks, GotRq(rs, i)) && b == (if ks[i].rq == [] then None else Some(ks[i].rq[0].blk))
      ensures ks[i].rq != [] ==>
        var f := rs[i].rq.AfterGet().front;
        f != [] && f[0] == ks[i].rq[0].blk && f[0].Storable()
    {
      b := works[i].GetRq(ks[i], rs[i]);
      assert forall o :: o in works[i].Foot() ==> owner[o] == i;
      OthersStay(i, ks, rs, ks[i], rs[i].(rq := rs[i].rq.AfterGet()));
      assert ks[i := ks[i]] == ks;
    }

    method PopRecvQueue(i: int, ghost met: nat, ghost ks: seq<Work>, ghost rs: seq<Rings>)
      requires Are(ks, rs) && 0 <= i < |works| && !ks[i].wrecked && rs[i].rq.front != [] && ks[i].rq != []
      modifies works[i].rq
      ensures Are(ks[i := Session.PopRq(ks[i], met)], PoppedRq(rs, i))
    {
      works[i].PopRq(met, ks[i], rs[i]);
      assert forall o :: o in works[i].Foot() ==> owner[o] == i;
      OthersStay(i, ks, rs, Session.PopRq(ks[i], met), rs[i].(rq := rs[i].rq.AfterPop()));
    }

    /** do_blk_open and do_blk_close in worker i. */
    method Control(i: int, b: Block, ghost m: Msg, ghost ks: seq<Work>, ghost rs: seq<Rings>) returns (r: int)
      requires Are(ks, rs) && 0 <= i < |works| && m.blk == b && (b.kind == BLK_OPEN || b.kind == BLK_CLOSE) && IsInt32(b.fd)
      modifies works[i]
      ensures Are(ks[i := Switched(ks[i], m, false, true)], rs)
      ensures b.kind == BLK_OPEN ==> r == if Session.DoBlkOpen(ks[i], m).0 then 0 else -1
    {
      if b.kind == BLK_OPEN {
        r := works[i].DoBlkOpen(b, m, ks[i], rs[i]);
      } else {
        r := works[i].DoBlkClose(b.fd, ks[i], rs[i]);
      }
      assert forall o :: o in works[i].Foot() ==> owner[o] == i;
      OthersStay(i, ks, rs, Switched(ks[i], m, false, true), rs[i]);
      assert rs[i := rs[i]] == rs;
    }

    /** What becomes of a refused OPEN in worker i. */
    method RefuseOne(i: int, ghost m: Msg, ghost ks: seq<Work>, ghost rs: seq<Rings>) returns (ok: bool)
      requires Sizes() && Are(ks, rs) && 0 <= i < |works| && !ks[i].wrecked
      requires rs[i].rq.front != [] && m.blk == rs[i].rq.front[0] && |m.blk.data| == ADDR_LEN
      modifies works[i], works[i].rq, works[i].rq.mem, works[i].sq, works[i].sq.mem
      ensures ok == RoomIn(queueLen, rs[i].sq, BLK_HEAD_LEN)
      ensures Are(ks[i := Session.Refuse(ks[i], m, ok)], rs[i := Spoiled(queueLen, rs[i], m.blk)])
      ensures AtInside(i, rs[i].rq)
    {
      ok := works[i].Refuse(m, ks[i], rs[i]);
      assert forall o :: o in works[i].Foot() ==> owner[o] == i;
      OthersStay(i, ks, rs, Session.Refuse(ks[i], m, ok), Spoiled(queueLen, rs[i], m.blk));
    }

    /** close_cli in worker i once the session is found. The queue is that of the session's id,
        which is this worker's own. */
    method EndOne(i: int, fd: int, ghost ks: seq<Work>, ghost rs: seq<Rings>) returns (ok: bool)
      requires Sizes() && Are(ks, rs) && 0 <= i < |works| && fd in works[i].fds && fd in ks[i].table && ks[i].table[fd].idx == i
      modifies works[i], works[i].sq, works[i].sq.mem
      ensures ok == RoomIn(queueLen, rs[i].sq, BLK_HEAD_LEN) && works[i].fds == old(works[i].fds) - {fd}
      ensures works[i].sq.Contents() ==
                if ok then old(works[i].sq.Contents()) + [Block(i, fd, BLK_CLOSE, [])] else old(works[i].sq.Contents())
      ensures Are(ks[i := Session.CloseCli(ks[i], fd, ok)], PutSq(queueLen, rs, i, SessBlock(ks[i], BLK_CLOSE, fd, [])))
    {
      assert works[i].Is(ks[i], rs[i]);
      var id := works[i].fds[fd].id;
      ok := works[id].CloseCli(fd, ks[i], rs[i]);
      assert forall o :: o in works[i].Foot() ==> owner[o] == i;
      OthersStay(i, ks, rs, Session.CloseCli(ks[i], fd, ok),
                 rs[i].(sq := rs[i].sq.AfterPush(queueLen, SessBlock(ks[i], BLK_CLOSE, fd, []))));
    }

    // ---------------------------------------------------------------------- the master

    /** do_fd_close: a closed descriptor stays as it is; otherwise the worker is told if its
        queue has room, and the descriptor is closed. */
    method DoFdClose(fd: int) returns (ghost room: bool)
      requires Valid()
      modifies this, owner.Keys
      ensures Valid() && fds == old(fds) - {fd}
      ensures room == CloseRoom(queueLen, old(s), old(qs), fd) && s == Session.DoFdClose(old(s), fd, room)
      ensures qs == CloseFlow(queueLen, old(s), old(qs), fd)
      ensures fd in old(fds) ==>
                var i := old(fds[fd].idx);
                && 0 <= i < |works| && works[i].astray == old(works[i].astray)
                && (!works[i].astray ==>
                      var q := old(works[i].rq.Contents());
                      works[i].rq.Contents() == if room then q + [Block(i, fd, BLK_CLOSE, [])] else q)
    {
      room := true;
      if fd !in fds {
        assert FdIs(fds, s, fd);
        return;
      }
      var b := Block(fds[fd].idx, fd, BLK_CLOSE, []);
      CloseTarget(fds, s, fd);
      assert works[b.id].Foot() <= owner.Keys;
      room := Tell(b.id, b, Msg(b, IncOf(s, fd)), s.works, qs);
      CloseUpdates(fds, s, fd, room);
      Become(fds - {fd}, Session.DoFdClose(s, fd, room), CloseFlow(queueLen, s, qs, fd));
    }

    /** do_fd_open: the connection is recorded and the worker told, if its queue has room; if
        not, the listening descriptor is closed. */
    method DoFdOpen(l: int, newfd: int, addr: seq<Byte>) returns (ghost act: Act)
      requires Valid() && l in fds && fds[l].listen && newfd !in fds && IsInt32(newfd) && |addr| == ADDR_LEN
      modifies this, owner.Keys
      ensures Valid() && act.Accept?
      ensures var known := old(fds)[newfd := FdInfo(false, old(fds[l].idx), addr)];
        fds == if act.room then known else known - {l}
      ensures var i := old(fds[l].idx);
        && 0 <= i < |works|
        && (!works[i].astray ==>
              var q := old(works[i].rq.Contents());
              works[i].rq.Contents() == if act.room then q + [Block(i, newfd, BLK_OPEN, addr)]
                                        else if act.lroom then q + [Block(i, l, BLK_CLOSE, [])] else q)
      ensures var op := Accept(l, newfd, addr, true, true);
        Did(queueLen, old(s), old(qs), op, act, s, qs)
    {
      var info := FdInfo(false, fds[l].idx, addr);
      var b := Block(info.idx, newfd, BLK_OPEN, addr);
      ghost var s0, qs0 := s, qs;
      ConnectTarget(fds, s, l, newfd);
      assert works[b.id].Foot() <= owner.Keys;
      var ok := Tell(b.id, b, Msg(b, s.next), s.works, qs);
      ConnectUpdates(fds, s, l, newfd, addr, ok);
      Become(fds[newfd := info], Connect(s, l, newfd, addr, ok), PutRq(queueLen, qs, b.id, b));
      ghost var lroom := true;
      if !ok {
        lroom := DoFdClose(l);
      }
      act := Accept(l, newfd, addr, ok, lroom);
      AcceptResolves(queueLen, s0, qs0, l, newfd, addr, ok, lroom);
    }

    /** One message in handle_cli (raw2blk and mq_push), and what the event loop does if there is
        no room for it. */
    method PushFrame(fd: int, frame: Frame) returns (r: int, ghost act: Act)
      requires Valid() && fd in fds && !fds[fd].listen
      requires queueLen + BLK_HEAD_LEN + |frame| <= INT_MAX
      modifies this, owner.Keys
      ensures Valid() && (r == 0 || r == -1) && fds == if r == 0 then old(fds) else old(fds) - {fd}
      ensures var i := old(fds[fd].idx);
        && 0 <= i < |works| && act.CutFrame?
        && (!works[i].astray ==>
              var q := old(works[i].rq.Contents());
              works[i].rq.Contents() == if r == 0 then q + [Block(i, fd, BLK_DATA, frame)]
                                        else if act.croom then q + [Block(i, fd, BLK_CLOSE, [])] else q)
      ensures var op := CutFrame(fd, frame, true, true);
        Did(queueLen, old(s), old(qs), op, act, s, qs) && act.CutFrame? && act.room == (r == 0)
    {
      var b := Block(fds[fd].idx, fd, BLK_DATA, frame);
      ghost var s0, qs0 := s, qs;
      FrameTarget(fds, s, fd, frame);
      assert works[b.id].Foot() <= owner.Keys;
      var ok := Tell(b.id, b, Msg(b, s.open[fd].inc), s.works, qs);
      FrameUpdates(fds, s, fd, frame, ok);
      ghost var qs1 := PutRq(queueLen, qs, b.id, b);
      ghost var croom := true;
      if ok {
        r := 0;
        Move(Step(s, CutFrame(fd, frame, true, true)), qs1);
      } else {
        r := -1;
        Move(LostData(s, fd, frame), qs1);
        croom := DropClient(fd, frame, s0);
      }
      act := CutFrame(fd, frame, ok, croom);
      FrameResolves(queueLen, s0, qs0, fd, frame, ok, croom);
    }

    /** The event loop closes the connection whose message found no room. */
    method DropClient(fd: int, frame: Frame, ghost s0: Sys) returns (ghost croom: bool)
      requires Valid() && fd in fds && Inv(s0) && fd in s0.open && s == LostData(s0, fd, frame)
      modifies this, owner.Keys
      ensures Valid() && s == Step(s0, CutFrame(fd, frame, false, croom)) && fds == old(fds) - {fd}
      ensures croom == CloseRoom(queueLen, old(s), old(qs), fd) && qs == CloseFlow(queueLen, old(s), old(qs), fd)
      ensures var i := old(fds[fd].idx);
        && 0 <= i < |works| && works[i].astray == old(works[i].astray)
        && (!works[i].astray ==>
              var q := old(works[i].rq.Contents());
              works[i].rq.Contents() == if croom then q + [Block(i, fd, BLK_CLOSE, [])] else q)
    {
      croom := DoFdClose(fd);
      FrameLost(fds, s0, fd, frame, croom);
      Become(fds, Step(s0, CutFrame(fd, frame, false, croom)), qs);
    }

    /** handle_cli and what the event loop does with its result: everything the client has sent is
        read, every message in it is pushed, and the rest is kept at the front of the buffer. If the
        peer is gone, or a message finds no room, the connection is closed (master.c:161-164). */
    method HandleCli(fd: int, buf: RecvBuff, g: MsgLen, outs: seq<Recv>) returns (r: int, pushed: seq<Frame>, ghost chunk: seq<Byte>)
      requires Valid() && IsClient(fd) && buf.Valid() && Separate(buf) && NonNegative(g)
      requires queueLen + BLK_HEAD_LEN + buf.maxBufLen <= INT_MAX
      modifies this, owner.Keys, buf, buf.rbf
      ensures Valid() && (r == 0 || r == -1) && (IsClient(fd) <==> r == 0)
      ensures chunk == if old(buf.Incoming(outs)).Gone? then [] else old(buf.Incoming(outs)).s
      ensures old(buf.Incoming(outs)).Gone? ==>
                r == -1 && pushed == [] && Net(s, qs) == NetAfter(queueLen, Net(old(s), old(qs)), [HangUp(fd, true)])
      ensures r == 0 ==>
        && buf.Valid() && Arrived(g, old(buf.Waiting()) + chunk, old(buf.msglen), pushed, buf.Waiting(), buf.msglen)
        && AfterCuts(queueLen, Net(old(s), old(qs)), Net(s, qs), fd, pushed)
      ensures r == 0 ==>
                var i := old(fds[fd].idx);
                && 0 <= i < |works|
                && (!works[i].astray ==> works[i].rq.Contents() == old(works[i].rq.Contents()) + DataBlocks(i, fd, pushed))
      ensures r == -1 && old(buf.Incoming(outs)).Bytes? ==>
                Stopped(queueLen, g, Net(old(s), old(qs)), Net(s, qs), fd, old(buf.Waiting()) + chunk, old(buf.msglen), pushed)
    {
      var n, call;
      n, call, chunk := buf.HandleRead(outs);
      if n == -1 {
        CloseClient(fd);
        return -1, [], chunk;
      }
      r, pushed := PushWaiting(fd, buf, g, buf.rbf[..buf.rlen]);
    }

    /** A client's worker, and what waits for it. */
    lemma AtWork(fd: int)
      requires Valid() && IsClient(fd)
      ensures fd in s.open && fd !in s.listen && s.open[fd].idx == fds[fd].idx && 0 <= fds[fd].idx < |works| == |s.works|
      ensures var i := fds[fd].idx;
        works[i].astray == s.works[i].wrecked && (!works[i].astray ==> works[i].rq.Contents() == Blocks(s.works[i].rq))
    {
      assert FdIs(fds, s, fd);
      Known(fds[fd].idx);
    }

    /** handle_cli once there is something in the buffer. */
    method PushWaiting(fd: int, buf: RecvBuff, g: MsgLen, ghost all: seq<Byte>) returns (r: int, pushed: seq<Frame>)
      requires Valid() && IsClient(fd) && buf.Shows(0, all) && all != [] && Separate(buf) && NonNegative(g)
      requires 0 < buf.maxBufLen == buf.rbf.Length && queueLen + BLK_HEAD_LEN + buf.maxBufLen <= INT_MAX
      modifies this, owner.Keys, buf`rlen, buf`msglen, buf.rbf
      ensures Valid() && (r == 0 || r == -1) && (IsClient(fd) <==> r == 0)
      ensures r == 0 ==>
        && buf.Valid() && Arrived(g, all, old(buf.msglen), pushed, buf.Waiting(), buf.msglen)
        && AfterCuts(queueLen, Net(old(s), old(qs)), Net(s, qs), fd, pushed)
      ensures r == 0 ==>
                var i := old(fds[fd].idx);
                && 0 <= i < |works|
                && (!works[i].astray ==> works[i].rq.Contents() == old(works[i].rq.Contents()) + DataBlocks(i, fd, pushed))
      ensures r == -1 ==>
                Stopped(queueLen, g, Net(old(s), old(qs)), Net(s, qs), fd, all, old(buf.msglen), pushed)
    {
      AtWork(fd);
      ghost var net0 := Net(s, qs);
      r, pushed := PushAll(fd, buf, g, all);
      if r == 0 {
        AtWork(fd);
        CutsQueued(queueLen, net0, Net(s, qs), fd, pushed);
      }
    }

    /** And what is left over goes to the front of the buffer. */
    method PushAll(fd: int, buf: RecvBuff, g: MsgLen, ghost all: seq<Byte>) returns (r: int, pushed: seq<Frame>)
      requires Valid() && IsClient(fd) && buf.Shows(0, all) && all != [] && Separate(buf) && NonNegative(g)
      requires 0 < buf.maxBufLen == buf.rbf.Length && queueLen + BLK_HEAD_LEN + buf.maxBufLen <= INT_MAX
      modifies this, owner.Keys, buf`rlen, buf`msglen, buf.rbf
      ensures Valid() && (r == 0 || r == -1) && (IsClient(fd) <==> r == 0)
      ensures r == 0 ==>
        && buf.Valid() && Arrived(g, all, old(buf.msglen), pushed, buf.Waiting(), buf.msglen)
        && AfterCuts(queueLen, Net(old(s), old(qs)), Net(s, qs), fd, pushed)
      ensures r == -1 ==>
                Stopped(queueLen, g, Net(old(s), old(qs)), Net(s, qs), fd, all, old(buf.msglen), pushed)
    {
      ghost var m0 := buf.msglen;
      var tmp;
      ghost var rest;
      r, pushed, tmp, rest := PushAgain(fd, buf, g, all);
      if r == 0 {
        RestIsIncomplete(g, all, m0, |pushed|, []);
        buf.MoveToFront(tmp);
      }
    }

    /** The descriptor is a client's. */
    ghost predicate IsClient(fd: int)
      reads this
    {
      fd in fds && !fds[fd].listen
    }

    /** The buffer is none of the workers' objects. */
    ghost predicate Separate(buf: RecvBuff)
      reads buf
    {
      buf !in owner.Keys && (buf.rbf == null || buf.rbf !in owner.Keys)
    }

    method CloseClient(fd: int)
      requires Valid() && IsClient(fd)
      modifies this, owner.Keys
      ensures Valid() && fd !in fds && Net(s, qs) == NetAfter(queueLen, Net(old(s), old(qs)), [HangUp(fd, true)])
    {
      ghost var net := Net(s, qs);
      assert FdIs(fds, s, fd);
      CloseResolves(queueLen, s, qs, fd);
      ghost var room := DoFdClose(fd);
      OneEvent(queueLen, net, HangUp(fd, true));
      DidIsNetStep(queueLen, net, HangUp(fd, true), HangUp(fd, room), Net(s, qs));
    }

    /** From push_again on (master.c:235-257). */
    method PushAgain(fd: int, buf: RecvBuff, g: MsgLen, ghost all: seq<Byte>) returns (r: int, pushed: seq<Frame>, tmp: int, ghost rest: seq<Byte>)
      requires Valid() && IsClient(fd) && buf.Shows(0, all) && all != [] && Separate(buf) && NonNegative(g)
      requires queueLen + BLK_HEAD_LEN + buf.rbf.Length <= INT_MAX
      modifies this, owner.Keys, buf`rlen, buf`msglen
      ensures Valid() && (r == 0 || r == -1) && (IsClient(fd) <==> r == 0)
      ensures r == 0 ==>
        && buf.Shows(tmp, rest) && Arrived(g, all, old(buf.msglen), pushed, rest, buf.msglen)
        && AfterCuts(queueLen, Net(old(s), old(qs)), Net(s, qs), fd, pushed)
      ensures r == -1 ==>
                Stopped(queueLen, g, Net(old(s), old(qs)), Net(s, qs), fd, all, old(buf.msglen), pushed)
    {
      r, tmp, pushed, rest := 0, 0, [], all;
      ghost var m0, net0 := buf.msglen, Net(s, qs);
      LeadsFromStart(g, all, m0);
      NoCuts(queueLen, net0, fd);
      var again := true;
      ghost var space := Space(fd);
      while again
        invariant Valid() && (r == 0 || r == -1) && (IsClient(fd) <==> r == 0)
        invariant Separate(buf) && buf.rbf == old(buf.rbf)
        invariant r == 0 ==> buf.Shows(tmp, rest) && AfterCuts(queueLen, net0, Net(s, qs), fd, pushed)
        invariant again ==> r == 0 && rest != [] && Leads(g, all, m0, pushed, rest, buf.msglen) && space == Space(fd)
        invariant !again && r == 0 ==> Arrived(g, all, m0, pushed, rest, buf.msglen)
        invariant r == -1 ==> !again && Stopped(queueLen, g, net0, Net(s, qs), fd, all, m0, pushed)
        decreases space, again
      {
        r, again, tmp, pushed, rest := PushOne(fd, buf, g, tmp, pushed, rest, all, m0, net0);
        space := if again then Space(fd) else space;
      }
    }

    /** What is left of the queue for this client, as far as the offsets tell. */
    ghost function Space(fd: int): nat
      requires Valid() && IsClient(fd)
      reads this, owner.Keys
    {
      if 0 <= fds[fd].idx < |qs| && 0 <= SpaceIn(queueLen, qs[fds[fd].idx].rq) then SpaceIn(queueLen, qs[fds[fd].idx].rq) else 0
    }

    /** From push_again to the goto. again says that there are bytes left to look at. */
    method PushOne(fd: int, buf: RecvBuff, g: MsgLen, tmp: int, pushed: seq<Frame>, ghost rest: seq<Byte>, ghost all: seq<Byte>, ghost m0: nat, ghost net0: Net)
      returns (r: int, again: bool, next: int, done: seq<Frame>, ghost left: seq<Byte>)
      requires Valid() && IsClient(fd) && buf.Shows(tmp, rest) && rest != [] && Separate(buf) && NonNegative(g)
      requires queueLen + BLK_HEAD_LEN + buf.rbf.Length <= INT_MAX
      requires Leads(g, all, m0, pushed, rest, buf.msglen) && AfterCuts(queueLen, net0, Net(s, qs), fd, pushed)
      modifies this, owner.Keys, buf`rlen, buf`msglen
      ensures Valid() && (r == 0 || r == -1) && (IsClient(fd) <==> r == 0)
      ensures r == 0 ==> buf.Shows(next, left) && AfterCuts(queueLen, net0, Net(s, qs), fd, done)
      ensures again ==> r == 0 && left != [] && Leads(g, all, m0, done, left, buf.msglen) && Space(fd) < old(Space(fd))
      ensures !again && r == 0 ==> Arrived(g, all, m0, done, left, buf.msglen)
      ensures r == -1 ==> !again && Stopped(queueLen, g, net0, Net(s, qs), fd, all, m0, done)
    {
      ghost var m1 := buf.msglen;
      var found, frame := buf.NextMessage(g, tmp, rest);
      if found {
        r, again, next, done, left := PushNext(fd, buf, g, tmp, frame, pushed, rest, all, m0, m1, net0);
      } else {
        LeadsToEnd(g, all, m0, pushed, rest, m1);
        r, again, next, done, left := 0, false, tmp, pushed, rest;
      }
    }

    /** The same once the message at rbf + tmp is known to be all there. */
    method PushNext(fd: int, buf: RecvBuff, g: MsgLen, tmp: int, frame: Frame, pushed: seq<Frame>, ghost rest: seq<Byte>, ghost all: seq<Byte>, ghost m0: nat, ghost m1: nat, ghost net0: Net)
      returns (r: int, again: bool, next: int, done: seq<Frame>, ghost left: seq<Byte>)
      requires Valid() && IsClient(fd) && buf.Shows(tmp, rest) && Separate(buf) && NonNegative(g)
      requires queueLen + BLK_HEAD_LEN + buf.rbf.Length <= INT_MAX
      requires Leads(g, all, m0, pushed, rest, m1) && AfterCuts(queueLen, net0, Net(s, qs), fd, pushed)
      requires buf.msglen == (if m1 == 0 then g(rest) else m1) && buf.msglen <= buf.rlen && frame == rest[..buf.msglen]
      modifies this, owner.Keys, buf`rlen, buf`msglen
      ensures Valid() && (r == 0 || r == -1) && (IsClient(fd) <==> r == 0)
      ensures r == 0 ==> buf.Shows(next, left) && AfterCuts(queueLen, net0, Net(s, qs), fd, done)
      ensures again ==> r == 0 && left != [] && Leads(g, all, m0, done, left, buf.msglen) && Space(fd) < old(Space(fd))
      ensures !again && r == 0 ==> Arrived(g, all, m0, done, left, buf.msglen)
      ensures r == -1 ==> !again && Stopped(queueLen, g, net0, Net(s, qs), fd, all, m0, done)
    {
      r := CutOne(fd, frame, net0, pushed);
      if r == -1 {
        NoRoomForNext(queueLen, g, net0, Net(s, qs), fd, all, m0, pushed, rest, m1);
        return r, false, tmp, pushed, rest;
      }
      again, next, left := buf.StepOn(g, tmp, pushed, rest, all, m0, m1);
      done := pushed + [frame];
    }

    /** One message more, after those in pushed. */
    method CutOne(fd: int, frame: Frame, ghost net0: Net, ghost pushed: seq<Frame>) returns (r: int)
      requires Valid() && IsClient(fd) && queueLen + BLK_HEAD_LEN + |frame| <= INT_MAX
      requires AfterCuts(queueLen, net0, Net(s, qs), fd, pushed)
      modifies this, owner.Keys
      ensures Valid() && (r == 0 || r == -1) && (IsClient(fd) <==> r == 0)
      ensures AfterCuts(queueLen, net0, Net(s, qs), fd, pushed + [frame])
      ensures r == 0 ==> Space(fd) < old(Space(fd))
    {
      ghost var net := Net(s, qs);
      ghost var act;
      ghost var i := fds[fd].idx;
      FrameTarget(fds, s, fd, frame);
      assert works[i].Is(s.works[i], qs[i]);
      r, act := PushFrame(fd, frame);
      CutMore(queueLen, net0, net, fd, pushed, frame, act, Net(s, qs));
      if r == 0 {
        CutTakesSpace(queueLen, net.s, net.qs, fd, frame);
      }
    }

    /** do_blk_send; broken says whether writing to the socket fails. */
    method DoBlkSend(b: Block, broken: bool) returns (ghost room: bool)
      requires Valid()
      modifies this, owner.Keys
      ensures Valid() && s == Obeyed(old(s), b, broken, room)
      ensures fds == if b.kind == BLK_CLOSE || broken then old(fds) - {b.fd} else old(fds)
      ensures room == (b.kind == BLK_CLOSE || broken ==> CloseRoom(queueLen, old(s), old(qs), b.fd))
      ensures qs == if b.kind == BLK_CLOSE || broken then CloseFlow(queueLen, old(s), old(qs), b.fd) else old(qs)
    {
      room := true;
      if b.kind == BLK_CLOSE || broken {
        room := DoFdClose(b.fd);
      }
    }

    /** One turn of the loop in handle_mq_send: a worker's CLOSE closes whatever has the
        descriptor, and so does a connection that turns out to be broken. */
    method SendTurn(i: int, broken: bool) returns (r: Turn, ghost act: Act)
      requires Valid() && 0 <= i < |works|
      modifies this, owner.Keys
      ensures Valid() && (r == Empty || r == Handled) && (r == Empty <==> old(s).works[i].sq == [])
      ensures r == Empty ==> fds == old(fds)
      ensures r == Handled ==>
                var b := old(s).works[i].sq[0].blk;
                fds == if b.kind == BLK_CLOSE || broken then old(fds) - {b.fd} else old(fds)
      ensures Did(queueLen, old(s), old(qs), TurnSend(i, broken, true), act, s, qs)
    {
      ghost var s0, qs0 := s, qs;
      assert works[i].Foot() <= owner.Keys;
      var b := LookAtSendQueue(i, s.works, qs);
      Move(s, GotSq(qs, i));
      if b == None {
        NothingSent(queueLen, s0, qs0, i, broken);
        return Empty, TurnSend(i, broken, true);
      }
      ghost var room := DoBlkSend(b.blk, broken);
      SendTurnUpdates(fds, s0, i, broken, room);
      SendTurnResolves(queueLen, s0, qs0, i, broken, room, qs);
      PopSendQueue(i, s.works, qs);
      act := TurnSend(i, broken, room);
      Become(fds, Step(s0, act), PoppedSq(qs, i));
      r := Handled;
    }

    // ---------------------------------------------------------------------- the workers

    /** close_cli, in worker i: the session ends, whether or not there is room to say so. */
    method CloseCli(i: int, fd: int) returns (ghost act: Act)
      requires Valid() && 0 <= i < |works|
      modifies this, works[i], works[i].sq, works[i].sq.mem
      ensures Valid() && works[i].fds == old(works[i].fds) - {fd} && fds == old(fds) && act.EndSession?
      ensures works[i].sq.Contents() ==
                if fd in old(works[i].fds) && act.room then old(works[i].sq.Contents()) + [Block(i, fd, BLK_CLOSE, [])]
                else old(works[i].sq.Contents())
      ensures Did(queueLen, old(s), old(qs), EndSession(i, fd, true), act, s, qs)
    {
      act := EndSession(i, fd, true);
      Known(i);
      ghost var s0, qs0 := s, qs;
      if fd in works[i].fds {
        TableIndex(s, i, fd);
        var ok := EndOne(i, fd, s.works, qs);
        act := EndSession(i, fd, ok);
        CloseCliUpdates(s, i, fd, ok);
        Move(Step(s, act), PutSq(queueLen, qs, i, SessBlock(s.works[i], BLK_CLOSE, fd, [])));
      } else {
        assert s.works[i := s.works[i]] == s.works;
      }
      EndResolves(queueLen, s0, qs0, i, fd, act.room);
    }

    /** send_to_cli, in worker i. */
    method SendToCli(i: int, fd: int, frame: Frame) returns (r: int, ghost act: Act)
      requires Valid() && 0 <= i < |works| && fd in works[i].fds
      requires queueLen + BLK_HEAD_LEN + |frame| <= INT_MAX
      modifies this, works[i].sq, works[i].sq.mem
      ensures Valid() && (r == 0 || r == -1) && fds == old(fds)
      ensures Did(queueLen, old(s), old(qs), Send(i, fd, frame, true), act, s, qs) && act.Send? && act.room == (r == 0)
      ensures works[i].sq.Contents() ==
                if r == 0 then old(works[i].sq.Contents()) + [Block(i, fd, BLK_DATA, frame)] else old(works[i].sq.Contents())
    {
      ghost var k := s.works[i];
      Known(i);
      TableIndex(s, i, fd);
      var b := Block(works[i].fds[fd].id, fd, BLK_DATA, frame);
      var ok := Answer(b.id, b, DataMsg(i, fd, frame, k.table[fd].inc), s.works, qs);
      SendUpdates(s, i, fd, frame, ok);
      r := if ok then 0 else -1;
      act := Send(i, fd, frame, ok);
      SendResolves(queueLen, s, qs, i, fd, frame);
      Move(Step(s, act), PutSq(queueLen, qs, i, b));
    }

    /** The switch in handle_mq_recv, but for the overwriting of a refused block. */
    method Switch(i: int, b: Block, ghost m: Msg, finish: bool, ghost ks: seq<Work>, ghost rs: seq<Rings>)
      returns (r: int, heard: seq<Heard>, ghost room: bool)
      requires Sizes() && Are(ks, rs) && 0 <= i < |works| && m.blk == b && IsInt32(b.fd) && ks[i].misread == []
      requires forall fd :: fd in ks[i].table ==> ks[i].table[fd].idx == i
      modifies works[i], works[i].sq, works[i].sq.mem
      ensures var ends := b.kind == BLK_DATA && b.fd in ks[i].table && finish;
        && room == (ends ==> RoomIn(queueLen, rs[i].sq, BLK_HEAD_LEN))
        && Are(ks[i := Switched(ks[i], m, finish, room)],
               if ends then PutSq(queueLen, rs, i, SessBlock(ks[i], BLK_CLOSE, b.fd, [])) else rs)
      ensures r == if Refused(ks[i], m) then -1 else 0
      ensures heard == if b.kind == BLK_DATA && b.fd in ks[i].table then [Heard(b.fd, b.data)] else []
    {
      r, heard, room := 0, [], true;
      assert works[i].Is(ks[i], rs[i]) && ks[i := ks[i]] == ks;
      if b.kind == BLK_DATA {
        if b.fd in works[i].fds {
          heard := [Heard(b.fd, b.data)];
          if finish {
            room := EndOne(i, b.fd, ks, rs);
          }
        }
      } else if b.kind == BLK_OPEN || b.kind == BLK_CLOSE {
        r := Control(i, b, m, ks, rs);
        r := if b.kind == BLK_OPEN then r else 0;
      }
    }

    /** One turn of the loop in handle_mq_recv, in worker i, as the protocol sees it. */
    method TakeTurn(i: int, finish: bool) returns (r: Turn, heard: seq<Heard>, ghost act: Act)
      requires Valid() && 0 <= i < |works| && !works[i].astray
      modifies this, works[i], works[i].rq, works[i].rq.mem, works[i].sq, works[i].sq.mem
      ensures Valid() && fds == old(fds) && Did(queueLen, old(s), old(qs), TurnRecv(i, finish, true), act, s, qs)
      ensures act == TurnRecv(i, finish, act.room) && heard == HeardFrom(old(s).works[i])
      ensures !old(s).works[i].wrecked && HeardMatches(old(s).works[i], s.works[i], heard)
      ensures (r == Empty <==> old(s).works[i].rq == []) && (r == Empty ==> s == old(s))
      ensures r == Refusal <==> s.works[i].wrecked
      ensures r == Refusal ==> s.works[i].rq == old(s).works[i].rq
      ensures r == Refusal ==> RefusedAfterLoss(old(s).works[i]) && AtInside(i, old(qs)[i].rq.AfterGet())
    {
      heard, act := [], TurnRecv(i, finish, true);
      ghost var s0, qs0, k := s, qs, s.works[i];
      Known(i);
      var b := LookAtRecvQueue(i, s.works, qs);
      if b == None {
        Move(s, GotRq(qs, i));
        NothingHeard(s, i);
        NothingReceived(queueLen, s0, qs0, i, finish);
        return Empty, heard, act;
      }
      r, heard, act := TurnOn(i, b.blk, finish);
    }

    /** The same once mq_get has returned a block. */
    method TurnOn(i: int, b: Block, finish: bool) returns (r: Turn, heard: seq<Heard>, ghost act: Act)
      requires Sizes() && 0 <= i < |works| && Inv(s) && FdsAre(fds, s) && Paired(s, qs) && |s.works| == |works|
      requires Are(s.works, GotRq(qs, i)) && !s.works[i].wrecked && s.works[i].misread == [] && s.works[i].rq != []
      requires qs[i].rq.AfterGet().front != [] && qs[i].rq.AfterGet().front[0] == s.works[i].rq[0].blk == b && b.Storable()
      modifies this, works[i], works[i].rq, works[i].rq.mem, works[i].sq, works[i].sq.mem
      ensures Valid() && fds == old(fds) && Did(queueLen, old(s), old(qs), TurnRecv(i, finish, true), act, s, qs)
      ensures act == TurnRecv(i, finish, act.room) && heard == HeardFrom(old(s).works[i])
      ensures HeardMatches(old(s).works[i], s.works[i], heard)
      ensures (r == Refusal || r == Handled) && (r == Refusal <==> s.works[i].wrecked) && (r == Refusal <==> Refuses(old(s).works[i]))
      ensures r == Refusal ==> s.works[i].rq == old(s).works[i].rq
      ensures r == Refusal ==> RefusedAfterLoss(old(s).works[i]) && AtInside(i, old(qs)[i].rq.AfterGet())
    {
      ghost var s0, qs0, k := s, qs, s.works[i];
      var c;
      ghost var room;
      TableIndices(s, i);
      c, heard, room := Switch(i, b, k.rq[0], finish, s.works, GotRq(qs, i));
      if c == -1 {
        assert Switched(k, k.rq[0], finish, room) == k && s.works[i := k] == s.works;
        act := EndRefusal(i, finish);
        return Refusal, heard, act;
      }
      act := TurnRecv(i, finish, room);
      RecvTurnResolves(queueLen, s0, qs0, i, finish, room);
      EndTurn(i, finish, heard, room, Ended(queueLen, k, GotRq(qs0, i), i, finish));
      r := Handled;
    }

    /** And as the worker sees it. */
    method RecvTurn(i: int, finish: bool) returns (r: Turn, heard: seq<Heard>, ghost act: Act)
      requires Valid() && 0 <= i < |works| && !works[i].astray
      modifies this, works[i], works[i].rq, works[i].rq.mem, works[i].sq, works[i].sq.mem
      ensures Valid() && fds == old(fds) && TookTurn(queueLen, old(works[i].Shows()), works[i].Shows(), finish, r, heard)
      ensures works[i].astray <==> r == Refusal
      ensures r == Refusal ==> RefusedAfterLoss(old(s).works[i]) && AtInside(i, old(qs)[i].rq.AfterGet())
      ensures Did(queueLen, old(s), old(qs), TurnRecv(i, finish, true), act, s, qs) && act == TurnRecv(i, finish, act.room)
      ensures HeardMatches(old(s).works[i], s.works[i], heard) && (r == Refusal <==> s.works[i].wrecked)
      ensures r == Empty ==> s == old(s) && s.works[i].rq == []
      ensures r == Handled ==> old(s).works[i].rq != []
      ensures r == Refusal ==> s.works[i].rq == old(s).works[i].rq
    {
      ghost var w, k, q := works[i].Shows(), s.works[i], qs[i];
      Known(i);
      r, heard, act := TakeTurn(i, finish);
      Known(i);
      if r == Empty {
        NothingTaken(queueLen, k, q, w, qs[i], works[i].Shows(), finish);
      } else {
        TurnTaken(queueLen, k, q, w, finish, act.room, s.works[i], qs[i], works[i].Shows());
      }
    }

    /** The rest of a turn that has refused an OPEN. */
    method EndRefusal(i: int, finish: bool) returns (ghost act: Act)
      requires Sizes() && 0 <= i < |works| && Inv(s) && FdsAre(fds, s) && Paired(s, qs) && |s.works| == |works|
      requires Are(s.works, GotRq(qs, i)) && !s.works[i].wrecked && s.works[i].rq != [] && Refuses(s.works[i])
      requires qs[i].rq.AfterGet().front != [] && qs[i].rq.AfterGet().front[0] == s.works[i].rq[0].blk
      modifies this, works[i], works[i].rq, works[i].rq.mem, works[i].sq, works[i].sq.mem
      ensures Valid() && fds == old(fds) && Did(queueLen, old(s), old(qs), TurnRecv(i, finish, true), act, s, qs)
      ensures act == TurnRecv(i, finish, act.room) && s.works[i].wrecked && HeardMatches(old(s).works[i], s.works[i], [])
      ensures s.works[i].rq == old(s).works[i].rq
      ensures RefusedAfterLoss(old(s).works[i]) && AtInside(i, old(qs)[i].rq.AfterGet())
    {
      ghost var m := s.works[i].rq[0];
      RefusedOnlyAfterLoss(s, i);
      RefusalResolves(queueLen, s, qs, i, finish);
      var ok := RefuseOne(i, m, s.works, GotRq(qs, i));
      act := TurnRecv(i, finish, ok);
      RefusalUpdates(s, i, finish, ok);
      assert GotRq(qs, i)[i := Spoiled(queueLen, GotRq(qs, i)[i], m.blk)] == qs[i := Spoiled(queueLen, GotRq(qs, i)[i], m.blk)];
      Move(Step(s, act), qs[i := Spoiled(queueLen, GotRq(qs, i)[i], m.blk)]);
    }

    /** mq_pop, and the turn is complete. */
    method EndTurn(i: int, finish: bool, ghost heard: seq<Heard>, ghost room: bool, ghost rs: seq<Rings>)
      requires Sizes() && 0 <= i < |works| && |s.works| == |works| && Inv(s) && FdsAre(fds, s)
      requires s.works[i].rq != [] && !s.works[i].wrecked && !Refused(s.works[i], s.works[i].rq[0])
      requires Are(s.works[i := Switched(s.works[i], s.works[i].rq[0], finish, room)], rs) && rs[i].rq.front != []
      requires var k := s.works[i];
        var b := k.rq[0].blk;
        heard == if b.kind == BLK_DATA && b.fd in k.table then [Heard(b.fd, b.data)] else []
      modifies this, works[i].rq
      ensures Valid() && s == Step(old(s), TurnRecv(i, finish, room)) && |s.works| == |works| && fds == old(fds)
      ensures qs == PoppedRq(rs, i)
      ensures HeardMatches(old(s).works[i], s.works[i], heard) && !s.works[i].wrecked
    {
      ghost var k := s.works[i];
      ghost var m := k.rq[0];
      HandledUpdates(s, i, finish, room, heard);
      PopRecvQueue(i, MetBy(k, m), s.works[i := Switched(k, m, finish, room)], rs);
      Move(Step(s, TurnRecv(i, finish, room)), PoppedRq(rs, i));
    }

    // ------------------------------------------------------------------------ the loops

    /** handle_mq_recv: the receive queue is drained, one turn after the other, up to a turn that
        refuses an OPEN; finish is what proc_cli_msg will return. log is the record of the turns. */
    method HandleMqRecv(i: int, finish: seq<bool>) returns (heard: seq<Heard>, ghost log: seq<Log>)
      requires Valid() && 0 <= i < |works| && !works[i].astray
      modifies this, works[i], works[i].rq, works[i].rq.mem, works[i].sq, works[i].sq.mem
      ensures Valid() && Logged(queueLen, old(works[i].Shows()), finish, log, works[i].Shows()) && heard == HeardIn(log)
      ensures log != [] && log[|log| - 1].r != Handled && (log[|log| - 1].r == Refusal <==> works[i].astray)
      ensures !works[i].astray ==> works[i].rq.Contents() == [] && |log| == |old(works[i].rq.Contents())| + 1
      ensures Turned(queueLen, Net(old(s), old(qs)), Net(s, qs), i, log)
    {
      var n := 0;
      heard, log := [], [];
      ghost var net0, w0 := Net(s, qs), works[i].Shows();
      Known(i);
      var r := Handled;
      NothingTurned(queueLen, net0, i);
      while r == Handled
        invariant Valid() && Turned(queueLen, net0, Net(s, qs), i, log) && n == |log|
        invariant Logged(queueLen, w0, finish, log, works[i].Shows()) && heard == HeardIn(log)
        invariant works[i].astray <==> r == Refusal
        invariant Counted(w0, log, r, works[i].rq.Contents())
        decreases if r == Handled then |works[i].rq.Contents()| + 1 else 0
      {
        r, heard, log := TurnOnce(i, finish, n, heard, log, net0, w0);
        n := n + 1;
      }
    }

    method TurnOnce(i: int, finish: seq<bool>, n: nat, heard: seq<Heard>, ghost log: seq<Log>, ghost net0: Net, ghost w0: Side)
      returns (r: Turn, heard': seq<Heard>, ghost log': seq<Log>)
      requires Valid() && 0 <= i < |works| && !works[i].astray && Inv(net0.s) && |net0.qs| == |net0.s.works|
      requires Turned(queueLen, net0, Net(s, qs), i, log) && n == |log| && heard == HeardIn(log)
      requires Logged(queueLen, w0, finish, log, works[i].Shows()) && Counted(w0, log, Handled, works[i].rq.Contents())
      modifies this, works[i], works[i].rq, works[i].rq.mem, works[i].sq, works[i].sq.mem
      ensures Valid() && Turned(queueLen, net0, Net(s, qs), i, log')
      ensures |log'| == n + 1 && heard' == HeardIn(log') && Counted(w0, log', r, works[i].rq.Contents())
      ensures Logged(queueLen, w0, finish, log', works[i].Shows())
      ensures r == Handled ==> |works[i].rq.Contents()| == |old(works[i].rq.Contents())| - 1
      ensures works[i].astray <==> r == Refusal
    {
      ghost var net, w := Net(s, qs), works[i].Shows();
      var more;
      ghost var act;
      var b := n < |finish| && finish[n];
      r, more, act := RecvTurn(i, b);
      heard' := heard + more;
      ghost var x := Log(w, b, r, more, works[i].Shows());
      log' := log + [x];
      Known(i);
      OneTurned(queueLen, net0, net, i, log, x, act, Net(s, qs));
      LoggedMore(queueLen, w0, finish, log, w, x);
    }

    /** The blocks in the send queues of the first n workers. */
    ghost function Outgoing(n: nat): seq<Block>
      requires n <= |works|
      reads set j | 0 <= j < n :: works[j].sq
    {
      if n == 0 then [] else Outgoing(n - 1) + works[n - 1].sq.Contents()
    }

    lemma {:induction false} OutgoingIs(n: nat)
      requires Valid() && n <= |works|
      ensures Outgoing(n) == BlocksOut(s.works, n)
    {
      if n > 0 {
        OutgoingIs(n - 1);
        Known(n - 1);
      }
    }

    /** The inner loop of handle_mq_send. */
    method DrainSendQueue(i: int, broken: seq<bool>, n: nat, ghost all: seq<Block>, ghost fds0: map<int, FdInfo>, ghost net0: Net, ghost before: seq<Act>)
      returns (m: nat, ghost ops: seq<Act>)
      requires Valid() && 0 <= i < |works| && Inv(net0.s) && |net0.qs| == |net0.s.works|
      requires Sent(queueLen, net0, Net(s, qs), before)
      requires Obeying(s.works[i].sq, s.works[i].sq, fds0, fds, all, broken, n, n)
      modifies this, owner.Keys
      ensures Valid() && Sent(queueLen, net0, Net(s, qs), ops) && |s.works| == |works| && s.works[i].sq == []
      ensures forall j :: 0 <= j < |works| && j != i ==> s.works[j].sq == old(s).works[j].sq
      ensures Obeying(old(s).works[i].sq, [], fds0, fds, all, broken, n, m)
    {
      m, ops := n, before;
      ghost var first := s;
      var r := Handled;
      while r != Empty
        invariant Valid() && Sent(queueLen, net0, Net(s, qs), ops) && |s.works| == |works|
        invariant forall j :: 0 <= j < |works| && j != i ==> s.works[j].sq == first.works[j].sq
        invariant Obeying(first.works[i].sq, s.works[i].sq, fds0, fds, all, broken, n, m)
        invariant r == Empty ==> s.works[i].sq == []
        decreases |s.works[i].sq|, r != Empty
      {
        r, m, ops := DrainOnce(i, broken, n, m, first.works[i].sq, all, fds0, net0, ops);
      }
    }

    method DrainOnce(i: int, broken: seq<bool>, ghost n: nat, m: nat, ghost q0: seq<Msg>, ghost all: seq<Block>, ghost fds0: map<int, FdInfo>, ghost net0: Net, ghost before: seq<Act>)
      returns (r: Turn, m': nat, ghost ops: seq<Act>)
      requires Valid() && 0 <= i < |works| && Inv(net0.s) && |net0.qs| == |net0.s.works|
      requires Sent(queueLen, net0, Net(s, qs), before)
      requires Obeying(q0, s.works[i].sq, fds0, fds, all, broken, n, m)
      modifies this, owner.Keys
      ensures Valid() && Sent(queueLen, net0, Net(s, qs), ops) && |s.works| == |works|
      ensures Obeying(q0, s.works[i].sq, fds0, fds, all, broken, n, m')
      ensures if r == Empty then s.works[i].sq == [] else |s.works[i].sq| == |old(s).works[i].sq| - 1
      ensures forall j :: 0 <= j < |works| && j != i ==> s.works[j].sq == old(s).works[j].sq
    {
      ghost var q, fds1 := s.works[i].sq, fds;
      r, ops := SendOnce(i, m < |broken| && broken[m], net0, before);
      m' := if r == Handled then m + 1 else m;
      ObeyingOn(q0, q, fds0, fds1, all, broken, n, m, r, s.works[i].sq, fds);
    }

    method SendOnce(i: int, broken: bool, ghost net0: Net, ghost before: seq<Act>) returns (r: Turn, ghost ops: seq<Act>)
      requires Valid() && 0 <= i < |works| && Inv(net0.s) && |net0.qs| == |net0.s.works|
      requires Sent(queueLen, net0, Net(s, qs), before)
      modifies this, owner.Keys
      ensures Valid() && Sent(queueLen, net0, Net(s, qs), ops) && |s.works| == |works|
      ensures (r == Empty || r == Handled) && (r == Empty <==> old(s).works[i].sq == [])
      ensures r == Empty ==> fds == old(fds) && s.works[i].sq == []
      ensures r == Handled ==>
                && s.works[i].sq == old(s).works[i].sq[1..]
                && var b := old(s).works[i].sq[0].blk;
                   fds == if b.kind == BLK_CLOSE || broken then old(fds) - {b.fd} else old(fds)
      ensures forall j :: 0 <= j < |works| && j != i ==> s.works[j].sq == old(s).works[j].sq
    {
      ghost var act;
      ghost var net := Net(s, qs);
      r, act := SendTurn(i, broken);
      if r == Empty {
        OneEmpty(queueLen, net0, net, before, i, broken, act, Net(s, qs));
      } else {
        OneSent(queueLen, net0, net, before, i, broken, act, Net(s, qs));
      }
      ops := before + [TurnSend(i, broken, true)];
    }

    /** handle_mq_send: every send queue is drained, one worker after the other; broken says which
        writes to a socket will fail. A descriptor that a CLOSE is for, or whose write fails, is
        closed; no other one is. */
    method HandleMqSend(broken: seq<bool>) returns (ghost ops: seq<Act>)
      requires Valid()
      modifies this, owner.Keys
      ensures Valid() && Sent(queueLen, Net(old(s), old(qs)), Net(s, qs), ops)
      ensures forall j :: 0 <= j < |works| ==> works[j].sq.Contents() == []
      ensures var all := old(Outgoing(|works|));
        fds == old(fds) - set j | 0 <= j < |all| && (all[j].kind == BLK_CLOSE || (j < |broken| && broken[j])) :: all[j].fd
    {
      ops := [];
      ghost var net0, fds0, all := Net(s, qs), fds, Outgoing(|works|);
      var n := 0;
      OutgoingIs(|works|);
      DrainedNone(s.works, fds, broken);
      for i := 0 to |works|
        invariant Valid() && Sent(queueLen, net0, Net(s, qs), ops)
        invariant Drained(net0.s.works, s.works, i, fds0, fds, all, broken, n)
      {
        n, ops := DrainNext(i, broken, n, all, fds0, net0, ops);
      }
      forall j | 0 <= j < |works| ensures works[j].sq.Contents() == [] {
        Known(j);
      }
    }

    method DrainNext(i: int, broken: seq<bool>, n: nat, ghost all: seq<Block>, ghost fds0: map<int, FdInfo>, ghost net0: Net, ghost before: seq<Act>)
      returns (m: nat, ghost ops: seq<Act>)
      requires Valid() && 0 <= i < |works| && Inv(net0.s) && |net0.qs| == |net0.s.works|
      requires Sent(queueLen, net0, Net(s, qs), before) && Drained(net0.s.works, s.works, i, fds0, fds, all, broken, n)
      modifies this, owner.Keys
      ensures Valid() && Sent(queueLen, net0, Net(s, qs), ops)
      ensures Drained(net0.s.works, s.works, i + 1, fds0, fds, all, broken, m)
    {
      ghost var ks, fds1 := s.works, fds;
      BlocksOutAt(net0.s.works, i, |works|);
      m, ops := DrainSendQueue(i, broken, n, all, fds0, net0, before);
      DrainedMore(net0.s.works, ks, i, fds0, fds1, all, broken, n, s.works, fds, m);
    }

    // ------------------------------------------------------------------------- any event

    /** Whatever happens next in the master. */
    method PerformMaster(op: Act) returns (ghost act: Act)
      requires Valid() && Fitting(op, queueLen) && !AtWorker(op)
      modifies this, owner.Keys
      ensures Valid() && Did(queueLen, old(s), old(qs), op, act, s, qs)
    {
      act := Plain(op);
      ghost var s0, qs0 := s, qs;
      if !Can(s, op) && !op.TurnSend? {
        NothingDone(queueLen, s, qs, op);
      }
      match op {
        case Accept(l, fd, addr, _, _) =>
          assert FdIs(fds, s, l) && FdIs(fds, s, fd);
          if l in fds && fds[l].listen && fd !in fds && |addr| == ADDR_LEN {
            act := DoFdOpen(l, fd, addr);
          }
        case HangUp(fd, _) =>
          assert FdIs(fds, s, fd);
          if !(fd in fds && fds[fd].listen) {
            CloseResolves(queueLen, s, qs, fd);
            ghost var room := DoFdClose(fd);
            act := HangUp(fd, room);
          }
        case CutFrame(fd, frame, _, _) =>
          assert FdIs(fds, s, fd);
          if fd in fds && !fds[fd].listen {
            var r;
            r, act := PushFrame(fd, frame);
          }
        case TurnSend(i, broken, _) =>
          if 0 <= i < |works| {
            var r;
            r, act := SendTurn(i, broken);
          }
        case _ =>
      }
      DidPlain(queueLen, s0, qs0, op, act, s, qs);
    }

    /** Whatever happens next in a worker, but for a turn that reads inside a block: then ok is
        false and nothing is done. */
    method PerformWorker(op: Act) returns (ok: bool, ghost act: Act)
      requires Valid() && Fitting(op, queueLen) && AtWorker(op) && 0 <= op.i < |works|
      modifies this, owner.Keys
      ensures Valid() && (ok <==> !InsideTurn(old(s), op))
      ensures if ok then Did(queueLen, old(s), old(qs), op, act, s, qs) else s == old(s) && qs == old(qs)
    {
      ok, act := true, Plain(op);
      var i := op.i;
      ghost var s0, qs0 := s, qs;
      Known(i);
      match op {
        case TurnRecv(_, finish, _) =>
          if works[i].astray {
            return false, act;
          }
          var r, heard;
          r, heard, act := RecvTurn(i, finish);
        case EndSession(_, fd, _) =>
          act := CloseCli(i, fd);
        case Send(_, fd, frame, _) =>
          if fd in works[i].fds {
            var r;
            r, act := SendToCli(i, fd, frame);
          } else {
            NothingDone(queueLen, s, qs, op);
          }
      }
      DidPlain(queueLen, s0, qs0, op, act, s, qs);
    }
  }

  /** Whatever happens next, but for a turn that reads inside a block. */
  method Perform(p: Process, op: Act) returns (ok: bool, ghost act: Act)
    requires p.Valid() && Fitting(op, p.queueLen)
    modifies p, p.owner.Keys
    ensures p.Valid() && (ok <==> !InsideTurn(old(p.s), op))
    ensures if ok then Did(p.queueLen, old(p.s), old(p.qs), op, act, p.s, p.qs) else p.s == old(p.s) && p.qs == old(p.qs)
  {
    ok, act := true, Plain(op);
    if !AtWorker(op) {
      act := p.PerformMaster(op);
    } else if 0 <= op.i < |p.works| {
      ok, act := p.PerformWorker(op);
    } else {
      NobodyThere(p.queueLen, p.s, p.qs, op);
    }
  }

  lemma NobodyThere(len: int, s: Sys, qs: seq<Rings>, op: Act)
    requires Paired(s, qs) && AtWorker(op) && !(0 <= op.i < |qs|)
    ensures Did(len, s, qs, op, Plain(op), s, qs)
  {
  }

  /** The first n events lead from start to net. */
  ghost predicate Served(len: int, start: Net, ops: seq<Act>, n: nat, net: Net) {
    n <= |ops| && Inv(start.s) && |start.qs| == |start.s.works| && net == NetAfter(len, start, ops[..n])
  }

  lemma TakeMore<T>(s: seq<T>, n: nat)
    requires n < |s|
    ensures s[..n] + [s[n]] == s[..n + 1]
  {
  }

  lemma ServedMore(len: int, start: Net, ops: seq<Act>, n: nat, net: Net, act: Act, net': Net)
    requires Served(len, start, ops, n, net) && n < |ops| && Did(len, net.s, net.qs, ops[n], act, net'.s, net'.qs)
    ensures Served(len, start, ops, n + 1, net')
  {
    DidIsNetStep(len, net, ops[n], act, net');
    OneMoreEvent(len, start, ops[..n], ops[n]);
    TakeMore(ops, n);
  }

  method PlayOn(p: Process, ops: seq<Act>, n: nat, ghost start: Net) returns (ok: bool)
    requires p.Valid() && n < |ops| && Fitting(ops[n], p.queueLen) && Served(p.queueLen, start, ops, n, Net(p.s, p.qs))
    modifies p, p.owner.Keys
    ensures p.Valid() && (!ok ==> InsideTurn(p.s, ops[n]))
    ensures Served(p.queueLen, start, ops, if ok then n + 1 else n, Net(p.s, p.qs))
  {
    ghost var act;
    ghost var net := Net(p.s, p.qs);
    ok, act := Perform(p, ops[n]);
    if ok {
      ServedMore(p.queueLen, start, ops, n, net, act, Net(p.s, p.qs));
    }
  }

  /** Any sequence of events, from the start, on queues of any size: bytes and tables are those of
      the protocol in which the pushes fail that do so for the offsets of the queues; up to the
      first turn that a worker takes inside a block, which comes only after a lost CLOSE. */
  method Serve(workers: nat, listen: map<int, int>, queueLen: int, ops: seq<Act>) returns (p: Process, n: nat)
    requires workers <= INT_MAX && MEM_HEAD_LEN < queueLen <= INT_MAX - BLK_HEAD_LEN - ADDR_LEN
    requires Setup(workers, listen) && (forall l :: l in listen ==> IsInt32(l))
    requires forall op :: op in ops ==> Fitting(op, queueLen)
    ensures p.Valid() && Served(queueLen, Start(workers, listen), ops, n, Net(p.s, p.qs))
    ensures n < |ops| ==> InsideTurn(p.s, ops[n])
  {
    p := new Process(workers, listen, queueLen);
    n := 0;
    ghost var start := Net(p.s, p.qs);
    while n < |ops|
      invariant fresh(p) && fresh(p.owner.Keys) && p.queueLen == queueLen
      invariant p.Valid() && Served(queueLen, start, ops, n, Net(p.s, p.qs))
    {
      var ok := PlayOn(p, ops, n, start);
      if !ok {
        return;
      }
      n := n + 1;
    }
  }

  /** A worker reads inside a block only after a CLOSE to it was lost. */
  lemma InsideAfterLoss(s: Sys, op: Act)
    requires Inv(s) && InsideTurn(s, op)
    ensures SomeCloseLost(s.works[op.i].tried)
  {
    assert WorkInv(s, op.i);
  }

  /** What Serve comes to is a run of the protocol, for which all that SessionSafety says holds. */
  lemma ServingIsARun(workers: nat, listen: map<int, int>, queueLen: int, ops: seq<Act>)
    requires Setup(workers, listen)
    ensures Inv(Init(workers, listen))
    ensures NetAfter(queueLen, Start(workers, listen), ops).s
         == Reached(workers, listen, Steps(queueLen, Start(workers, listen), ops))
  {
    InitInv(workers, listen);
    StepsAreARun(queueLen, Start(workers, listen), ops);
  }
}
