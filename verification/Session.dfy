/** The connection protocol between the master and its workers, as a transition system over the
    two queues of each worker (master.c:226-338, net_util.c:286-301 and 431-478,
    work.c:250-328 and 400-414). Any push may find the queue full: each push takes what
    mq_push makes of it, room. Server proves that the code on the byte queues does these steps. */
module Session {
  import opened Layout
  import opened Told

  /** One worker: its receive and send queues, its session table, and whether it has come to
      the branch at work.c:262-266, after which it reads its receive queue from inside a block.
      Then what has happened so far: the pushes to the receive queue; the blocks popped, and
      for each the number of the session that was on its descriptor, or 0; what it took for
      blocks once it was wrecked, with the sessions that these met; the sessions opened; those for
      which on_cli_closed was called; and those that the worker ended without room for its CLOSE.
      A DATA block is given to proc_cli_msg exactly if it met a session. */
  datatype Work = Work(
    rq: seq<Msg>, sq: seq<Msg>, table: map<int, Conn>, wrecked: bool,
    tried: seq<Try>, done: seq<Msg>, met: seq<nat>, misread: seq<Block>, misled: seq<nat>,
    opens: seq<nat>, calls: seq<nat>, unsaid: set<nat>)

  /** The listening descriptors, each with the index of its worker; the client connections the
      master has open; the workers; the number of the next connection; and the messages cut
      from each connection's stream. */
  datatype Sys = Sys(
    listen: map<int, int>, open: map<int, Conn>, works: seq<Work>, next: nat, cut: map<nat, seq<Frame>>)

  function Look(h: map<nat, seq<Frame>>, inc: nat): seq<Frame> {
    if inc in h then h[inc] else []
  }

  function NewWork(): Work {
    Work([], [], map[], false, [], [], [], [], [], [], [], {})
  }

  function Init(workers: nat, listen: map<int, int>): Sys {
    Sys(listen, map[], seq(workers, i => NewWork()), 1, map[])
  }

  // -------------------------------------------------------------------- in the master

  predicate Indexed(s: Sys) {
    && (forall l :: l in s.listen ==> 0 <= s.listen[l] < |s.works|)
    && (forall fd :: fd in s.open ==> 0 <= s.open[fd].idx < |s.works|)
  }

  /** A push to a worker's receive queue. */
  function Tell(k: Work, m: Msg, room: bool): Work {
    k.(rq := if room then k.rq + [m] else k.rq, tried := k.tried + [Try(m, room)])
  }

  function TellWorker(s: Sys, i: int, m: Msg, room: bool): Sys
    requires 0 <= i < |s.works|
  {
    s.(works := s.works[i := Tell(s.works[i], m, room)])
  }

  function OpenMsg(i: int, fd: int, addr: seq<Byte>, inc: nat): Msg {
    Msg(Block(i, fd, BLK_OPEN, addr), inc)
  }

  function DataMsg(i: int, fd: int, frame: Frame, inc: nat): Msg {
    Msg(Block(i, fd, BLK_DATA, frame), inc)
  }

  function CloseMsg(i: int, fd: int, inc: nat): Msg {
    Msg(Block(i, fd, BLK_CLOSE, []), inc)
  }

  /** do_fd_close in the master: nothing for a closed descriptor (net_util.c:433-435); otherwise
      the worker is told if there is room, and the descriptor is closed all the same. */
  function DoFdClose(s: Sys, fd: int, room: bool): Sys
    requires Indexed(s)
  {
    if fd in s.listen then
      TellWorker(s.(listen := s.listen - {fd}), s.listen[fd], CloseMsg(s.listen[fd], fd, 0), room)
    else if fd in s.open then
      var c := s.open[fd];
      TellWorker(s.(open := s.open - {fd}), c.idx, CloseMsg(c.idx, fd, c.inc), room)
    else s
  }

  /** do_fd_open up to the push: a new connection, on a descriptor that is not in use. */
  function Connect(s: Sys, l: int, fd: int, addr: seq<Byte>, room: bool): Sys
    requires Indexed(s) && l in s.listen
  {
    var i := s.listen[l];
    TellWorker(s.(open := s.open[fd := Conn(i, addr, s.next)], next := s.next + 1),
               i, OpenMsg(i, fd, addr, s.next), room)
  }

  /** do_fd_open: without room for the OPEN it is the listening descriptor that is closed
      (master.c:333), and the new connection stays. */
  function DoFdOpen(s: Sys, l: int, fd: int, addr: seq<Byte>, room: bool, lroom: bool): Sys
    requires Indexed(s) && l in s.listen
  {
    var s1 := Connect(s, l, fd, addr, room);
    if room then s1 else DoFdClose(s1, l, lroom)
  }

  /** One message in handle_cli: push it (raw2blk), or close the connection if there is no
      room, telling the worker if there is room for that. */
  function PushFrame(s: Sys, fd: int, frame: Frame, room: bool, croom: bool): Sys
    requires Indexed(s) && fd in s.open
  {
    var c := s.open[fd];
    var s1 := TellWorker(s.(cut := s.cut[c.inc := Look(s.cut, c.inc) + [frame]]),
                         c.idx, DataMsg(c.idx, fd, frame, c.inc), room);
    if room then s1 else DoFdClose(s1, fd, croom)
  }

  /** A message that found no room, before its connection is closed. */
  function LostData(s: Sys, fd: int, frame: Frame): Sys
    requires Indexed(s) && fd in s.open
  {
    var c := s.open[fd];
    TellWorker(s, c.idx, DataMsg(c.idx, fd, frame, c.inc), false)
  }

  /** do_blk_send and mq_pop: a worker's CLOSE closes whatever has the descriptor now; writing
      a worker's data may find the connection broken, and then closes it. */
  function SendTurn(s: Sys, i: int, broken: bool, room: bool): Sys
    requires Indexed(s) && 0 <= i < |s.works| && s.works[i].sq != []
  {
    var b := s.works[i].sq[0].blk;
    var s1 := if b.kind == BLK_CLOSE || broken then DoFdClose(s, b.fd, room) else s;
    s1.(works := s1.works[i := s1.works[i].(sq := s.works[i].sq[1..])])
  }

  // -------------------------------------------------------------------- in a worker

  function PushSq(k: Work, m: Msg, room: bool): Work {
    if room then k.(sq := k.sq + [m]) else k
  }

  function DoBlkOpen(k: Work, m: Msg): (bool, Work) {
    if m.blk.fd in k.table || m.blk.Len() != BLK_HEAD_LEN + ADDR_LEN then (false, k)
    else (true, k.(table := k.table[m.blk.fd := Conn(m.blk.id, m.blk.data, m.inc)], opens := k.opens + [m.inc]))
  }

  function DoBlkClose(k: Work, fd: int): Work {
    if fd !in k.table then k
    else k.(table := k.table - {fd}, calls := k.calls + [k.table[fd].inc])
  }

  /** close_cli: the application ends a session. The CLOSE may find no room, which close_cli
      does not look at (work.c:412). */
  function CloseCli(k: Work, fd: int, room: bool): Work {
    if fd !in k.table then k
    else
      var c := k.table[fd];
      var k1 := PushSq(k, CloseMsg(c.idx, fd, c.inc), room);
      DoBlkClose(if room then k1 else k1.(unsaid := k1.unsaid + {c.inc}), fd)
  }

  /** The number of the session on a descriptor. */
  function SessionOn(table: map<int, Conn>, fd: int): nat {
    if fd in table then table[fd].inc else 0
  }

  function PopRq(k: Work, met: nat): Work
    requires k.rq != []
  {
    k.(rq := k.rq[1..], done := k.done + [k.rq[0]], met := k.met + [met])
  }

  /** An OPEN that do_blk_open refuses: it is sent back as a CLOSE. The block itself is
      overwritten in the receive queue, so that the worker goes on reading inside it. */
  function Refuse(k: Work, m: Msg, room: bool): Work {
    PushSq(k, CloseMsg(m.blk.id, m.blk.fd, m.inc), room).(wrecked := true)
  }

  /** One turn of the loop in handle_mq_recv (work.c:257-273). finish is what proc_cli_msg
      returns. */
  function RecvTurn(k: Work, finish: bool, room: bool): Work
    requires k.rq != []
  {
    var m := k.rq[0];
    var c := SessionOn(k.table, m.blk.fd);
    if m.blk.kind == BLK_DATA then
      if m.blk.fd in k.table && finish then CloseCli(PopRq(k, c), m.blk.fd, room) else PopRq(k, c)
    else if m.blk.kind == BLK_OPEN then
      if DoBlkOpen(k, m).0 then PopRq(DoBlkOpen(k, m).1, 0) else Refuse(k, m, room)
    else if m.blk.kind == BLK_CLOSE then PopRq(DoBlkClose(k, m.blk.fd), c)
    else PopRq(k, c)
  }

  /** One turn of the same loop in a worker that reads its queue from inside a block. b is what it
      takes for a block, which may be anything; a session that it opens for it gets a number, next,
      that is no connection's. */
  function Misread(k: Work, b: Block, finish: bool, room: bool, next: nat): Work {
    var k1 := k.(misread := k.misread + [b], misled := k.misled + [if b.kind == BLK_OPEN then 0 else SessionOn(k.table, b.fd)]);
    if b.kind == BLK_DATA then
      if b.fd in k.table && finish then CloseCli(k1, b.fd, room) else k1
    else if b.kind == BLK_OPEN then
      var (ok, k2) := DoBlkOpen(k1, Msg(b, next));
      if ok then k2 else Refuse(k1, Msg(b, 0), room)
    else if b.kind == BLK_CLOSE then DoBlkClose(k1, b.fd)
    else k1
  }

  /** send_to_cli. */
  function SendToCli(k: Work, fd: int, frame: Frame, room: bool): Work
    requires fd in k.table
  {
    PushSq(k, DataMsg(k.table[fd].idx, fd, frame, k.table[fd].inc), room)
  }

  // ---------------------------------------------------------------------------- the runs

  datatype Act =
    | Accept(l: int, fd: int, addr: seq<Byte>, room: bool, lroom: bool)
    | HangUp(fd: int, room: bool)                   // the client is gone: do_fd_close(fd, 1)
    | CutFrame(fd: int, frame: Frame, room: bool, croom: bool)
    | TurnSend(i: int, broken: bool, room: bool)    // one turn of the loop in handle_mq_send
    | TurnRecv(i: int, finish: bool, room: bool)    // one turn of the loop in handle_mq_recv
    | TurnMisread(i: int, b: Block, finish: bool, room: bool) // the same, inside a block
    | EndSession(i: int, fd: int, room: bool)       // the application calls close_cli
    | Send(i: int, fd: int, frame: Frame, room: bool)

  predicate Can(s: Sys, a: Act) {
    match a
    case Accept(l, fd, addr, _, _) => l in s.listen && fd !in s.listen && fd !in s.open && |addr| == ADDR_LEN
    case HangUp(fd, _) => fd !in s.listen
    case CutFrame(fd, _, _, _) => fd in s.open
    case TurnSend(i, _, _) => 0 <= i < |s.works| && s.works[i].sq != []
    case TurnRecv(i, _, _) => 0 <= i < |s.works| && s.works[i].rq != [] && !s.works[i].wrecked
    case TurnMisread(i, b, finish, _) =>
      0 <= i < |s.works| && s.works[i].wrecked && (finish ==> OwnSession(s, i, b.fd))
    case EndSession(i, fd, _) => 0 <= i < |s.works| && OwnSession(s, i, fd)
    case Send(i, fd, _, _) => 0 <= i < |s.works| && fd in s.works[i].table && OwnSession(s, i, fd)
  }

  /** A session's id is its worker's index, unless a misread block has opened it. */
  predicate OwnSession(s: Sys, i: int, fd: int)
    requires 0 <= i < |s.works|
  {
    fd in s.works[i].table ==> s.works[i].table[fd].idx == i
  }

  /** One step. An action that is not possible leaves the state as it is. */
  function Step(s: Sys, a: Act): Sys
    requires Indexed(s)
  {
    if !Can(s, a) then s
    else
      match a
      case Accept(l, fd, addr, room, lroom) => DoFdOpen(s, l, fd, addr, room, lroom)
      case HangUp(fd, room) => DoFdClose(s, fd, room)
      case CutFrame(fd, frame, room, croom) => PushFrame(s, fd, frame, room, croom)
      case TurnSend(i, broken, room) => SendTurn(s, i, broken, room)
      case TurnRecv(i, finish, room) => s.(works := s.works[i := RecvTurn(s.works[i], finish, room)])
      case TurnMisread(i, b, finish, room) =>
        s.(works := s.works[i := Misread(s.works[i], b, finish, room, s.next)], next := s.next + 1)
      case EndSession(i, fd, room) => s.(works := s.works[i := CloseCli(s.works[i], fd, room)])
      case Send(i, fd, frame, room) => s.(works := s.works[i := SendToCli(s.works[i], fd, frame, room)])
  }

  // ------------------------------------------------------------------------ the messages

  /** What proc_cli_msg got for one session. */
  function Handed(done: seq<Msg>, met: seq<nat>, inc: nat): seq<Frame>
    requires |met| == |done|
  {
    if done == [] then []
    else
      var n := |done| - 1;
      Handed(done[..n], met[..n], inc) +
      (if done[n].blk.kind == BLK_DATA && met[n] == inc then [done[n].blk.data] else [])
  }

  /** The part of it that was cut from the session's own connection. */
  function HandedOwn(done: seq<Msg>, met: seq<nat>, inc: nat): seq<Frame>
    requires |met| == |done|
  {
    if done == [] then []
    else
      var n := |done| - 1;
      HandedOwn(done[..n], met[..n], inc) +
      (if done[n].blk.kind == BLK_DATA && met[n] == inc && done[n].inc == inc then [done[n].blk.data] else [])
  }

  /** What proc_cli_msg got for one session from a worker that was reading inside a block. */
  function HandedAstray(misread: seq<Block>, misled: seq<nat>, inc: nat): seq<Frame>
    requires |misled| == |misread|
  {
    if misread == [] then []
    else
      var n := |misread| - 1;
      HandedAstray(misread[..n], misled[..n], inc) +
      (if misread[n].kind == BLK_DATA && misled[n] == inc then [misread[n].data] else [])
  }

  lemma HandedMore(done: seq<Msg>, met: seq<nat>, m: Msg, c: nat)
    requires |met| == |done|
    ensures forall inc :: HandedOwn(done + [m], met + [c], inc) == HandedOwn(done, met, inc) +
              (if m.blk.kind == BLK_DATA && c == inc && m.inc == inc then [m.blk.data] else [])
  {
    assert (done + [m])[..|done|] == done && (met + [c])[..|met|] == met;
  }

  lemma {:induction false} AllOwn(done: seq<Msg>, met: seq<nat>, inc: nat)
    requires |met| == |done|
    requires forall j :: 0 <= j < |done| && done[j].blk.kind == BLK_DATA && met[j] == inc ==> done[j].inc == inc
    ensures Handed(done, met, inc) == HandedOwn(done, met, inc)
    decreases |done|
  {
    if done != [] {
      AllOwn(done[..|done| - 1], met[..|done| - 1], inc);
    }
  }

  // ------------------------------------------------------------------------ the invariant

  /** The record of pushes is coherent, and leaves open what the master has open. */
  ghost predicate ToldInv(open: map<int, Conn>, next: nat, i: int, k: Work) {
    var a := SeenAfter(All(k.tried));
    && Kept(k.tried) == k.done + k.rq && Coherent(i, All(k.tried)) && a.floor <= next
    && (forall fd :: fd in a.link <==> fd in open && open[fd].idx == i)
    && (forall fd :: fd in a.link ==> a.link[fd] == open[fd])
  }

  /** The session table is part of what the worker has seen, link; where it differs, the worker
      has ended the session, and the master has ended the connection, or will be told to, or
      there was no room to tell it. */
  ghost predicate TableInv(i: int, open: map<int, Conn>, link: map<int, Conn>, k: Work) {
    && (forall fd :: fd in k.table ==> fd in link && k.table[fd] == link[fd] && link[fd].idx == i)
    && (forall fd :: fd in link && fd !in k.table ==>
          && link[fd].inc in k.calls
          && (fd in open && open[fd] == link[fd] ==> Has(k.sq, BLK_CLOSE, fd, link[fd].inc) || link[fd].inc in k.unsaid))
  }

  predicate NoRepeats(s: seq<nat>) {
    forall a, b :: 0 <= a < b < |s| ==> s[a] != s[b]
  }

  /** Each session is opened once and has its callback once, and the sessions opened are those
      ended and those live. */
  ghost predicate CallsInv(floor: nat, k: Work) {
    && NoRepeats(k.opens) && NoRepeats(k.calls)
    && (forall inc :: inc in k.opens ==> inc < floor)
    && (forall inc :: inc in k.calls ==> inc in k.opens)
    && (forall fd :: fd in k.table ==> k.table[fd].inc in k.opens && k.table[fd].inc !in k.calls)
    && (forall f, g :: f in k.table && g in k.table && f != g ==> k.table[f].inc != k.table[g].inc)
    && |k.opens| == |k.calls| + |k.table|
  }

  ghost predicate OpensInv(k: Work) {
    forall inc :: inc in k.opens ==> Opened(k.done, inc)
  }

  /** A CLOSE in the send queue is for a session that has ended and whose CLOSE had room. */
  ghost predicate EndsInv(k: Work) {
    && (forall inc :: inc in k.unsaid ==> inc in k.calls)
    && (!k.wrecked ==> forall j :: 0 <= j < |k.sq| && k.sq[j].blk.kind == BLK_CLOSE ==>
          k.sq[j].inc in k.calls && k.sq[j].inc !in k.unsaid)
  }

  ghost predicate HandedInv(k: Work)
    requires |k.met| == |k.done|
  {
    && (forall inc: nat :: HandedOwn(k.done, k.met, inc) <= Frames(k.done, inc))
    && (k.misread == [] ==> forall fd :: fd in k.table ==>
          HandedOwn(k.done, k.met, k.table[fd].inc) == Frames(k.done, k.table[fd].inc))
  }

  /** A block is right for the session c it meets exactly if the CLOSE of c had not been lost
      before. An OPEN meets none. */
  predicate Met(t: seq<Try>, m: Msg, c: nat) {
    m.blk.kind != BLK_OPEN && (m.inc == c <==> !LostClose(t, m.blk.fd, c))
  }

  ghost predicate MetInv(k: Work) {
    && |k.met| == |k.done| <= |Kept(k.tried)|
    && forall j :: 0 <= j < |k.done| && k.met[j] != 0 ==> Met(Before(k.tried, j), k.done[j], k.met[j])
  }

  ghost predicate CutInv(open: map<int, Conn>, cut: map<nat, seq<Frame>>, i: int, k: Work) {
    && (forall inc :: Frames(k.done + k.rq, inc) <= Look(cut, inc))
    && (forall fd :: fd in open && open[fd].idx == i ==>
          Frames(k.done + k.rq, open[fd].inc) == Look(cut, open[fd].inc))
  }

  /** A CLOSE to this worker has been lost. */
  ghost predicate SomeCloseLost(t: seq<Try>) {
    exists fd, inc: nat :: LostClose(t, fd, inc)
  }

  ghost predicate WreckInv(k: Work) {
    && (k.wrecked ==> SomeCloseLost(k.tried))
    && |k.misled| == |k.misread| && (k.misread != [] ==> k.wrecked)
  }

  /** What only the worker itself changes. */
  ghost predicate OwnInv(next: nat, k: Work) {
    && CallsInv(if k.misread == [] then SeenAfter(k.done).floor else next, k)
    && (k.misread == [] ==> OpensInv(k))
    && EndsInv(k) && MetInv(k) && HandedInv(k) && WreckInv(k)
  }

  ghost predicate Sound(open: map<int, Conn>, next: nat, cut: map<nat, seq<Frame>>, i: int, k: Work) {
    && ToldInv(open, next, i, k)
    && (k.misread == [] ==> TableInv(i, open, SeenAfter(k.done).link, k))
    && OwnInv(next, k)
    && CutInv(open, cut, i, k)
  }

  ghost predicate WorkInv(s: Sys, i: int)
    requires 0 <= i < |s.works|
  {
    Sound(s.open, s.next, s.cut, i, s.works[i])
  }

  /** What holds of each descriptor at the master. */
  ghost predicate FdInv(s: Sys, fd: int) {
    && !(fd in s.listen && fd in s.open)
    && (fd in s.open ==> 1 <= s.open[fd].inc < s.next)
    && (forall g :: fd in s.open && g in s.open && g != fd ==> s.open[g].inc != s.open[fd].inc)
  }

  ghost predicate MasterInv(s: Sys) {
    && 1 <= s.next
    && (forall fd {:trigger FdInv(s, fd)} :: FdInv(s, fd))
    && (forall inc :: inc in s.cut ==> inc < s.next)
  }

  ghost predicate Inv(s: Sys) {
    && Indexed(s) && MasterInv(s)
    && forall i {:trigger WorkInv(s, i)} :: 0 <= i < |s.works| ==> WorkInv(s, i)
  }
}
