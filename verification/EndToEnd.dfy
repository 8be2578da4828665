/** From the bytes a client sends to the messages its worker handles: the connection protocol
    with the receive buffers of the master in it (master.c:226-264 inside Session). */
module EndToEnd {
  import opened Layout
  import opened Told
  import opened Framing
  import opened Session
  import opened SessionSteps
  import opened SessionSafety

  /** Everything ever read from a connection, its receive buffer now, and whether get_msg_len's
      answers have all been settled, as they are for a header-reading plug-in that is asked when
      the header has arrived. */
  datatype Rx = Rx(stream: seq<Byte>, buf: seq<Byte>, msglen: nat, settled: bool)

  const NEW_RX := Rx([], [], 0, true)

  /** rx is by connection number, so that it outlives the connection. */
  datatype Server = Server(p: Sys, rx: map<nat, Rx>)

  datatype Event =
    | Protocol(a: Act)                       // anything but a message being cut
    | Read(fd: int, chunk: seq<Byte>)        // handle_read
    | Turn(fd: int, room: bool, croom: bool) // one turn of push_again in handle_cli

  function Init(workers: nat, listen: map<int, int>): Server {
    Server(Session.Init(workers, listen), map[])
  }

  ghost predicate Can(s: Server, e: Event) {
    match e
    case Protocol(a) => !a.CutFrame?
    case Read(fd, _) => fd in s.p.open && s.p.open[fd].inc in s.rx
    case Turn(fd, _, _) => fd in s.p.open && s.p.open[fd].inc in s.rx && s.rx[s.p.open[fd].inc].buf != []
  }

  ghost function Step(g: MsgLen, s: Server, e: Event): Server
    requires Positive(g) && Indexed(s.p)
  {
    if !Can(s, e) then s
    else
      match e
      case Protocol(a) =>
        var p := Session.Step(s.p, a);
        Server(p, if p.next == s.p.next then s.rx else s.rx[s.p.next := NEW_RX])
      case Read(fd, chunk) =>
        var inc := s.p.open[fd].inc;
        var x := s.rx[inc];
        s.(rx := s.rx[inc := x.(stream := x.stream + chunk, buf := x.buf + chunk)])
      case Turn(fd, room, croom) =>
        var inc := s.p.open[fd].inc;
        var x := Asked(g, s.rx[inc]);
        if |x.buf| >= x.msglen then
          Server(PushFrame(s.p, fd, x.buf[..x.msglen], room, croom), s.rx[inc := Advanced(x)])
        else
          s.(rx := s.rx[inc := x])
  }

  /** The plug-in is asked for the length of the next message, if it is not known. */
  ghost function Asked(g: MsgLen, x: Rx): Rx
    requires Positive(g) && x.buf != []
  {
    if x.msglen != 0 then x else x.(msglen := g(x.buf), settled := x.settled && Settled(g, x.buf))
  }

  function Advanced(x: Rx): Rx
    requires x.msglen <= |x.buf|
  {
    x.(buf := x.buf[x.msglen..], msglen := 0)
  }

  /** Whatever bytes are still to come, cutting the whole stream at once gives the messages cut
      so far, and then what the buffer will give. */
  ghost predicate Faithful(g: MsgLen, cut: seq<Frame>, x: Rx)
    requires Positive(g)
  {
    forall e :: Continues(g, cut, x, e)
  }

  ghost predicate Continues(g: MsgLen, cut: seq<Frame>, x: Rx, e: seq<Byte>)
    requires Positive(g)
  {
    var r := Cut(g, x.buf + e, x.msglen);
    Cut(g, x.stream + e, 0) == Parsed(cut + r.frames, r.buf, r.msglen)
  }

  ghost predicate Inv(g: MsgLen, s: Server)
    requires Positive(g)
  {
    && Session.Inv(s.p)
    && (forall inc: nat :: inc in s.rx <==> 1 <= inc < s.p.next)
    && (forall inc: nat :: inc in s.rx && s.rx[inc].settled ==> Faithful(g, Look(s.p.cut, inc), s.rx[inc]))
  }

  lemma NothingReadIsFaithful(g: MsgLen)
    requires Positive(g)
    ensures Faithful(g, [], NEW_RX)
  {
    forall e ensures Continues(g, [], NEW_RX, e) {
      assert [] + e == e;
      var r := Cut(g, e, 0);
      assert [] + r.frames == r.frames;
    }
  }

  lemma ReadContinues(g: MsgLen, cut: seq<Frame>, x: Rx, chunk: seq<Byte>, e: seq<Byte>)
    requires Positive(g) && Continues(g, cut, x, chunk + e)
    ensures Continues(g, cut, x.(stream := x.stream + chunk, buf := x.buf + chunk), e)
  {
    Associative(x.stream, chunk, e);
    Associative(x.buf, chunk, e);
  }

  lemma ReadIsFaithful(g: MsgLen, cut: seq<Frame>, x: Rx, chunk: seq<Byte>)
    requires Positive(g) && Faithful(g, cut, x)
    ensures Faithful(g, cut, x.(stream := x.stream + chunk, buf := x.buf + chunk))
  {
    var x' := x.(stream := x.stream + chunk, buf := x.buf + chunk);
    forall e ensures Continues(g, cut, x', e) {
      assert Continues(g, cut, x, chunk + e);
      ReadContinues(g, cut, x, chunk, e);
    }
  }

  lemma TurnIsFaithful(g: MsgLen, cut: seq<Frame>, x: Rx)
    requires Positive(g) && x.buf != [] && Faithful(g, cut, x) && Asked(g, x).settled
    ensures var x' := Asked(g, x);
      if |x.buf| >= x'.msglen then Faithful(g, cut + [x.buf[..x'.msglen]], Advanced(x')) else Faithful(g, cut, x')
  {
    var x' := Asked(g, x);
    var m := x'.msglen;
    if |x.buf| >= m {
      forall e ensures Continues(g, cut + [x.buf[..m]], Advanced(x'), e) {
        assert Continues(g, cut, x, e);
        var b := x.buf + e;
        assert b[..m] == x.buf[..m] && b[m..] == x.buf[m..] + e;
        var r := Cut(g, x.buf[m..] + e, 0);
        Associative(cut, [x.buf[..m]], r.frames);
      }
    } else {
      forall e ensures Continues(g, cut, x', e) {
        assert Continues(g, cut, x, e);
        assert x.buf + e != [];
      }
    }
  }

  /** Only a message being cut changes the record of cut messages. */
  lemma ProtocolCutsNothing(s: Sys, a: Act)
    requires Indexed(s) && !a.CutFrame?
    ensures Session.Step(s, a).cut == s.cut && s.next <= Session.Step(s, a).next <= s.next + 1
  {
  }

  lemma PushCutsOne(s: Sys, fd: int, frame: Frame, room: bool, croom: bool)
    requires Indexed(s) && fd in s.open
    ensures var s', inc := PushFrame(s, fd, frame, room, croom), s.open[fd].inc;
      && s'.next == s.next && Look(s'.cut, inc) == Look(s.cut, inc) + [frame]
      && forall n: nat :: n != inc ==> Look(s'.cut, n) == Look(s.cut, n)
  {
  }

  lemma StepKeeps(g: MsgLen, s: Server, e: Event)
    requires Positive(g) && Inv(g, s)
    ensures Inv(g, Step(g, s, e))
  {
    if Can(s, e) {
      match e {
        case Protocol(a) =>
          SessionSteps.StepKeeps(s.p, a);
          ProtocolCutsNothing(s.p, a);
          NothingReadIsFaithful(g);
          assert s.p.next !in s.p.cut;
        case Read(fd, chunk) =>
          var inc := s.p.open[fd].inc;
          if s.rx[inc].settled {
            ReadIsFaithful(g, Look(s.p.cut, inc), s.rx[inc], chunk);
          }
          OneBuffer(g, s, Step(g, s, e), inc);
        case Turn(fd, room, croom) =>
          TurnKeeps(g, s, fd, room, croom);
      }
    }
  }

  /** A step that touches the buffer of one connection. */
  lemma OneBuffer(g: MsgLen, s: Server, s': Server, inc: nat)
    requires Positive(g) && Inv(g, s) && Session.Inv(s'.p) && s'.p.next == s.p.next
    requires inc in s.rx && inc in s'.rx && s'.rx == s.rx[inc := s'.rx[inc]]
    requires s'.rx[inc].settled ==> Faithful(g, Look(s'.p.cut, inc), s'.rx[inc])
    requires forall n: nat :: n != inc ==> Look(s'.p.cut, n) == Look(s.p.cut, n)
    ensures Inv(g, s')
  {
  }

  lemma TurnCuts(g: MsgLen, s: Server, inc: nat, fd: int, room: bool, croom: bool, x: Rx)
    requires Positive(g) && Inv(g, s) && fd in s.p.open && inc == s.p.open[fd].inc && inc in s.rx
    requires x.msglen <= |x.buf|
    requires x.settled ==> Faithful(g, Look(s.p.cut, inc) + [x.buf[..x.msglen]], Advanced(x))
    ensures Inv(g, Server(PushFrame(s.p, fd, x.buf[..x.msglen], room, croom), s.rx[inc := Advanced(x)]))
  {
    var frame := x.buf[..x.msglen];
    var s' := Server(PushFrame(s.p, fd, frame, room, croom), s.rx[inc := Advanced(x)]);
    SessionSteps.StepKeeps(s.p, CutFrame(fd, frame, room, croom));
    PushCutsOne(s.p, fd, frame, room, croom);
    OneBuffer(g, s, s', inc);
  }

  lemma TurnKeeps(g: MsgLen, s: Server, fd: int, room: bool, croom: bool)
    requires Positive(g) && Inv(g, s) && Can(s, Turn(fd, room, croom))
    ensures Inv(g, Step(g, s, Turn(fd, room, croom)))
  {
    var inc := s.p.open[fd].inc;
    var x := Asked(g, s.rx[inc]);
    if x.settled {
      TurnIsFaithful(g, Look(s.p.cut, inc), s.rx[inc]);
    }
    if |x.buf| >= x.msglen {
      TurnCuts(g, s, inc, fd, room, croom, x);
    } else {
      OneBuffer(g, s, Step(g, s, Turn(fd, room, croom)), inc);
    }
  }

  ghost function Run(g: MsgLen, s: Server, es: seq<Event>): (s': Server)
    requires Positive(g) && Inv(g, s)
    ensures Inv(g, s')
    decreases |es|
  {
    if es == [] then s
    else
      StepKeeps(g, s, es[0]);
      Run(g, Step(g, s, es[0]), es[1..])
  }

  ghost function Reached(g: MsgLen, workers: nat, listen: map<int, int>, es: seq<Event>): (s: Server)
    requires Positive(g) && Setup(workers, listen)
    ensures Inv(g, s)
  {
    SessionSteps.InitInv(workers, listen);
    Run(g, Init(workers, listen), es)
  }

  /** In every run, for any number of workers and connections, any sizes of reads, any timing and
      any failing pushes: the messages of its own connection that proc_cli_msg gets for a session
      are a prefix of those that the master has cut; these are a prefix of the messages that the
      bytes read from the connection contain, cut as if they had come in one piece, if every answer
      of get_msg_len was settled; and the session gets nothing else if and only if nothing came
      after the CLOSE of the connection was lost, or after its worker had refused an OPEN. */
  lemma HandledMessagesAreThoseSent(g: MsgLen, workers: nat, listen: map<int, int>, es: seq<Event>, i: int, inc: nat)
    requires Positive(g) && Setup(workers, listen)
    requires var s := Reached(g, workers, listen, es); 0 <= i < |s.p.works| && inc in s.rx
    ensures var s := Reached(g, workers, listen, es);
      var k := s.p.works[i];
      && |k.met| == |k.done| && |k.misled| == |k.misread|
      && HandedOwn(k.done, k.met, inc) <= Look(s.p.cut, inc)
      && (s.rx[inc].settled ==> Look(s.p.cut, inc) <= Cut(g, s.rx[inc].stream, 0).frames)
      && (AllHanded(k, inc) == HandedOwn(k.done, k.met, inc) <==> !Strayed(k, inc) && !Misled(k, inc))
  {
    var s := Reached(g, workers, listen, es);
    var x := s.rx[inc];
    OwnIsPrefix(s.p, i, inc);
    if x.settled {
      assert Continues(g, Look(s.p.cut, inc), x, []);
      assert x.stream + [] == x.stream && x.buf + [] == x.buf;
    }
  }

  // ------------------------------------------------------------- what the buffers stand for

  /** What an event reads from connection inc. */
  ghost function ReadNow(s: Server, e: Event, inc: nat): seq<Byte> {
    if e.Read? && Can(s, e) && s.p.open[e.fd].inc == inc then e.chunk else []
  }

  /** The event asks for the length of a message of connection inc, and bytes still to come could
      change the answer. */
  ghost predicate AsksTooEarly(g: MsgLen, s: Server, e: Event, inc: nat) {
    && e.Turn? && Can(s, e) && s.p.open[e.fd].inc == inc
    && s.rx[inc].msglen == 0 && exists more :: g(s.rx[inc].buf + more) != g(s.rx[inc].buf)
  }

  ghost function AllRead(g: MsgLen, s: Server, es: seq<Event>, inc: nat): seq<Byte>
    requires Positive(g) && Inv(g, s)
    decreases |es|
  {
    if es == [] then []
    else
      StepKeeps(g, s, es[0]);
      ReadNow(s, es[0], inc) + AllRead(g, Step(g, s, es[0]), es[1..], inc)
  }

  ghost predicate EverTooEarly(g: MsgLen, s: Server, es: seq<Event>, inc: nat)
    requires Positive(g) && Inv(g, s)
    decreases |es|
  {
    es != [] &&
    (|| AsksTooEarly(g, s, es[0], inc)
     || (StepKeeps(g, s, es[0]); EverTooEarly(g, Step(g, s, es[0]), es[1..], inc)))
  }

  /** A connection as it starts, if it has not started yet. */
  ghost function RxOf(s: Server, inc: nat): Rx {
    if inc in s.rx then s.rx[inc] else NEW_RX
  }

  lemma StepRecords(g: MsgLen, s: Server, e: Event, inc: nat)
    requires Positive(g) && Inv(g, s)
    ensures var x, x' := RxOf(s, inc), RxOf(Step(g, s, e), inc);
      && x'.stream == x.stream + ReadNow(s, e, inc)
      && (x'.settled <==> x.settled && !AsksTooEarly(g, s, e, inc))
  {
    assert RxOf(s, inc).stream + [] == RxOf(s, inc).stream;
    if Can(s, e) && e.Protocol? {
      ProtocolCutsNothing(s.p, e.a);
    }
  }

  /** In every run, the stream of a connection is all that was read from it, and its answers were
      settled if and only if none was given too early. */
  lemma {:induction false} RunRecords(g: MsgLen, s: Server, es: seq<Event>, inc: nat)
    requires Positive(g) && Inv(g, s)
    ensures var x, x' := RxOf(s, inc), RxOf(Run(g, s, es), inc);
      && x'.stream == x.stream + AllRead(g, s, es, inc)
      && (x'.settled <==> x.settled && !EverTooEarly(g, s, es, inc))
    decreases |es|
  {
    var x := RxOf(s, inc);
    if es == [] {
      assert x.stream + [] == x.stream;
    } else {
      var s1 := Step(g, s, es[0]);
      StepKeeps(g, s, es[0]);
      StepRecords(g, s, es[0], inc);
      RunRecords(g, s1, es[1..], inc);
      Associative(x.stream, ReadNow(s, es[0], inc), AllRead(g, s1, es[1..], inc));
    }
  }

  /** The same from the start of the server on. */
  ghost function ReadIn(g: MsgLen, workers: nat, listen: map<int, int>, es: seq<Event>, inc: nat): seq<Byte>
    requires Positive(g) && Setup(workers, listen)
  {
    SessionSteps.InitInv(workers, listen);
    AllRead(g, Init(workers, listen), es, inc)
  }

  ghost predicate TooEarlyIn(g: MsgLen, workers: nat, listen: map<int, int>, es: seq<Event>, inc: nat)
    requires Positive(g) && Setup(workers, listen)
  {
    SessionSteps.InitInv(workers, listen);
    EverTooEarly(g, Init(workers, listen), es, inc)
  }

  /** In every run in which no answer for a connection was given too early, what its session gets of
      it are the first messages that the bytes read from it contain. */
  lemma HandledMessagesAreThoseRead(g: MsgLen, workers: nat, listen: map<int, int>, es: seq<Event>, i: int, inc: nat)
    requires Positive(g) && Setup(workers, listen) && !TooEarlyIn(g, workers, listen, es, inc)
    requires var s := Reached(g, workers, listen, es); 0 <= i < |s.p.works| && inc in s.rx
    ensures var k := Reached(g, workers, listen, es).p.works[i];
      && |k.met| == |k.done|
      && HandedOwn(k.done, k.met, inc) <= Cut(g, ReadIn(g, workers, listen, es, inc), 0).frames
  {
    HandledMessagesAreThoseSent(g, workers, listen, es, i, inc);
    SessionSteps.InitInv(workers, listen);
    RunRecords(g, Init(workers, listen), es, inc);
    assert [] + ReadIn(g, workers, listen, es, inc) == ReadIn(g, workers, listen, es, inc);
  }

  // ---------------------------------------------------------------- an answer given too early

  /** A plug-in whose messages say in their second byte how many bytes follow. */
  function SecondByte(d: seq<Byte>): int {
    if |d| < 2 then 1 else d[1] as int + 2
  }

  lemma RunCons(g: MsgLen, s: Server, e: Event, es: seq<Event>) returns (s': Server)
    requires Positive(g) && Inv(g, s)
    ensures s' == Step(g, s, e) && Inv(g, s') && Run(g, s, [e] + es) == Run(g, s', es)
  {
    s' := Step(g, s, e);
    StepKeeps(g, s, e);
    assert ([e] + es)[1..] == es;
  }

  /** A connection has been accepted, and nothing read from it. */
  lemma AfterAccept(g: MsgLen, es: seq<Event>) returns (e0: seq<Event>, s: Server)
    requires Positive(g)
    ensures Inv(g, s) && Reached(g, 1, PORT, e0) == Run(g, s, es)
    ensures 5 in s.p.open && s.p.open[5].inc == 1 && s.p.cut == map[] && s.rx == map[1 := NEW_RX]
  {
    var accept := Protocol(Accept(3, 5, [0, 0, 0, 0, 0, 0], true, true));
    e0 := [accept] + es;
    SessionSteps.InitInv(1, PORT);
    s := RunCons(g, Init(1, PORT), accept, es);
  }

  /** One byte has been read from it, and the loop has taken one turn. */
  lemma AfterOneByte(es: seq<Event>) returns (e0: seq<Event>, s: Server)
    requires Positive(SecondByte)
    ensures Inv(SecondByte, s) && Reached(SecondByte, 1, PORT, e0) == Run(SecondByte, s, es)
    ensures 5 in s.p.open && s.p.open[5].inc == 1 && Look(s.p.cut, 1) == [[0]]
    ensures 1 in s.rx && s.rx[1] == Rx([0], [], 0, false)
  {
    var turn := Turn(5, true, true);
    var s0;
    e0, s0 := AfterAccept(SecondByte, [Read(5, [0])] + ([turn] + es));
    var s1 := RunCons(SecondByte, s0, Read(5, [0]), [turn] + es);
    assert [] + [0] == [0] && s1.rx[1] == NEW_RX.(stream := [0], buf := [0]);
    s := RunCons(SecondByte, s1, turn, es);
    OneByteTurn(s1);
  }

  /** A read that ends inside a header: the loop asks all the same, and cuts a message that the
      stream does not contain. */
  lemma SplitHeaderCutsWrong() returns (es: seq<Event>)
    ensures Positive(SecondByte)
    ensures var s := Reached(SecondByte, 1, PORT, es);
      && 1 in s.rx && s.rx[1].stream == [0, 1, 7] && !s.rx[1].settled
      && Look(s.p.cut, 1) == [[0]] && Cut(SecondByte, s.rx[1].stream, 0).frames == [[0, 1, 7]]
  {
    var s0;
    es, s0 := AfterOneByte([Read(5, [1, 7])] + []);
    var s1 := RunCons(SecondByte, s0, Read(5, [1, 7]), []);
    assert [0] + [1, 7] == [0, 1, 7];
    OneMessage();
  }

  lemma OneByteTurn(s: Server)
    requires Positive(SecondByte) && Inv(SecondByte, s) && 5 in s.p.open && s.p.open[5].inc == 1 && s.p.cut == map[]
    requires 1 in s.rx && s.rx[1] == NEW_RX.(stream := [0], buf := [0])
    ensures var s' := Step(SecondByte, s, Turn(5, true, true));
      && s'.p.open == s.p.open && Look(s'.p.cut, 1) == [[0]]
      && 1 in s'.rx && s'.rx[1] == Rx([0], [], 0, false)
  {
    var x := Asked(SecondByte, s.rx[1]);
    assert SecondByte([0] + [1]) != SecondByte([0]) by {
      assert [0] + [1] == [0, 1];
    }
    assert x == s.rx[1].(msglen := 1, settled := false);
    assert x.buf[..1] == [0] && x.buf[1..] == [] && [] + [[0]] == [[0]];
  }

  lemma OneMessage()
    requires Positive(SecondByte)
    ensures Cut(SecondByte, [0, 1, 7], 0).frames == [[0, 1, 7]]
  {
    var d: seq<Byte> := [0, 1, 7];
    assert d[..3] == d && d[3..] == [] && [d] + [] == [d];
    assert Cut(SecondByte, d[3..], 0) == Parsed([], [], 0);
  }
}
