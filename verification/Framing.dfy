/** Cutting a byte stream into messages, as the bytes happen to arrive (master.c:226-264,
    work.c:358-391, net_util.c:517-562). */
module Framing {
  import opened Layout

  type Frame = seq<Byte>

  /** The plug-in's get_msg_len: the length of the message that starts the given bytes, as far
      as they have arrived. A message has at least one byte. */
  type MsgLen = seq<Byte> -> int

  ghost predicate Positive(g: MsgLen) {
    forall d :: d != [] ==> g(d) > 0
  }

  ghost predicate NonNegative(g: MsgLen) {
    forall d :: g(d) >= 0
  }

  /** The messages cut off, and what stays behind in rbf[0..rlen] with its msglen (0 while
      unknown). */
  datatype Parsed = Parsed(frames: seq<Frame>, buf: seq<Byte>, msglen: int)

  ghost function Cut(g: MsgLen, buf: seq<Byte>, msglen: nat): Parsed
    requires Positive(g)
    decreases |buf|
  {
    if buf == [] then Parsed([], [], msglen)
    else
      var m := if msglen == 0 then g(buf) else msglen;
      if |buf| >= m then
        var r := Cut(g, buf[m..], 0);
        Parsed([buf[..m]] + r.frames, r.buf, r.msglen)
      else Parsed([], buf, m)
  }

  ghost function Flatten(ss: seq<seq<Byte>>): seq<Byte> {
    if ss == [] then [] else ss[0] + Flatten(ss[1..])
  }

  lemma FlattenCons(f: Frame, fs: seq<Frame>, rest: seq<Byte>)
    ensures Flatten([f] + fs) + rest == f + (Flatten(fs) + rest)
  {
    assert ([f] + fs)[1..] == fs;
  }

  /** No byte is lost, added or moved, and what stays behind is either nothing or a message
      that is known to be incomplete. */
  lemma {:induction false} CutConserves(g: MsgLen, buf: seq<Byte>, msglen: nat)
    requires Positive(g) && (buf == [] ==> msglen == 0)
    ensures var r := Cut(g, buf, msglen);
      && Flatten(r.frames) + r.buf == buf
      && ((r.buf == [] && r.msglen == 0) || 0 < |r.buf| < r.msglen)
      && forall f :: f in r.frames ==> f != []
    decreases |buf|
  {
    if buf != [] {
      var m := if msglen == 0 then g(buf) else msglen;
      if |buf| >= m {
        CutConserves(g, buf[m..], 0);
        FlattenCons(buf[..m], Cut(g, buf[m..], 0).frames, Cut(g, buf[m..], 0).buf);
        assert buf == buf[..m] + buf[m..];
      }
    }
  }

  /** The length of each message is the plug-in's answer on the bytes that start with it. */
  lemma {:induction false} FrameLengthsAreAnswers(g: MsgLen, buf: seq<Byte>, i: nat)
    requires Positive(g) && i < |Cut(g, buf, 0).frames|
    ensures var r := Cut(g, buf, 0);
      |r.frames[i]| == g(Flatten(r.frames[i..]) + r.buf)
    decreases |buf|
  {
    var r := Cut(g, buf, 0);
    var m := g(buf);
    if i == 0 {
      CutConserves(g, buf, 0);
      assert r.frames[0..] == r.frames;
    } else {
      FrameLengthsAreAnswers(g, buf[m..], i - 1);
      assert r.frames[i..] == Cut(g, buf[m..], 0).frames[i - 1..];
    }
  }

  // ------------------------------------------------------------------- chunk invariance

  /** More bytes would not change the plug-in's answer. */
  ghost predicate Settled(g: MsgLen, d: seq<Byte>) {
    forall e :: g(d + e) == g(d)
  }

  /** Whenever the loop asks the plug-in, the answer is settled. */
  ghost predicate AsksSettled(g: MsgLen, buf: seq<Byte>, msglen: nat)
    requires Positive(g)
    decreases |buf|
  {
    buf != [] ==>
      && (msglen == 0 ==> Settled(g, buf))
      && var m := if msglen == 0 then g(buf) else msglen;
         |buf| >= m ==> AsksSettled(g, buf[m..], 0)
  }

  lemma Associative<T>(x: seq<T>, y: seq<T>, z: seq<T>)
    ensures x + (y + z) == (x + y) + z
  {
  }

  /** Reading a and then b is the same as reading a + b. */
  lemma {:induction false} CutInTwo(g: MsgLen, a: seq<Byte>, b: seq<Byte>, msglen: nat)
    requires Positive(g) && AsksSettled(g, a, msglen)
    ensures var r := CutNat(g, a, msglen);
            var r' := Cut(g, r.buf + b, r.msglen);
            Cut(g, a + b, msglen) == Parsed(r.frames + r'.frames, r'.buf, r'.msglen)
    decreases |a|
  {
    if a == [] {
      assert a + b == b && [] + b == b;
    } else {
      var m := if msglen == 0 then g(a) else msglen;
      assert m == if msglen == 0 then g(a + b) else msglen;
      if |a| >= m {
        assert (a + b)[..m] == a[..m] && (a + b)[m..] == a[m..] + b;
        CutInTwo(g, a[m..], b, 0);
        var r := CutNat(g, a[m..], 0);
        var r' := Cut(g, r.buf + b, r.msglen);
        Associative([a[..m]], r.frames, r'.frames);
      } else {
        var c := Cut(g, a + b, m);
        assert [] + c.frames == c.frames;
      }
    }
  }

  /** One read event after the other, from a given buffer on. */
  ghost function Feed(g: MsgLen, chunks: seq<seq<Byte>>, buf: seq<Byte>, msglen: nat): (r: Parsed)
    requires Positive(g)
    ensures r.msglen >= 0
    decreases |chunks|
  {
    if chunks == [] then Parsed([], buf, msglen)
    else
      var r := CutNat(g, buf + chunks[0], msglen);
      var r' := Feed(g, chunks[1..], r.buf, r.msglen);
      Parsed(r.frames + r'.frames, r'.buf, r'.msglen)
  }

  ghost function CutNat(g: MsgLen, buf: seq<Byte>, msglen: nat): (r: Parsed)
    requires Positive(g)
    ensures r == Cut(g, buf, msglen) && r.msglen >= 0
  {
    MsgLenIsNat(g, buf, msglen);
    Cut(g, buf, msglen)
  }

  lemma {:induction false} MsgLenIsNat(g: MsgLen, buf: seq<Byte>, msglen: nat)
    requires Positive(g)
    ensures Cut(g, buf, msglen).msglen >= 0
    decreases |buf|
  {
    if buf != [] {
      var m := if msglen == 0 then g(buf) else msglen;
      if |buf| >= m {
        MsgLenIsNat(g, buf[m..], 0);
      }
    }
  }

  ghost predicate FeedSettled(g: MsgLen, chunks: seq<seq<Byte>>, buf: seq<Byte>, msglen: nat)
    requires Positive(g)
    decreases |chunks|
  {
    chunks != [] ==>
      && AsksSettled(g, buf + chunks[0], msglen)
      && var r := CutNat(g, buf + chunks[0], msglen);
         FeedSettled(g, chunks[1..], r.buf, r.msglen)
  }

  /** Nothing more can be cut from what is behind. */
  ghost predicate Idle(g: MsgLen, buf: seq<Byte>, msglen: nat)
    requires Positive(g)
  {
    Cut(g, buf, msglen) == Parsed([], buf, msglen)
  }

  lemma {:induction false} RestIsIdle(g: MsgLen, buf: seq<Byte>, msglen: nat)
    requires Positive(g)
    ensures var r := CutNat(g, buf, msglen); Idle(g, r.buf, r.msglen)
    decreases |buf|
  {
    if buf != [] {
      var m := if msglen == 0 then g(buf) else msglen;
      if |buf| >= m {
        RestIsIdle(g, buf[m..], 0);
      }
    }
  }

  /** However the bytes were cut into reads, the messages, the bytes left and their msglen are
      those of a single read of everything. */
  lemma {:induction false} FeedIsOneCut(g: MsgLen, chunks: seq<seq<Byte>>, buf: seq<Byte>, msglen: nat)
    requires Positive(g) && FeedSettled(g, chunks, buf, msglen) && Idle(g, buf, msglen)
    ensures Feed(g, chunks, buf, msglen) == Cut(g, buf + Flatten(chunks), msglen)
    decreases |chunks|
  {
    if chunks == [] {
      assert buf + Flatten(chunks) == buf;
    } else {
      var c, rest := chunks[0], Flatten(chunks[1..]);
      var r := CutNat(g, buf + c, msglen);
      var r' := Cut(g, r.buf + rest, r.msglen);
      assert Feed(g, chunks[1..], r.buf, r.msglen) == r' by {
        RestIsIdle(g, buf + c, msglen);
        FeedIsOneCut(g, chunks[1..], r.buf, r.msglen);
      }
      assert buf + Flatten(chunks) == (buf + c) + rest;
      assert Cut(g, (buf + c) + rest, msglen) == Parsed(r.frames + r'.frames, r'.buf, r'.msglen) by {
        CutInTwo(g, buf + c, rest, msglen);
      }
    }
  }

  /** Chunk invariance: two ways of reading the same bytes from a new connection. */
  lemma ChunkInvariance(g: MsgLen, c1: seq<seq<Byte>>, c2: seq<seq<Byte>>)
    requires Positive(g) && Flatten(c1) == Flatten(c2)
    requires FeedSettled(g, c1, [], 0) && FeedSettled(g, c2, [], 0)
    ensures Feed(g, c1, [], 0) == Feed(g, c2, [], 0)
  {
    FeedIsOneCut(g, c1, [], 0);
    FeedIsOneCut(g, c2, [], 0);
    assert [] + Flatten(c1) == [] + Flatten(c2);
  }

  /** A plug-in that looks at a fixed-size header, as the sample one does with h == 4
      (test_sserv/test_serv.cpp:126-129). */
  ghost predicate ReadsHeader(g: MsgLen, h: nat) {
    forall d, e :: |d| >= h ==> g(d + e) == g(d)
  }

  /** A whole header has arrived whenever the plug-in is asked. */
  ghost predicate HeadersThere(g: MsgLen, h: nat, buf: seq<Byte>, msglen: nat)
    requires Positive(g)
    decreases |buf|
  {
    buf != [] ==>
      && (msglen == 0 ==> |buf| >= h)
      && var m := if msglen == 0 then g(buf) else msglen;
         |buf| >= m ==> HeadersThere(g, h, buf[m..], 0)
  }

  lemma {:induction false} HeaderIsEnough(g: MsgLen, h: nat, buf: seq<Byte>, msglen: nat)
    requires Positive(g) && ReadsHeader(g, h) && HeadersThere(g, h, buf, msglen)
    ensures AsksSettled(g, buf, msglen)
    decreases |buf|
  {
    if buf != [] {
      var m := if msglen == 0 then g(buf) else msglen;
      if |buf| >= m {
        HeaderIsEnough(g, h, buf[m..], 0);
      }
    }
  }

  ghost predicate FeedHasHeaders(g: MsgLen, h: nat, chunks: seq<seq<Byte>>, buf: seq<Byte>, msglen: nat)
    requires Positive(g)
    decreases |chunks|
  {
    chunks != [] ==>
      && HeadersThere(g, h, buf + chunks[0], msglen)
      && var r := CutNat(g, buf + chunks[0], msglen);
         FeedHasHeaders(g, h, chunks[1..], r.buf, r.msglen)
  }

  /** For a header-reading plug-in it is enough that no read ends inside a header. */
  lemma {:induction false} WholeHeadersSettle(g: MsgLen, h: nat, chunks: seq<seq<Byte>>, buf: seq<Byte>, msglen: nat)
    requires Positive(g) && ReadsHeader(g, h) && FeedHasHeaders(g, h, chunks, buf, msglen)
    ensures FeedSettled(g, chunks, buf, msglen)
    decreases |chunks|
  {
    if chunks != [] {
      HeaderIsEnough(g, h, buf + chunks[0], msglen);
      var r := CutNat(g, buf + chunks[0], msglen);
      WholeHeadersSettle(g, h, chunks[1..], r.buf, r.msglen);
    }
  }

  ghost predicate SameForAllCuts(g: MsgLen)
    requires Positive(g)
  {
    forall c1: seq<seq<Byte>>, c2: seq<seq<Byte>> ::
      Flatten(c1) == Flatten(c2) ==> Feed(g, c1, [], 0) == Feed(g, c2, [], 0)
  }

  ghost predicate SettledByFirstByte(g: MsgLen) {
    forall d :: d != [] ==> Settled(g, d)
  }

  /** Framing is independent of every way of cutting every stream exactly for the plug-ins
      whose answer is settled by the first byte. The code asks after any read, however short. */
  lemma SameForAllCutsIff(g: MsgLen)
    requires Positive(g)
    ensures SameForAllCuts(g) <==> SettledByFirstByte(g)
  {
    if SettledByFirstByte(g) {
      forall c1: seq<seq<Byte>>, c2: seq<seq<Byte>> | Flatten(c1) == Flatten(c2)
        ensures Feed(g, c1, [], 0) == Feed(g, c2, [], 0)
      {
        AllSettled(g, c1, [], 0);
        AllSettled(g, c2, [], 0);
        ChunkInvariance(g, c1, c2);
      }
    }
    if SameForAllCuts(g) {
      forall d: seq<Byte> | d != [] ensures Settled(g, d) {
        forall e ensures g(d + e) == g(d) {
          SameStream(d, e);
          FirstLengthInTwo(g, d, e);
          FirstLengthInOne(g, d + e);
        }
      }
    }
  }

  lemma {:induction false} CutAllSettled(g: MsgLen, buf: seq<Byte>, msglen: nat)
    requires Positive(g) && SettledByFirstByte(g)
    ensures AsksSettled(g, buf, msglen)
    decreases |buf|
  {
    if buf != [] {
      var m := if msglen == 0 then g(buf) else msglen;
      if |buf| >= m {
        CutAllSettled(g, buf[m..], 0);
      }
    }
  }

  lemma {:induction false} AllSettled(g: MsgLen, chunks: seq<seq<Byte>>, buf: seq<Byte>, msglen: nat)
    requires Positive(g) && SettledByFirstByte(g)
    ensures FeedSettled(g, chunks, buf, msglen)
    decreases |chunks|
  {
    if chunks != [] {
      CutAllSettled(g, buf + chunks[0], msglen);
      var r := CutNat(g, buf + chunks[0], msglen);
      AllSettled(g, chunks[1..], r.buf, r.msglen);
    }
  }

  lemma FlattenOne(f: seq<Byte>)
    ensures Flatten([f]) == f
  {
    assert [f][1..] == [];
    assert f + Flatten([]) == f;
  }

  lemma SameStream(d: seq<Byte>, e: seq<Byte>)
    ensures Flatten([d, e]) == Flatten([d + e])
  {
    assert [d, e][1..] == [e];
    FlattenOne(e);
    FlattenOne(d + e);
  }

  /** The first length that was decided on: of the first message, or of the one incomplete. */
  function FirstLength(r: Parsed): int {
    if r.frames != [] then |r.frames[0]| else r.msglen
  }

  lemma FirstLengthInOne(g: MsgLen, d: seq<Byte>)
    requires Positive(g) && d != []
    ensures FirstLength(Feed(g, [d], [], 0)) == g(d)
  {
    assert [] + d == d && [d][1..] == [];
    var r := CutNat(g, d, 0);
    assert r.frames + [] == r.frames;
  }

  lemma FirstLengthInTwo(g: MsgLen, d: seq<Byte>, e: seq<Byte>)
    requires Positive(g) && d != []
    ensures FirstLength(Feed(g, [d, e], [], 0)) == g(d)
  {
    assert [] + d == d && [d, e][1..] == [e];
    var r := CutNat(g, d, 0);
    if |d| < g(d) {
      assert r == Parsed([], d, g(d));
      assert [e][1..] == [];
      var r' := CutNat(g, d + e, g(d));
      assert Feed(g, [e], d, g(d)) == Parsed(r'.frames + [], r'.buf, r'.msglen);
    }
  }

  // ------------------------------------------------------------------- any answer at all

  /** What push_again comes to: the messages pushed, what stays behind, and whether the queue had
      room for all. */
  datatype Pushing = Pushing(frames: seq<Frame>, buf: seq<Byte>, msglen: nat, ok: bool)

  /** push_again for any answers that are not negative, with room for that many messages, after
      those in done. Each turn pushes one, so the loop ends even if the messages are empty. */
  ghost function PushTurns(g: MsgLen, buf: seq<Byte>, msglen: nat, room: nat, done: seq<Frame>): Pushing
    requires NonNegative(g) && buf != []
    decreases room
  {
    var m: nat := if msglen == 0 then g(buf) else msglen;
    if |buf| < m then Pushing(done, buf, m, true)
    else if room == 0 then Pushing(done, buf, m, false)
    else if |buf| == m then Pushing(done + [buf[..m]], buf[m..], 0, true)
    else PushTurns(g, buf[m..], 0, room - 1, done + [buf[..m]])
  }

  /** For a plug-in whose messages have at least one byte, the messages pushed are those that
      the bytes contain, as far as there is room. */
  lemma {:induction false} PushTurnsIsCut(g: MsgLen, buf: seq<Byte>, msglen: nat, room: nat, done: seq<Frame>)
    requires Positive(g) && NonNegative(g) && buf != []
    ensures var p, c := PushTurns(g, buf, msglen, room, done), Cut(g, buf, msglen);
      && (p.ok <==> |c.frames| <= room) && p.frames <= done + c.frames
      && (p.ok ==> p.frames == done + c.frames && p.buf == c.buf && p.msglen == c.msglen)
    decreases room
  {
    var m := if msglen == 0 then g(buf) else msglen;
    if |buf| < m {
      assert done + [] == done;
    } else {
      var c := Cut(g, buf[m..], 0);
      Associative(done, [buf[..m]], c.frames);
      if room > 0 && |buf| > m {
        PushTurnsIsCut(g, buf[m..], 0, room - 1, done + [buf[..m]]);
      } else if |buf| == m {
        assert buf[..m] == buf && buf[m..] == [] && [buf] + [] == [buf];
      }
    }
  }

  /** If the plug-in answers 0 for the bytes in the buffer, as the sample one does when a client
      sends that as a length, empty messages are pushed until the queue is full, and the
      connection is closed. */
  lemma {:induction false} ZeroAnswerFillsQueue(g: MsgLen, buf: seq<Byte>, room: nat, done: seq<Frame>)
    requires NonNegative(g) && buf != [] && g(buf) == 0
    ensures var p := PushTurns(g, buf, 0, room, done);
      !p.ok && p.buf == buf && p.frames == done + seq(room, i => [])
    decreases room
  {
    if room > 0 {
      assert buf[0..] == buf && buf[..0] == [];
      ZeroAnswerFillsQueue(g, buf, room - 1, done + [[]]);
      assert (done + [[]]) + seq(room - 1, i => []) == done + seq(room, i => []);
    }
  }

  /** What stays behind after success is nothing or a message known to be incomplete. */
  lemma {:induction false} RestIsIncomplete(g: MsgLen, buf: seq<Byte>, msglen: nat, room: nat, done: seq<Frame>)
    requires NonNegative(g) && buf != []
    ensures var p := PushTurns(g, buf, msglen, room, done);
      p.ok ==> (p.buf == [] && p.msglen == 0) || 0 < |p.buf| < p.msglen
    decreases room
  {
    var m := if msglen == 0 then g(buf) else msglen;
    if m < |buf| && room > 0 {
      RestIsIncomplete(g, buf[m..], 0, room - 1, done + [buf[..m]]);
    }
  }

  /** The loop has put the messages in done and has rest still to look at, however many turns are
      to come. */
  ghost predicate Leads(g: MsgLen, all: seq<Byte>, msglen0: nat, done: seq<Frame>, rest: seq<Byte>, msglen: nat)
    requires NonNegative(g)
  {
    all != [] && rest != [] && forall n: nat :: LeadsIn(g, all, msglen0, done, rest, msglen, n)
  }

  ghost predicate LeadsIn(g: MsgLen, all: seq<Byte>, msglen0: nat, done: seq<Frame>, rest: seq<Byte>, msglen: nat, n: nat)
    requires NonNegative(g) && all != [] && rest != []
  {
    PushTurns(g, all, msglen0, |done| + n, []) == PushTurns(g, rest, msglen, n, done)
  }

  /** One turn of the loop, with the length found out. */
  lemma LeadsOn(g: MsgLen, all: seq<Byte>, msglen0: nat, done: seq<Frame>, rest: seq<Byte>, msglen: nat)
    requires NonNegative(g) && Leads(g, all, msglen0, done, rest, msglen)
    ensures var m := if msglen == 0 then g(rest) else msglen;
      var now := PushTurns(g, all, msglen0, |done|, []);
      if |rest| < m then now == Pushing(done, rest, m, true)
      else
        && now == Pushing(done, rest, m, false)
        && (|rest| == m ==>
              PushTurns(g, all, msglen0, |done| + 1, []) == Pushing(done + [rest[..m]], rest[m..], 0, true))
        && (|rest| > m ==> Leads(g, all, msglen0, done + [rest[..m]], rest[m..], 0))
  {
    var m := if msglen == 0 then g(rest) else msglen;
    assert LeadsIn(g, all, msglen0, done, rest, msglen, 0);
    if |rest| == m {
      assert LeadsIn(g, all, msglen0, done, rest, msglen, 1);
    }
    if |rest| > m {
      var done', rest' := done + [rest[..m]], rest[m..];
      forall n: nat ensures LeadsIn(g, all, msglen0, done', rest', 0, n) {
        assert LeadsIn(g, all, msglen0, done, rest, msglen, n + 1);
        assert |done'| + n == |done| + (n + 1);
      }
    }
  }

  /** The loop has ended with the messages in done. */
  ghost predicate Arrived(g: MsgLen, all: seq<Byte>, msglen0: nat, done: seq<Frame>, rest: seq<Byte>, msglen: nat)
    requires NonNegative(g)
  {
    all != [] && PushTurns(g, all, msglen0, |done|, []) == Pushing(done, rest, msglen, true)
  }

  lemma LeadsToEnd(g: MsgLen, all: seq<Byte>, msglen0: nat, done: seq<Frame>, rest: seq<Byte>, msglen: nat)
    requires NonNegative(g) && Leads(g, all, msglen0, done, rest, msglen)
    requires |rest| < if msglen == 0 then g(rest) else msglen
    ensures Arrived(g, all, msglen0, done, rest, if msglen == 0 then g(rest) else msglen)
  {
    LeadsOn(g, all, msglen0, done, rest, msglen);
  }

  /** A message that is all there is pushed, and the loop goes on if it was not the last. */
  lemma LeadsOver(g: MsgLen, all: seq<Byte>, msglen0: nat, done: seq<Frame>, rest: seq<Byte>, msglen: nat)
    requires NonNegative(g) && Leads(g, all, msglen0, done, rest, msglen)
    requires (if msglen == 0 then g(rest) else msglen) <= |rest|
    ensures var m := if msglen == 0 then g(rest) else msglen;
      if |rest| == m then Arrived(g, all, msglen0, done + [rest[..m]], rest[m..], 0)
      else Leads(g, all, msglen0, done + [rest[..m]], rest[m..], 0)
  {
    LeadsOn(g, all, msglen0, done, rest, msglen);
  }

  lemma LeadsFromStart(g: MsgLen, all: seq<Byte>, msglen0: nat)
    requires NonNegative(g) && all != []
    ensures Leads(g, all, msglen0, [], all, msglen0)
  {
    forall n: nat ensures LeadsIn(g, all, msglen0, [], all, msglen0, n) {
    }
  }

  /** The loop comes to an end by itself. */
  ghost predicate Ends(g: MsgLen, buf: seq<Byte>, msglen: nat)
    requires NonNegative(g)
  {
    buf != [] && exists n: nat :: PushTurns(g, buf, msglen, n, []).ok
  }

  /** It does if messages have at least one byte, and it never does if the plug-in answers 0 for
      the bytes in the buffer. */
  lemma EndsIfPositive(g: MsgLen, buf: seq<Byte>, msglen: nat)
    requires Positive(g) && NonNegative(g) && buf != []
    ensures Ends(g, buf, msglen)
  {
    var n := |Cut(g, buf, msglen).frames|;
    PushTurnsIsCut(g, buf, msglen, n, []);
    assert PushTurns(g, buf, msglen, n, []).ok;
  }

  lemma NeverEndsOnZero(g: MsgLen, buf: seq<Byte>)
    requires NonNegative(g) && buf != [] && g(buf) == 0
    ensures !Ends(g, buf, 0)
  {
    forall n: nat ensures !PushTurns(g, buf, 0, n, []).ok {
      ZeroAnswerFillsQueue(g, buf, n, []);
    }
  }

  /** After n turns that made an end, the messages are those that the bytes contain. */
  lemma EndIsCut(g: MsgLen, buf: seq<Byte>, msglen: nat, n: nat)
    requires Positive(g) && NonNegative(g) && buf != [] && PushTurns(g, buf, msglen, n, []).ok
    ensures var p := PushTurns(g, buf, msglen, n, []); Cut(g, buf, msglen) == Parsed(p.frames, p.buf, p.msglen)
  {
    PushTurnsIsCut(g, buf, msglen, n, []);
    assert [] + Cut(g, buf, msglen).frames == Cut(g, buf, msglen).frames;
  }

  // ------------------------------------------------------------------- reading from a socket

  /** What one recv() comes back with: bytes (none if the peer has closed), or an error. */
  datatype Recv = Got(s: seq<Byte>) | Interrupted | NoneNow | Broken

  /** What handle_read makes of it (net_util.c:540-551): some bytes, or a reason to close. */
  datatype Received = Bytes(s: seq<Byte>) | Gone

  function Least(a: int, b: int): int {
    if a <= b then a else b
  }

  /** safe_tcp_recv_n, after the bytes had; once outs is used up there is nothing to receive. It
      returns 0 if there was nothing as well as if the peer has closed, which also loses the bytes
      had. */
  function RecvN(outs: seq<Recv>, total: int, had: seq<Byte>): (r: Received)
    requires |had| <= total
    ensures r.Bytes? && 0 < total ==> 0 < |r.s| <= total
    decreases |outs|
  {
    if |had| == total then Bytes(had)
    else if outs == [] || outs[0] == NoneNow then if had == [] then Gone else Bytes(had)
    else if outs[0] == Interrupted then RecvN(outs[1..], total, had)
    else if outs[0] == Broken || outs[0].s == [] then Gone
    else RecvN(outs[1..], total, had + outs[0].s[..Least(|outs[0].s|, total - |had|)])
  }

  /** recv() brought nothing: there is nothing now, or the connection is at its end. */
  predicate Stops(r: Recv) {
    r == NoneNow || r == Broken || r == Got([])
  }

  /** All that recv() brings before that, and how that comes about. */
  function Brought(outs: seq<Recv>): seq<Byte> {
    if outs == [] || Stops(outs[0]) then []
    else (if outs[0].Got? then outs[0].s else []) + Brought(outs[1..])
  }

  function Ending(outs: seq<Recv>): Recv {
    if outs == [] then NoneNow else if Stops(outs[0]) then outs[0] else Ending(outs[1..])
  }

  /** What becomes of all bytes that could be had. */
  function Whole(all: seq<Byte>, total: int, ending: Recv): Received
    requires 0 <= total
  {
    if |all| >= total then Bytes(all[..total])
    else if all == [] || ending != NoneNow then Gone
    else Bytes(all)
  }

  /** safe_tcp_recv_n comes back with the first total bytes brought, or with all of them if there
      are fewer and nothing more is there now. The connection counts as gone if it ended before that,
      or nothing was brought at all. */
  lemma {:induction false} RecvNIsBrought(outs: seq<Recv>, total: int, had: seq<Byte>)
    requires |had| <= total && 0 < total
    ensures RecvN(outs, total, had) == Whole(had + Brought(outs), total, Ending(outs))
    decreases |outs|
  {
    if |had| == total || outs == [] || Stops(outs[0]) {
      RecvNEnds(outs, total, had);
    } else {
      var s, rest := if outs[0].Got? then outs[0].s else [], outs[1..];
      var more := s[..Least(|s|, total - |had|)];
      RecvNGoesOn(outs, total, had);
      RecvNIsBrought(rest, total, had + more);
      WholeInTwo(had, s, more, Brought(rest), total, Ending(rest));
    }
  }

  lemma RecvNEnds(outs: seq<Recv>, total: int, had: seq<Byte>)
    requires |had| <= total && 0 < total && (|had| == total || outs == [] || Stops(outs[0]))
    ensures RecvN(outs, total, had) == Whole(had + Brought(outs), total, Ending(outs))
  {
    if |had| == total {
      assert (had + Brought(outs))[..total] == had;
    } else {
      assert had + [] == had;
    }
  }

  lemma RecvNGoesOn(outs: seq<Recv>, total: int, had: seq<Byte>)
    requires |had| < total && outs != [] && !Stops(outs[0])
    ensures var s := if outs[0].Got? then outs[0].s else [];
      && RecvN(outs, total, had) == RecvN(outs[1..], total, had + s[..Least(|s|, total - |had|)])
      && Brought(outs) == s + Brought(outs[1..]) && Ending(outs) == Ending(outs[1..])
  {
    assert had + [] == had;
  }

  /** Bytes beyond the total do not matter. */
  lemma WholeInTwo(had: seq<Byte>, s: seq<Byte>, more: seq<Byte>, rest: seq<Byte>, total: int, ending: Recv)
    requires |had| < total && more == (if |s| <= total - |had| then s else s[..total - |had|])
    ensures Whole(had + (s + rest), total, ending) == Whole((had + more) + rest, total, ending)
  {
    if |s| <= total - |had| {
      Associative(had, s, rest);
    } else {
      assert (had + (s + rest))[..total] == had + more == ((had + more) + rest)[..total];
    }
  }

  /** One recv() in safe_tcp_recv_n. */
  lemma RecvOne(outs: seq<Recv>, k: nat, total: int, had: seq<Byte>)
    requires k <= |outs| && |had| < total
    ensures var all := RecvN(outs[k..], total, had);
      var out := if k < |outs| then outs[k] else NoneNow;
      match out {
        case NoneNow => all == if had == [] then Gone else Bytes(had)
        case Interrupted => all == RecvN(outs[k + 1..], total, had)
        case Broken => all == Gone
        case Got(s) =>
          all == if s == [] then Gone else RecvN(outs[k + 1..], total, had + s[..Least(|s|, total - |had|)])
      }
  {
    if k < |outs| {
      assert outs[k..][0] == outs[k] && outs[k..][1..] == outs[k + 1..];
    }
  }

  lemma BytesBefore(m: seq<Byte>, before: seq<Byte>, had: seq<Byte>)
    requires |before| + |had| <= |m| && m[..|before| + |had|] == before + had
    ensures m[..|before|] == before
  {
    assert m[..|before|] == m[..|before| + |had|][..|before|];
  }

  // -------------------------------------------------------------------- the buffer itself

  /** What handle_read does about the list of connections to read again. */
  datatype ListCall = NoCall | AddToReadlist | DelFromReadlist

  /** The receiving half of fd_buff_t. */
  class RecvBuff {
    const maxBufLen: int
    var rbf: array?<Byte>
    var rlen: int
    var msglen: int

    ghost predicate Valid()
      reads this
    {
      && 0 < maxBufLen
      && (rbf == null ==> rlen == 0 && msglen == 0)
      && (rbf != null ==> rbf.Length == maxBufLen && 0 <= rlen <= maxBufLen)
      && ((rlen == 0 && msglen == 0) || 0 < rlen < msglen)
    }

    /** The bytes that wait for the rest of their message. */
    ghost function Waiting(): seq<Byte>
      reads this, rbf
      requires Valid()
    {
      if rbf == null then [] else rbf[..rlen]
    }

    /** What handle_read will receive. */
    ghost function Incoming(outs: seq<Recv>): (r: Received)
      reads this
      requires Valid()
      ensures var got, room := Brought(outs), maxBufLen - rlen;
        r == if room == 0 then Bytes([])
             else if |got| >= room then Bytes(got[..room])
             else if got == [] || Ending(outs) != NoneNow then Gone
             else Bytes(got)
    {
      if rlen < maxBufLen then
        RecvNIsBrought(outs, maxBufLen - rlen, []);
        assert [] + Brought(outs) == Brought(outs);
        RecvN(outs, maxBufLen - rlen, [])
      else Bytes([])
    }

    constructor (maxBufLen: int)
      requires 0 < maxBufLen
      ensures Valid() && Waiting() == [] && this.maxBufLen == maxBufLen && rbf == null
    {
      this.maxBufLen := maxBufLen;
      rbf, rlen, msglen := null, 0, 0;
    }

    /** What one recv() adds to the n bytes had that stand behind those in before. */
    method Take(at: int, n: int, total: int, s: seq<Byte>, ghost before: seq<Byte>, ghost had: seq<Byte>) returns (n': int)
      requires rbf != null && at == |before| && 0 <= n == |had| <= total && at + total <= rbf.Length
      requires rbf[..at + n] == before + had
      modifies rbf
      ensures var had' := had + s[..Least(|s|, total - n)];
        n' == |had'| && rbf[..at + n'] == before + had'
    {
      var len := Least(|s|, total - n);
      forall i | 0 <= i < len {
        rbf[at + n + i] := s[i];
      }
      assert rbf[..at + n + len] == (before + had) + s[..len];
      n' := n + len;
    }

    /** safe_tcp_recv_n into rbf + at. */
    method SafeTcpRecvN(at: int, total: int, outs: seq<Recv>) returns (n: int)
      requires rbf != null && 0 <= at && 0 < total && at + total <= rbf.Length
      modifies rbf
      ensures var got := Brought(outs);
        if |got| >= total then n == total && rbf[..at + n] == old(rbf[..at]) + got[..total]
        else if got == [] || Ending(outs) != NoneNow then n <= 0 && rbf[..at] == old(rbf[..at])
        else n == |got| && rbf[..at + n] == old(rbf[..at]) + got
    {
      RecvNIsBrought(outs, total, []);
      assert [] + Brought(outs) == Brought(outs);
      ghost var had: seq<Byte> := [];
      ghost var before := rbf[..at];
      var k := 0;
      n := 0;
      while n < total
        invariant 0 <= n == |had| <= total && 0 <= k <= |outs|
        invariant rbf[..at + n] == before + had
        invariant RecvN(outs[k..], total, had) == RecvN(outs, total, [])
        decreases |outs| - k
      {
        BytesBefore(rbf[..], before, had);
        var out := if k < |outs| then outs[k] else NoneNow;
        RecvOne(outs, k, total, had);
        k := if k < |outs| then k + 1 else k;
        match out {
          case Interrupted =>
          case NoneNow => return n;
          case Broken => return -1;
          case Got(s) =>
            if |s| == 0 {
              return 0;
            }
            var more := Take(at, n, total, s, before, had);
            had, n := had + s[..Least(|s|, total - n)], more;
        }
      }
    }

    /** handle_read: map the buffer if need be, and append what is received, unless the buffer is
        full; then the connection goes on the list of those to read again if the buffer has become
        full, and off it if not. */
    method HandleRead(outs: seq<Recv>) returns (r: int, call: ListCall, ghost chunk: seq<Byte>)
      requires Valid()
      modifies this, rbf
      ensures rbf != null && rbf.Length == maxBufLen && (rbf == old(rbf) || fresh(rbf))
      ensures var got, room := Brought(outs), maxBufLen - old(rlen);
        if room == 0 then r == 0 && chunk == []
        else if |got| >= room then r == room && chunk == got[..room]
        else if got == [] || Ending(outs) != NoneNow then r == -1 && chunk == []
        else r == |got| && chunk == got
      ensures 0 <= rlen <= maxBufLen && rbf[..rlen] == old(Waiting()) + chunk && msglen == old(msglen)
      ensures r != -1 ==> 0 < rlen
      ensures call == if r <= 0 then NoCall else if rlen == maxBufLen then AddToReadlist else DelFromReadlist
    {
      call := NoCall;
      ghost var got, before := Incoming(outs), Waiting();
      chunk := if got.Gone? then [] else got.s;
      if rbf == null {
        msglen, rlen := 0, 0;
        rbf := new Byte[maxBufLen](_ => 0);
      }
      assert rbf[..rlen] == before;
      if maxBufLen <= rlen {
        assert before + [] == before;
        return 0, call, [];
      }
      var n := SafeTcpRecvN(rlen, maxBufLen - rlen, outs);
      if n <= 0 {
        assert before + [] == before;
        return -1, call, [];
      }
      rlen := rlen + n;
      r, call := n, if rlen == maxBufLen then AddToReadlist else DelFromReadlist;
    }

    /** memmove of the unfinished message to the start of the buffer. */
    method MoveToFront(at: int)
      requires rbf != null && 0 <= at && 0 <= rlen && at + rlen <= rbf.Length
      modifies rbf
      ensures rbf[..rlen] == old(rbf[at..at + rlen])
    {
      if at != 0 && rlen > 0 {
        forall i | 0 <= i < rlen {
          rbf[i] := rbf[at + i];
        }
      }
    }

    /** The bytes in rest, at rbf + tmp, are still to be looked at. */
    ghost predicate Shows(tmp: int, rest: seq<Byte>)
      reads this, rbf
    {
      && rbf != null && 0 <= tmp && 0 <= rlen && tmp + rlen <= rbf.Length && 0 <= msglen
      && rest == rbf[tmp..tmp + rlen]
    }

    /** What both loops do first: find out the length of the message at rbf + tmp, and whether
        it is all there. */
    method NextMessage(g: MsgLen, tmp: int, ghost rest: seq<Byte>) returns (found: bool, frame: Frame)
      requires Shows(tmp, rest) && rest != [] && NonNegative(g)
      modifies this`msglen
      ensures msglen == if old(msglen) == 0 then g(rest) else old(msglen)
      ensures 0 <= msglen && (found <==> msglen <= rlen)
      ensures found ==> frame == rest[..msglen]
    {
      if msglen == 0 && rlen > 0 {
        msglen := g(rbf[tmp..tmp + rlen]);
      }
      found, frame := rlen >= msglen, [];
      if found {
        frame := rbf[tmp..tmp + msglen];
        FirstPart(rbf[..], tmp, tmp + rlen, msglen);
      }
    }

    /** What both loops do after a message: step over it. again says that there are bytes left to
        look at. */
    method StepOn(g: MsgLen, tmp: int, ghost done: seq<Frame>, ghost rest: seq<Byte>, ghost all: seq<Byte>, ghost m0: nat, ghost m1: nat)
      returns (again: bool, next: int, ghost left: seq<Byte>)
      requires Shows(tmp, rest) && msglen <= rlen && NonNegative(g)
      requires Leads(g, all, m0, done, rest, m1) && msglen == if m1 == 0 then g(rest) else m1
      modifies this`rlen, this`msglen
      ensures Shows(next, left)
      ensures again ==> left != [] && Leads(g, all, m0, done + [rest[..old(msglen)]], left, msglen)
      ensures !again ==> Arrived(g, all, m0, done + [rest[..old(msglen)]], left, msglen)
    {
      LeadsOver(g, all, m0, done, rest, m1);
      left := rest[msglen..];
      next := tmp + msglen;
      assert rbf[next..next + (rlen - msglen)] == left;
      rlen := rlen - msglen;
      msglen := 0;
      again := rlen > 0;
    }

    /** From proc_again on (work.c:367-384); the loop must come to an end, which it does after
        turns messages at the latest. */
    method ProcAgain(g: MsgLen, ghost turns: nat, ghost all: seq<Byte>) returns (handled: seq<Frame>, tmp: int, ghost rest: seq<Byte>)
      requires Shows(0, all) && all != [] && NonNegative(g) && PushTurns(g, all, msglen, turns, []).ok
      modifies this`rlen, this`msglen
      ensures Shows(tmp, rest) && Arrived(g, all, old(msglen), handled, rest, msglen)
    {
      tmp, handled, rest := 0, [], all;
      ghost var m0 := msglen;
      LeadsFromStart(g, all, m0);
      var again := true;
      while again
        invariant Shows(tmp, rest)
        invariant again ==> rest != [] && |handled| <= turns && Leads(g, all, m0, handled, rest, msglen)
        invariant !again ==> Arrived(g, all, m0, handled, rest, msglen)
        decreases turns - |handled|, again
      {
        again, tmp, handled, rest := ProcOne(g, tmp, handled, rest, all, m0, turns);
      }
    }

    /** From proc_again to the goto. */
    method ProcOne(g: MsgLen, tmp: int, handled: seq<Frame>, ghost rest: seq<Byte>, ghost all: seq<Byte>, ghost m0: nat, ghost turns: nat)
      returns (again: bool, next: int, done: seq<Frame>, ghost left: seq<Byte>)
      requires Shows(tmp, rest) && rest != [] && NonNegative(g) && Leads(g, all, m0, handled, rest, msglen)
      requires PushTurns(g, all, m0, turns, []).ok && |handled| <= turns
      modifies this`rlen, this`msglen
      ensures Shows(next, left)
      ensures again ==> left != [] && |handled| < |done| <= turns && Leads(g, all, m0, done, left, msglen)
      ensures !again ==> |handled| <= |done| <= turns && Arrived(g, all, m0, done, left, msglen)
    {
      ghost var m1 := msglen;
      TurnsLeft(g, all, m0, handled, rest, m1, turns);
      again, next, done, left := false, tmp, handled, rest;
      var found, frame := NextMessage(g, tmp, rest);
      if found {
        again, next, left := StepOn(g, tmp, handled, rest, all, m0, m1);
        done := handled + [frame];
      } else {
        LeadsToEnd(g, all, m0, handled, rest, m1);
      }
    }

    /** do_proc_svr: the same loop in a worker, which hands each message to proc_serv_msg. */
    method DoProcSvr(g: MsgLen, outs: seq<Recv>) returns (r: int, handled: seq<Frame>, ghost chunk: seq<Byte>)
      requires Valid() && NonNegative(g)
      requires var got := Incoming(outs); got.Bytes? ==> Ends(g, Waiting() + got.s, msglen)
      modifies this, rbf
      ensures chunk == if old(Incoming(outs)).Gone? then [] else old(Incoming(outs)).s
      ensures r == if old(Incoming(outs)).Gone? then -1 else 0
      ensures r == 0 ==> Valid() && Arrived(g, old(Waiting()) + chunk, old(msglen), handled, Waiting(), msglen)
      ensures r == 0 && Positive(g) ==> Parsed(handled, Waiting(), msglen) == Cut(g, old(Waiting()) + chunk, old(msglen))
    {
      handled := [];
      var n, call;
      n, call, chunk := HandleRead(outs);
      if n == -1 {
        return -1, [], chunk;
      }
      ghost var all, m0 := rbf[..rlen], msglen;
      ghost var turns: nat :| PushTurns(g, all, m0, turns, []).ok;
      var tmp;
      ghost var rest;
      handled, tmp, rest := ProcAgain(g, turns, all);
      RestIsIncomplete(g, all, m0, |handled|, []);
      MoveToFront(tmp);
      if Positive(g) {
        EndIsCut(g, all, m0, |handled|);
      }
      r := 0;
    }
  }

  lemma FirstPart(m: seq<Byte>, a: int, b: int, n: int)
    requires 0 <= a && 0 <= n && a + n <= b <= |m|
    ensures m[a..a + n] == m[a..b][..n]
  {
  }

  lemma TurnsLeft(g: MsgLen, all: seq<Byte>, msglen0: nat, done: seq<Frame>, rest: seq<Byte>, msglen: nat, turns: nat)
    requires NonNegative(g) && Leads(g, all, msglen0, done, rest, msglen)
    requires PushTurns(g, all, msglen0, turns, []).ok && |done| <= turns
    ensures (if msglen == 0 then g(rest) else msglen) <= |rest| ==> |done| < turns
  {
    if |done| == turns {
      assert LeadsIn(g, all, msglen0, done, rest, msglen, 0);
    }
  }
}
