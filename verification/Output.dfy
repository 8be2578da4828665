/** The output buffer of one connection (net_util.c:98-118 and 350-428, master.c:173-182).

    Two places of the source do not do what the code around them is written for:
    line 376 takes a successful malloc for a failure, and lines 419-422 leave slen as it is
    after a complete flush. Everything here takes a flag: false is the code as it stands, true
    is the code with those two places repaired. */
module Output {
  import opened Layout

  /** What one send() comes back with. */
  datatype Sent = Took(n: nat) | Interrupted | Full | Broken

  /** What safe_tcp_send_n comes to: n bytes are on the socket, and it has returned n, or -1. */
  datatype Result = Done(n: nat) | Failed(n: nat)

  /** A connection's output side: the bytes in sbf[0..slen], whether sbf is allocated, sbf_size,
      and whether EPOLLOUT is armed. wire is what has been put on the socket, given what
      do_fd_send has been asked to send; alive ends with do_fd_close. */
  datatype Out = Out(buf: seq<Byte>, hasBuf: bool, size: int, armed: bool, wire: seq<Byte>, given: seq<Byte>, alive: bool)

  function New(): Out {
    Out([], false, 0, false, [], [], true)
  }

  function Close(o: Out): Out {
    o.(buf := [], hasBuf := false, size := 0, alive := false)
  }

  /** do_fd_write, for a buffer that is not empty. */
  function Flush(o: Out, r: Result, repaired: bool): Out
    requires r.n <= |o.buf|
  {
    var o' := o.(wire := o.wire + o.buf[..r.n]);
    if r.Done? && 0 < r.n && (r.n < |o.buf| || repaired) then o'.(buf := o.buf[r.n..]) else o'
  }

  /** Lines 372-407: what was not sent goes to the buffer. */
  function Keep(o: Out, rest: seq<Byte>, flushed: bool, maxBufLen: int, repaired: bool): Out {
    if Dropped(o, rest, repaired) then
      o.(hasBuf := true) // line 378: return -1
    else
      var o1 := if rest == [] then o
                else o.(buf := o.buf + rest, hasBuf := true,
                        size := if o.size < |o.buf| + |rest| then |o.buf| + |rest| else o.size);
      if rest != [] && maxBufLen != 0 && maxBufLen < |o1.buf| then Close(o1)
      else if o1.buf != [] && !flushed then o1.(armed := true)
      else if o1.buf == [] then o1.(armed := false)
      else o1
  }

  /** Line 376 takes the new buffer for a failed malloc: the connection lives on, the rest of its
      data is gone, and do_fd_send returns -1. */
  predicate Dropped(o: Out, rest: seq<Byte>, repaired: bool) {
    rest != [] && !o.hasBuf && !repaired
  }

  /** do_fd_send: flush what is there, then send the new data or what of it can be sent. */
  function Send(o: Out, data: seq<Byte>, r1: Result, r2: Result, maxBufLen: int, repaired: bool): Out
    requires r1.n <= |o.buf| && r2.n <= |data|
  {
    var o0 := o.(given := o.given + data);
    var o1 := if o.buf != [] then Flush(o0, r1, repaired) else o0;
    if o.buf != [] && r1.Failed? then Close(o1)
    else SendOn(o1, data, r2, o.buf != [], maxBufLen, repaired)
  }

  /** After the flush: the new data is sent only if nothing waits any more. */
  function SendOn(o: Out, data: seq<Byte>, r: Result, flushed: bool, maxBufLen: int, repaired: bool): Out
    requires r.n <= |data|
  {
    if o.buf != [] then Keep(o, data, flushed, maxBufLen, repaired)
    else
      var o1 := o.(wire := o.wire + data[..r.n]);
      if r.Failed? then Close(o1)
      else Keep(o1, data[r.n..], flushed, maxBufLen, repaired)
  }

  /** The EPOLLOUT branch of the event loops. */
  function WriteReady(o: Out, r: Result, repaired: bool): Out
    requires r.n <= |o.buf|
  {
    var o1 := if o.buf == [] then o
              else if r.Failed? then Close(Flush(o, r, repaired))
              else Flush(o, r, repaired);
    if o1.buf == [] then o1.(armed := false) else o1
  }

  // ------------------------------------------------------------------------- over every run

  datatype Event = SendEvent(data: seq<Byte>, r1: Result, r2: Result) | ReadyEvent(r: Result)

  predicate Possible(o: Out, e: Event) {
    match e
    case SendEvent(data, r1, r2) => o.alive && data != [] && r1.n <= |o.buf| && r2.n <= |data|
    case ReadyEvent(r) => o.alive && r.n <= |o.buf|
  }

  function Step(o: Out, e: Event, maxBufLen: int, repaired: bool): Out
    requires Possible(o, e)
  {
    match e
    case SendEvent(data, r1, r2) => Send(o, data, r1, r2, maxBufLen, repaired)
    case ReadyEvent(r) => WriteReady(o, r, repaired)
  }

  function Next(o: Out, e: Event, maxBufLen: int, repaired: bool): Out {
    if Possible(o, e) then Step(o, e, maxBufLen, repaired) else o
  }

  function Run(o: Out, es: seq<Event>, maxBufLen: int, repaired: bool): Out
    decreases |es|
  {
    if es == [] then o else Run(Next(o, es[0], maxBufLen, repaired), es[1..], maxBufLen, repaired)
  }

  /** Nothing lost, doubled or moved: the socket has had the first bytes and sbf the others. */
  predicate Preserved(o: Out) {
    o.wire + o.buf == o.given
  }

  /** Write events are armed exactly while bytes wait, and sbf_size and max_buf_len hold. */
  predicate Tidy(o: Out, maxBufLen: int) {
    && (o.armed <==> o.buf != [])
    && |o.buf| <= o.size && (o.buf != [] ==> o.hasBuf)
    && (maxBufLen != 0 ==> |o.buf| <= maxBufLen)
  }

  predicate Good(o: Out, maxBufLen: int) {
    o.alive ==> Preserved(o) && Tidy(o, maxBufLen)
  }

  lemma FlushPreserves(o: Out, r: Result)
    requires Preserved(o) && o.buf != [] && r.Done? && r.n <= |o.buf|
    ensures Preserved(Flush(o, r, true)) && Flush(o, r, true).buf == o.buf[r.n..]
  {
    assert o.buf == o.buf[..r.n] + o.buf[r.n..];
    assert (o.wire + o.buf[..r.n]) + o.buf[r.n..] == o.wire + o.buf;
  }

  lemma KeepIsGood(o: Out, rest: seq<Byte>, flushed: bool, maxBufLen: int)
    requires 0 <= maxBufLen && o.alive && o.wire + (o.buf + rest) == o.given
    requires |o.buf| <= o.size && (o.buf != [] ==> o.hasBuf) && (maxBufLen != 0 ==> |o.buf| <= maxBufLen)
    requires flushed ==> o.armed
    ensures Good(Keep(o, rest, flushed, maxBufLen, true), maxBufLen)
  {
    assert o.buf + [] == o.buf;
  }

  lemma SendIsGood(o: Out, data: seq<Byte>, r1: Result, r2: Result, maxBufLen: int)
    requires 0 <= maxBufLen && o.alive && Good(o, maxBufLen)
    requires data != [] && r1.n <= |o.buf| && r2.n <= |data|
    ensures Good(Send(o, data, r1, r2, maxBufLen, true), maxBufLen)
  {
    var o0 := o.(given := o.given + data);
    var o1 := if o.buf != [] then Flush(o0, r1, true) else o0;
    if o.buf == [] || r1.Done? {
      if o.buf != [] {
        FlushPreserves(o, r1);
      }
      assert o1.wire + o1.buf == o.given;
      if o1.buf != [] {
        assert o1.wire + (o1.buf + data) == (o1.wire + o1.buf) + data;
        KeepIsGood(o1, data, o.buf != [], maxBufLen);
      } else if r2.Done? {
        SentInTwo(o1.wire, data, r2.n);
        KeepIsGood(o1.(wire := o1.wire + data[..r2.n]), data[r2.n..], o.buf != [], maxBufLen);
      }
    }
  }

  lemma SentInTwo(wire: seq<Byte>, data: seq<Byte>, n: nat)
    requires n <= |data|
    ensures (wire + data[..n]) + data[n..] == wire + data
    ensures (wire + data[..n]) + ([] + data[n..]) == wire + data
  {
    assert data == data[..n] + data[n..];
  }

  lemma ReadyIsGood(o: Out, r: Result, maxBufLen: int)
    requires o.alive && Good(o, maxBufLen) && r.n <= |o.buf|
    ensures Good(WriteReady(o, r, true), maxBufLen)
  {
    if o.buf != [] && r.Done? {
      FlushPreserves(o, r);
    }
  }

  lemma {:induction false} RunIsGood(o: Out, es: seq<Event>, maxBufLen: int)
    requires 0 <= maxBufLen && Good(o, maxBufLen)
    ensures Good(Run(o, es, maxBufLen, true), maxBufLen)
    decreases |es|
  {
    if es != [] {
      var e := es[0];
      if Possible(o, e) {
        match e {
          case SendEvent(data, r1, r2) => SendIsGood(o, data, r1, r2, maxBufLen);
          case ReadyEvent(r) => ReadyIsGood(o, r, maxBufLen);
        }
        RunIsGood(Step(o, e, maxBufLen, true), es[1..], maxBufLen);
      } else {
        RunIsGood(o, es[1..], maxBufLen);
      }
    }
  }

  /** With the two places repaired, for any sizes of sends and any partial writes: while the
      connection lives, the stream is preserved, write events are armed exactly while bytes
      wait, and no more bytes wait than max_buf_len allows. */
  lemma RepairedPreservesStream(es: seq<Event>, maxBufLen: int)
    requires 0 <= maxBufLen
    ensures Good(Run(New(), es, maxBufLen, true), maxBufLen)
  {
    RunIsGood(New(), es, maxBufLen);
  }

  lemma KeepIsTidy(o: Out, rest: seq<Byte>, flushed: bool, maxBufLen: int, repaired: bool)
    requires 0 <= maxBufLen && |o.buf| <= o.size && (o.buf != [] ==> o.hasBuf)
    requires (flushed ==> o.armed && o.hasBuf) && (o.armed && !flushed ==> o.buf != [])
    requires maxBufLen != 0 ==> |o.buf| <= maxBufLen
    ensures var o' := Keep(o, rest, flushed, maxBufLen, repaired); o'.alive ==> Tidy(o', maxBufLen)
  {
  }

  lemma SendIsTidy(o: Out, data: seq<Byte>, r1: Result, r2: Result, maxBufLen: int, repaired: bool)
    requires 0 <= maxBufLen && o.alive && Tidy(o, maxBufLen) && r1.n <= |o.buf| && r2.n <= |data|
    ensures var o' := Send(o, data, r1, r2, maxBufLen, repaired); o'.alive ==> Tidy(o', maxBufLen)
  {
    var o0 := o.(given := o.given + data);
    var o1 := if o.buf != [] then Flush(o0, r1, repaired) else o0;
    if o1.buf != [] {
      KeepIsTidy(o1, data, o.buf != [], maxBufLen, repaired);
    } else {
      KeepIsTidy(o1.(wire := o1.wire + data[..r2.n]), data[r2.n..], o.buf != [], maxBufLen, repaired);
    }
  }

  lemma NextIsTidy(o: Out, e: Event, maxBufLen: int, repaired: bool)
    requires 0 <= maxBufLen && (o.alive ==> Tidy(o, maxBufLen))
    ensures var o' := Next(o, e, maxBufLen, repaired); o'.alive ==> Tidy(o', maxBufLen)
  {
    if Possible(o, e) && e.SendEvent? {
      SendIsTidy(o, e.data, e.r1, e.r2, maxBufLen, repaired);
    }
  }

  /** Arming and the two limits do not depend on the repairs: they hold in every run of the code
      as it stands, too. */
  lemma {:induction false} AlwaysTidy(o: Out, es: seq<Event>, maxBufLen: int, repaired: bool)
    requires 0 <= maxBufLen && (o.alive ==> Tidy(o, maxBufLen))
    ensures var o' := Run(o, es, maxBufLen, repaired); o'.alive ==> Tidy(o', maxBufLen)
    decreases |es|
  {
    if es != [] {
      NextIsTidy(o, es[0], maxBufLen, repaired);
      AlwaysTidy(Next(o, es[0], maxBufLen, repaired), es[1..], maxBufLen, repaired);
    }
  }

  // -------------------------------------------------------------------- who lives, counted

  /** How many of the bytes in sbf are left by a flush that put r.n on the socket. */
  function Left(o: Out, r: Result, repaired: bool): int {
    if r.n == |o.buf| && !repaired then |o.buf| else |o.buf| - r.n
  }

  /** How many bytes do_fd_send has to keep: all of the new ones if it did not come to send them. */
  function ToKeep(o: Out, e: Event, repaired: bool): int
    requires e.SendEvent?
  {
    if Left(o, e.r1, repaired) > 0 then |e.data| else |e.data| - e.r2.n
  }

  /** None of the calls of safe_tcp_send_n that are made fails; and if there are bytes to keep, and a
      limit, what waits then is within it, or the bytes are dropped for want of a buffer. */
  predicate Survives(o: Out, e: Event, maxBufLen: int, repaired: bool) {
    match e
    case SendEvent(_, r1, r2) =>
      var left, kept := Left(o, r1, repaired), ToKeep(o, e, repaired);
      && (|o.buf| > 0 ==> r1.Done?) && (left == 0 ==> r2.Done?)
      && (maxBufLen == 0 || kept == 0 || left + kept <= maxBufLen || (!repaired && !o.hasBuf))
    case ReadyEvent(r) => |o.buf| > 0 ==> r.Done?
  }

  /** A connection survives an event exactly then; and how many bytes wait in how large a buffer if
      it does. */
  lemma EventSurvivesIff(o: Out, e: Event, maxBufLen: int, repaired: bool)
    requires Possible(o, e)
    ensures var o' := Step(o, e, maxBufLen, repaired);
      && (o'.alive <==> Survives(o, e, maxBufLen, repaired))
      && (o'.alive && e.ReadyEvent? ==> |o'.buf| == Left(o, e.r, repaired) && o'.size == o.size)
      && (o'.alive && e.SendEvent? ==>
            var left, kept := Left(o, e.r1, repaired), ToKeep(o, e, repaired);
            if kept > 0 && !repaired && !o.hasBuf then |o'.buf| == left && o'.size == o.size
            else |o'.buf| == left + kept && o'.size == if kept > 0 && o.size < left + kept then left + kept else o.size)
  {
    if e.SendEvent? {
      SendSurvivesIff(o, e.data, e.r1, e.r2, maxBufLen, repaired);
    }
  }

  lemma SendSurvivesIff(o: Out, data: seq<Byte>, r1: Result, r2: Result, maxBufLen: int, repaired: bool)
    requires Possible(o, SendEvent(data, r1, r2))
    ensures var o', e := Send(o, data, r1, r2, maxBufLen, repaired), SendEvent(data, r1, r2);
      && (o'.alive <==> Survives(o, e, maxBufLen, repaired))
      && (o'.alive ==>
            var left, kept := Left(o, r1, repaired), ToKeep(o, e, repaired);
            if kept > 0 && !repaired && !o.hasBuf then |o'.buf| == left && o'.size == o.size
            else |o'.buf| == left + kept && o'.size == if kept > 0 && o.size < left + kept then left + kept else o.size)
  {
    var o0 := o.(given := o.given + data);
    var o1 := if o.buf != [] then Flush(o0, r1, repaired) else o0;
    if o.buf == [] || r1.Done? {
      assert |o1.buf| == Left(o, r1, repaired);
    }
  }

  /** Which bytes go out and which wait, if it survives. */
  lemma EventMoves(o: Out, e: Event, maxBufLen: int, repaired: bool)
    requires Possible(o, e) && Step(o, e, maxBufLen, repaired).alive
    ensures var o' := Step(o, e, maxBufLen, repaired);
      match e {
        case ReadyEvent(r) =>
          && o'.wire == o.wire + o.buf[..r.n] && o'.given == o.given
          && o'.buf == o.buf[|o.buf| - Left(o, r, repaired)..]
        case SendEvent(data, r1, r2) =>
          var left, kept := Left(o, r1, repaired), ToKeep(o, e, repaired);
          && o'.wire == (o.wire + o.buf[..r1.n]) + (if left == 0 then data[..r2.n] else []) && o'.given == o.given + data
          && o'.buf == o.buf[|o.buf| - left..] +
               (if kept > 0 && !repaired && !o.hasBuf then [] else data[|data| - kept..])
      }
  {
    match e
    case SendEvent(data, r1, r2) => SendMoves(o, data, r1, r2, maxBufLen, repaired);
    case ReadyEvent(r) => FlushMoves(o, r, repaired);
  }

  lemma FlushMoves(o: Out, r: Result, repaired: bool)
    requires r.n <= |o.buf| && (o.buf != [] ==> r.Done?)
    ensures var o' := if o.buf != [] then Flush(o, r, repaired) else o;
      && o'.wire == o.wire + o.buf[..r.n] && o'.buf == o.buf[|o.buf| - Left(o, r, repaired)..]
      && o'.given == o.given && o'.hasBuf == o.hasBuf && |o'.buf| == Left(o, r, repaired)
  {
    assert o.wire + [] == o.wire && o.buf[0..] == o.buf;
    if o.buf == [] {
      assert o.buf[..r.n] == [];
    }
  }

  lemma SendMoves(o: Out, data: seq<Byte>, r1: Result, r2: Result, maxBufLen: int, repaired: bool)
    requires Possible(o, SendEvent(data, r1, r2)) && Send(o, data, r1, r2, maxBufLen, repaired).alive
    ensures var o', e := Send(o, data, r1, r2, maxBufLen, repaired), SendEvent(data, r1, r2);
      var left, kept := Left(o, r1, repaired), ToKeep(o, e, repaired);
      && o'.wire == (o.wire + o.buf[..r1.n]) + (if left == 0 then data[..r2.n] else []) && o'.given == o.given + data
      && o'.buf == o.buf[|o.buf| - left..] +
           (if kept > 0 && !repaired && !o.hasBuf then [] else data[|data| - kept..])
  {
    var o0 := o.(given := o.given + data);
    var o1 := if o.buf != [] then Flush(o0, r1, repaired) else o0;
    SendInTwo(o, data, r1, r2, maxBufLen, repaired);
    FlushMoves(o0, r1, repaired);
    SentOn(o1, data, r2, o.buf != [], maxBufLen, repaired);
    assert o1.buf == [] <==> Left(o, r1, repaired) == 0;
  }

  lemma SendInTwo(o: Out, data: seq<Byte>, r1: Result, r2: Result, maxBufLen: int, repaired: bool)
    requires Possible(o, SendEvent(data, r1, r2)) && Send(o, data, r1, r2, maxBufLen, repaired).alive
    ensures o.buf != [] ==> r1.Done?
    ensures var o0 := o.(given := o.given + data);
      Send(o, data, r1, r2, maxBufLen, repaired) ==
        SendOn(if o.buf != [] then Flush(o0, r1, repaired) else o0, data, r2, o.buf != [], maxBufLen, repaired)
  {
  }

  lemma SentOn(o: Out, data: seq<Byte>, r: Result, flushed: bool, maxBufLen: int, repaired: bool)
    requires r.n <= |data| && SendOn(o, data, r, flushed, maxBufLen, repaired).alive
    ensures var o' := SendOn(o, data, r, flushed, maxBufLen, repaired);
      var kept := if o.buf != [] then |data| else |data| - r.n;
      && o'.wire == o.wire + (if o.buf == [] then data[..r.n] else []) && o'.given == o.given
      && o'.buf == o.buf + (if kept > 0 && !repaired && !o.hasBuf then [] else data[|data| - kept..])
  {
    assert o.wire + [] == o.wire && o.buf + [] == o.buf && data[0..] == data && data[|data|..] == [];
  }

  /** Event k does not close the connection. */
  predicate SurvivesAt(o: Out, es: seq<Event>, k: nat, maxBufLen: int, repaired: bool)
    requires k < |es|
  {
    var now := Run(o, es[..k], maxBufLen, repaired);
    Possible(now, es[k]) ==> Survives(now, es[k], maxBufLen, repaired)
  }

  /** Over a whole run, of the code as it stands and of the repaired code: a connection is alive at
      the end if and only if none of the events closed it. */
  lemma {:induction false} RunSurvivesIff(o: Out, es: seq<Event>, maxBufLen: int, repaired: bool)
    requires o.alive
    ensures Run(o, es, maxBufLen, repaired).alive <==>
              forall k :: 0 <= k < |es| ==> SurvivesAt(o, es, k, maxBufLen, repaired)
    decreases |es|
  {
    if es != [] {
      var o' := Next(o, es[0], maxBufLen, repaired);
      assert es[..0] == [];
      if Possible(o, es[0]) {
        EventSurvivesIff(o, es[0], maxBufLen, repaired);
      }
      assert o'.alive <==> SurvivesAt(o, es, 0, maxBufLen, repaired);
      if o'.alive {
        RunSurvivesIff(o', es[1..], maxBufLen, repaired);
        forall k | 0 < k < |es|
          ensures SurvivesAt(o, es, k, maxBufLen, repaired) == SurvivesAt(o', es[1..], k - 1, maxBufLen, repaired)
        {
          assert es[..k][1..] == es[1..][..k - 1] && es[..k][0] == es[0];
        }
        forall k | 0 <= k < |es| - 1
          ensures SurvivesAt(o', es[1..], k, maxBufLen, repaired) == SurvivesAt(o, es, k + 1, maxBufLen, repaired)
        {
        }
      } else {
        StaysClosed(o', es[1..], maxBufLen, repaired);
      }
    }
  }

  lemma {:induction false} StaysClosed(o: Out, es: seq<Event>, maxBufLen: int, repaired: bool)
    requires !o.alive
    ensures Run(o, es, maxBufLen, repaired) == o
    decreases |es|
  {
    if es != [] {
      StaysClosed(o, es[1..], maxBufLen, repaired);
    }
  }

  // ------------------------------------------------------------------------- as it stands

  /** What the code as it stands can cope with: no flush is completed, and no bytes have to be
      kept for a connection that has no buffer yet. */
  predicate Clean(o: Out, e: Event) {
    match e
    case SendEvent(data, r1, r2) => if o.buf != [] then r1.n < |o.buf| else r2.n == |data| || o.hasBuf
    case ReadyEvent(r) => o.buf != [] ==> r.n < |o.buf|
  }

  /** No event of a run is one that the code does not cope with and the connection survives. */
  predicate CleanRun(o: Out, es: seq<Event>, maxBufLen: int)
    decreases |es|
  {
    es != [] ==>
      var o' := Next(o, es[0], maxBufLen, false);
      && (Possible(o, es[0]) && o'.alive ==> Clean(o, es[0]))
      && CleanRun(o', es[1..], maxBufLen)
  }

  predicate PreservedThroughout(o: Out, es: seq<Event>, maxBufLen: int) {
    forall k :: 0 <= k <= |es| ==> PreservedAfter(o, es[..k], maxBufLen)
  }

  predicate PreservedAfter(o: Out, es: seq<Event>, maxBufLen: int) {
    var o' := Run(o, es, maxBufLen, false);
    o'.alive ==> Preserved(o')
  }

  /** As it stands, one event on a connection that survives it preserves the stream exactly when
      it is clean: a completed flush leaves bytes that will be sent again, and what is to be kept
      without a buffer is dropped. */
  lemma EventPreservesIff(o: Out, e: Event, maxBufLen: int)
    requires Possible(o, e) && Preserved(o) && (o.buf != [] ==> o.hasBuf)
    requires Step(o, e, maxBufLen, false).alive
    ensures Preserved(Step(o, e, maxBufLen, false)) <==> Clean(o, e)
  {
    match e
    case SendEvent(data, r1, r2) =>
      if o.buf == [] {
        DirectSendPreservesIff(o, data, r1, r2, maxBufLen);
      } else {
        FlushAndKeepPreservesIff(o, data, r1, r2, maxBufLen);
      }
    case ReadyEvent(r) =>
      if o.buf != [] {
        SentInTwo(o.wire, o.buf, r.n);
        assert |Step(o, e, maxBufLen, false).wire| == |o.wire| + r.n;
      }
  }

  lemma DirectSendPreservesIff(o: Out, data: seq<Byte>, r1: Result, r2: Result, maxBufLen: int)
    requires Possible(o, SendEvent(data, r1, r2)) && Preserved(o) && o.buf == []
    requires Send(o, data, r1, r2, maxBufLen, false).alive
    ensures Preserved(Send(o, data, r1, r2, maxBufLen, false)) <==> r2.n == |data| || o.hasBuf
  {
    var o' := Send(o, data, r1, r2, maxBufLen, false);
    SentInTwo(o.wire, data, r2.n);
    assert o.wire == o.given;
    assert |o'.wire| + |o'.buf| == |o.given| + (if r2.n == |data| || o.hasBuf then |data| else r2.n);
  }

  lemma FlushAndKeepPreservesIff(o: Out, data: seq<Byte>, r1: Result, r2: Result, maxBufLen: int)
    requires Possible(o, SendEvent(data, r1, r2)) && Preserved(o) && o.buf != [] && o.hasBuf
    requires Send(o, data, r1, r2, maxBufLen, false).alive
    ensures Preserved(Send(o, data, r1, r2, maxBufLen, false)) <==> r1.n < |o.buf|
  {
    var o' := Send(o, data, r1, r2, maxBufLen, false);
    if r1.n < |o.buf| {
      SentInTwo(o.wire, o.buf, r1.n);
      assert o'.wire + o'.buf == (o.wire + o.buf) + data;
    } else {
      assert |o'.wire| + |o'.buf| > |o'.given|;
    }
  }

  /** As it stands, for every run: the stream is preserved after each event if and only if each
      event that the connection survives is clean. */
  lemma {:induction false} PreservedThroughoutIff(o: Out, es: seq<Event>, maxBufLen: int)
    requires 0 <= maxBufLen && Good(o, maxBufLen)
    ensures PreservedThroughout(o, es, maxBufLen) <==> CleanRun(o, es, maxBufLen)
    decreases |es|
  {
    assert es[..0] == [];
    if es != [] {
      var o' := Next(o, es[0], maxBufLen, false);
      NextIsTidy(o, es[0], maxBufLen, false);
      if Possible(o, es[0]) && o'.alive {
        EventPreservesIff(o, es[0], maxBufLen);
      }
      FirstThenRest(o, es, maxBufLen);
      if o'.alive ==> Preserved(o') {
        PreservedThroughoutIff(o', es[1..], maxBufLen);
      } else {
        assert !PreservedAfter(o', es[1..][..0], maxBufLen);
      }
    }
  }

  lemma FirstThenRest(o: Out, es: seq<Event>, maxBufLen: int)
    requires es != [] && PreservedAfter(o, es[..0], maxBufLen)
    ensures PreservedThroughout(o, es, maxBufLen) <==>
              PreservedThroughout(Next(o, es[0], maxBufLen, false), es[1..], maxBufLen)
  {
    var o' := Next(o, es[0], maxBufLen, false);
    forall k | 0 <= k < |es|
      ensures PreservedAfter(o, es[..k + 1], maxBufLen) == PreservedAfter(o', es[1..][..k], maxBufLen)
    {
      assert es[..k + 1][1..] == es[1..][..k];
    }
    if PreservedThroughout(o', es[1..], maxBufLen) {
      forall k | 0 <= k <= |es| ensures PreservedAfter(o, es[..k], maxBufLen) {
        if k > 0 {
          assert PreservedAfter(o', es[1..][..k - 1], maxBufLen);
        }
      }
    }
  }

  /** The first partial write of a connection loses the rest of its data, and the rest of the
      second is sent twice. */
  lemma BrokenAsItStands()
    ensures var o := Run(New(), [SendEvent([1, 2], Done(0), Done(1))], 0, false);
      o.alive && o.wire == [1] && o.buf == [] && o.given == [1, 2]
    ensures var o := Run(New(), [SendEvent([1, 2], Done(0), Done(1)), SendEvent([3, 4], Done(0), Done(1)),
                                 ReadyEvent(Done(1)), ReadyEvent(Done(1))], 0, false);
      o.alive && o.wire == [1, 3, 4, 4]
  {
    var e1, e2, e3 := SendEvent([1, 2], Done(0), Done(1)), SendEvent([3, 4], Done(0), Done(1)), ReadyEvent(Done(1));
    var o1 := Step(New(), e1, 0, false);
    assert o1 == Out([], true, 0, false, [1], [1, 2], true);
    var o2 := Step(o1, e2, 0, false);
    assert o2 == Out([4], true, 1, true, [1, 3], [1, 2, 3, 4], true);
    var o3 := Step(o2, e3, 0, false);
    assert o3 == o2.(wire := [1, 3, 4]);
    var o4 := Step(o3, e3, 0, false);
    assert o4 == o2.(wire := [1, 3, 4, 4]);
    assert [e1][1..] == [];
    var es := [e1, e2, e3, e3];
    assert es[1..] == [e2, e3, e3] && [e2, e3, e3][1..] == [e3, e3] && [e3, e3][1..] == [e3] && [e3][1..] == [];
    assert Run(o1, [e2, e3, e3], 0, false) == Run(o2, [e3, e3], 0, false) == Run(o3, [e3], 0, false) == o4;
  }

  // -------------------------------------------------------------------- the code itself

  /** What a sequence of send() calls makes of the n bytes that are left of a total. */
  function Outcome(sent: nat, total: nat, outs: seq<Sent>): (r: Result)
    requires sent <= total
    ensures sent <= r.n <= total
    decreases |outs|
  {
    if sent == total || outs == [] || outs[0] == Full then Done(sent)
    else if outs[0] == Broken then Failed(sent)
    else if outs[0] == Interrupted then Outcome(sent, total, outs[1..])
    else Outcome(if outs[0].n <= total - sent then sent + outs[0].n else total, total, outs[1..])
  }

  /** How many bytes the socket takes before it is full or broken, and which of the two it is. */
  function TakenBy(outs: seq<Sent>): nat {
    if outs == [] || outs[0] == Full || outs[0] == Broken then 0
    else (if outs[0].Took? then outs[0].n else 0) + TakenBy(outs[1..])
  }

  function Ending(outs: seq<Sent>): Sent {
    if outs == [] then Full
    else if outs[0] == Full || outs[0] == Broken then outs[0]
    else Ending(outs[1..])
  }

  /** safe_tcp_send_n sends what the socket takes, and fails if it breaks before all is sent. */
  lemma {:induction false} OutcomeIsTaken(sent: nat, total: nat, outs: seq<Sent>)
    requires sent <= total
    ensures var n := sent + TakenBy(outs);
      Outcome(sent, total, outs) ==
        if n >= total then Done(total) else if Ending(outs) == Broken then Failed(n) else Done(n)
    decreases |outs|
  {
    if sent < total && outs != [] && outs[0] == Interrupted {
      OutcomeIsTaken(sent, total, outs[1..]);
    } else if sent < total && outs != [] && outs[0].Took? {
      OutcomeIsTaken(if outs[0].n <= total - sent then sent + outs[0].n else total, total, outs[1..]);
    }
  }

  /** The sending half of fd_buff_t, with its socket. */
  class SendBuff {
    const repaired: bool
    const maxBufLen: int
    var sbf: array?<Byte>
    var slen: int
    var sbfSize: int
    var armed: bool
    var alive: bool
    var wire: seq<Byte>
    var given: seq<Byte>

    predicate Valid()
      reads this
    {
      && 0 <= slen <= sbfSize && 0 <= maxBufLen
      && (sbf == null ==> sbfSize == 0)
      && (sbf != null ==> sbfSize <= sbf.Length)
    }

    function View(): Out
      requires Valid()
      reads this, sbf
    {
      Out(if sbf == null then [] else sbf[..slen], sbf != null, sbfSize, armed, wire, given, alive)
    }

    constructor (repaired: bool, maxBufLen: int)
      requires 0 <= maxBufLen
      ensures Valid() && View() == New() && this.repaired == repaired && this.maxBufLen == maxBufLen
      ensures sbf == null
    {
      this.repaired, this.maxBufLen := repaired, maxBufLen;
      sbf, slen, sbfSize := null, 0, 0;
      armed, alive, wire, given := false, true, [], [];
    }

    /** safe_tcp_send_n; outs is what the socket will answer, and then that it is full. */
    method SafeTcpSendN(data: seq<Byte>, outs: seq<Sent>) returns (r: int)
      requires data != []
      modifies this`wire
      ensures var res := Outcome(0, |data|, outs);
        wire == old(wire) + data[..res.n] && r == if res.Done? then res.n else -1
      ensures var n := TakenBy(outs);
        if n >= |data| then wire == old(wire) + data && r == |data|
        else wire == old(wire) + data[..n] && r == if Ending(outs) == Broken then -1 else n
    {
      OutcomeIsTaken(0, |data|, outs);
      assert data[..|data|] == data;
      var sendBytes, k := 0, 0;
      while sendBytes < |data|
        invariant 0 <= sendBytes <= |data| && 0 <= k <= |outs|
        invariant Outcome(sendBytes, |data|, outs[k..]) == Outcome(0, |data|, outs)
        invariant wire == old(wire) + data[..sendBytes]
        decreases |outs| - k
      {
        var out := if k < |outs| then outs[k] else Full;
        k := if k < |outs| then k + 1 else k;
        match out {
          case Interrupted =>
          case Full => return sendBytes;
          case Broken => return -1;
          case Took(n) =>
            var curLen := if n <= |data| - sendBytes then n else |data| - sendBytes;
            wire := wire + data[sendBytes..sendBytes + curLen];
            assert data[..sendBytes + curLen] == data[..sendBytes] + data[sendBytes..sendBytes + curLen];
            sendBytes := sendBytes + curLen;
        }
      }
      r := sendBytes;
    }

    method DoFdClose()
      requires Valid()
      modifies this`sbf, this`slen, this`sbfSize, this`alive
      ensures Valid() && View() == Close(old(View())) && sbf == null
    {
      sbf, slen, sbfSize := null, 0, 0;
      alive := false;
    }

    /** memmove in the buffer. */
    method DropFirst(n: int)
      requires Valid() && sbf != null && 0 <= n <= slen
      modifies sbf, this`slen
      ensures Valid() && sbf[..slen] == old(sbf[n..slen])
    {
      forall i | 0 <= i < slen - n {
        sbf[i] := sbf[n + i];
      }
      slen := slen - n;
    }

    method DoFdWrite(outs: seq<Sent>) returns (r: int)
      requires Valid() && 0 < slen
      modifies this`slen, this`wire, sbf
      ensures Valid() && View() == Flush(old(View()), Outcome(0, old(slen), outs), repaired)
      ensures r == if Outcome(0, old(slen), outs).Done? then Outcome(0, old(slen), outs).n else -1
    {
      r := SafeTcpSendN(sbf[..slen], outs);
      if r > 0 && (r < slen || repaired) {
        DropFirst(r);
      }
    }

    /** malloc or realloc to hold need bytes. */
    method Grow(need: int)
      requires Valid() && slen <= need && sbfSize < need
      modifies this`sbf, this`sbfSize
      ensures Valid() && sbf != null && fresh(sbf) && sbfSize == need == sbf.Length
      ensures sbf[..slen] == if old(sbf) == null then [] else old(sbf[..slen])
    {
      var bigger := new Byte[need](_ => 0);
      if sbf != null {
        forall i | 0 <= i < slen {
          bigger[i] := sbf[i];
        }
      }
      sbf, sbfSize := bigger, need;
    }

    method Append(rest: seq<Byte>)
      requires Valid() && sbf != null && slen + |rest| <= sbfSize
      modifies this`slen, sbf
      ensures Valid() && sbf[..slen] == old(sbf[..slen]) + rest
    {
      forall i | 0 <= i < |rest| {
        sbf[slen + i] := rest[i];
      }
      slen := slen + |rest|;
    }

    /** Lines 372-407 of do_fd_send. */
    method KeepRest(rest: seq<Byte>, isSend: bool) returns (r: int)
      requires Valid()
      modifies this, sbf
      ensures Valid() && View() == Keep(old(View()), rest, isSend, maxBufLen, repaired)
      ensures r == 0 || r == -1
      ensures old(alive) ==> (r == -1 <==> !alive || Dropped(old(View()), rest, repaired))
      ensures old(alive) ==>
                (alive <==> rest == [] || maxBufLen == 0 || old(slen) + |rest| <= maxBufLen || (!repaired && old(sbf) == null))
      ensures rest == [] ==> sbf == old(sbf)
    {
      if |rest| > 0 {
        if sbf == null {
          if repaired {
            Grow(|rest|);
          } else {
            sbf := new Byte[|rest|](_ => 0);
            return -1;
          }
        } else if sbfSize < slen + |rest| {
          Grow(slen + |rest|);
        }
        Append(rest);
        if maxBufLen != 0 && maxBufLen < slen {
          DoFdClose();
          return -1;
        }
      }
      if slen > 0 && !isSend {
        armed := true;
      } else if slen == 0 {
        armed := false;
      }
      r := 0;
    }

    method DoFdSend(data: seq<Byte>, outs1: seq<Sent>, outs2: seq<Sent>) returns (r: int)
      requires Valid() && data != []
      modifies this, sbf
      ensures Valid()
      ensures View() == Send(old(View()), data, Outcome(0, old(slen), outs1), Outcome(0, |data|, outs2), maxBufLen, repaired)
      ensures r == 0 || r == -1
      ensures old(alive) ==> (r == -1 <==> !alive || (!repaired && sbf != null && old(sbf) == null))
      ensures old(alive) ==>
                (alive <==> Survives(old(View()), SendEvent(data, Outcome(0, old(slen), outs1), Outcome(0, |data|, outs2)),
                                     maxBufLen, repaired))
    {
      if alive {
        SendSurvivesIff(View(), data, Outcome(0, slen, outs1), Outcome(0, |data|, outs2), maxBufLen, repaired);
      }
      given := given + data;
      var isSend := false;
      if slen > 0 {
        var w := DoFdWrite(outs1);
        if w == -1 {
          DoFdClose();
          return -1;
        }
        isSend := true;
      }
      r := SendNew(data, outs2, isSend);
    }

    /** Lines 363-407: the new data is sent, unless older bytes still wait, and the rest is kept. */
    method SendNew(data: seq<Byte>, outs: seq<Sent>, isSend: bool) returns (r: int)
      requires Valid() && data != []
      modifies this, sbf
      ensures Valid() && (r == 0 || r == -1)
      ensures View() == SendOn(old(View()), data, Outcome(0, |data|, outs), isSend, maxBufLen, repaired)
      ensures old(alive) ==> (r == -1 <==> !alive || (!repaired && sbf != null && old(sbf) == null))
    {
      var sendLen := 0;
      if slen == 0 {
        sendLen := SafeTcpSendN(data, outs);
        if sendLen == -1 {
          DoFdClose();
          return -1;
        }
      }
      r := KeepRest(data[sendLen..], isSend);
    }

    /** The EPOLLOUT branch of master_dispatch and work_dispatch. */
    method OnWriteReady(outs: seq<Sent>)
      requires Valid()
      modifies this, sbf
      ensures Valid() && View() == WriteReady(old(View()), Outcome(0, old(slen), outs), repaired)
    {
      if slen > 0 {
        var w := DoFdWrite(outs);
        if w == -1 {
          DoFdClose();
        }
      }
      if slen == 0 {
        armed := false;
      }
    }
  }
}
