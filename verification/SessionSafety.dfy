/** What holds on every run of the connection protocol, whatever pushes find no room, and what
    a lost block breaks. */
module SessionSafety {
  import opened Layout
  import opened Told
  import opened Session
  import opened SessionSteps

  // ------------------------------------------------------------------------- the blocks

  /** In every run: a DATA or CLOSE block that met a session was for that session's connection
      if and only if the CLOSE of that connection had not been lost before the block was pushed;
      and no OPEN block that was popped met a session. */
  lemma BlocksMetAreRightIff(workers: nat, listen: map<int, int>, acts: seq<Act>, i: int, j: int)
    requires Setup(workers, listen)
    requires var s := Reached(workers, listen, acts);
      0 <= i < |s.works| && 0 <= j < |s.works[i].done| && s.works[i].met[j] != 0
    ensures var k := Reached(workers, listen, acts).works[i];
      var m, c := k.done[j], k.met[j];
      && m.blk.kind != BLK_OPEN
      && (m.inc == c <==> !LostClose(Before(k.tried, j), m.blk.fd, c))
  {
    assert WorkInv(Reached(workers, listen, acts), i);
  }

  /** The block at the front of a receive queue, against the session on its descriptor: an OPEN
      is refused, and a DATA or CLOSE reaches the wrong session, if and only if the CLOSE of that
      session's connection had been lost before the block was pushed. In particular the CLOSE
      with which the master answers a worker's CLOSE never ends a later session. */
  lemma FrontBlockIsRightIff(workers: nat, listen: map<int, int>, acts: seq<Act>, i: int)
    requires Setup(workers, listen)
    requires var s := Reached(workers, listen, acts);
      && 0 <= i < |s.works| && !s.works[i].wrecked
      && s.works[i].rq != [] && s.works[i].rq[0].blk.fd in s.works[i].table
    ensures var k := Reached(workers, listen, acts).works[i];
      var m := k.rq[0];
      var c := k.table[m.blk.fd].inc;
      var lost := LostClose(Before(k.tried, |k.done|), m.blk.fd, c);
      && (m.blk.kind == BLK_OPEN ==> lost && !DoBlkOpen(k, m).0)
      && (m.blk.kind != BLK_OPEN ==> (m.inc == c <==> !lost))
  {
    var s := Reached(workers, listen, acts);
    var k := s.works[i];
    assert WorkInv(s, i);
    FrontIsReady(s.open, s.next, i, k);
    FrontIsRight(i, SeenAfter(k.done).link, k, k.rq[0], Before(k.tried, |k.done|));
  }

  /** An OPEN for a descriptor without a session is always accepted. */
  lemma OpenIsRefusedIff(workers: nat, listen: map<int, int>, acts: seq<Act>, i: int)
    requires Setup(workers, listen)
    requires var s := Reached(workers, listen, acts);
      && 0 <= i < |s.works| && !s.works[i].wrecked
      && s.works[i].rq != [] && s.works[i].rq[0].blk.kind == BLK_OPEN
    ensures var k := Reached(workers, listen, acts).works[i];
      var m := k.rq[0];
      !DoBlkOpen(k, m).0 <==>
        m.blk.fd in k.table && LostClose(Before(k.tried, |k.done|), m.blk.fd, k.table[m.blk.fd].inc)
  {
    var s := Reached(workers, listen, acts);
    var k := s.works[i];
    assert WorkInv(s, i);
    FrontIsReady(s.open, s.next, i, k);
    if k.rq[0].blk.fd in k.table {
      FrontBlockIsRightIff(workers, listen, acts, i);
    }
  }

  // ------------------------------------------------------------------------- the messages

  lemma {:induction false} OneNotOwn(done: seq<Msg>, met: seq<nat>, inc: nat, j: nat)
    requires |met| == |done| && j <= |done|
    requires j < |done| ==> done[j].blk.kind == BLK_DATA && met[j] == inc && done[j].inc != inc
    ensures |HandedOwn(done, met, inc)| <= |Handed(done, met, inc)|
    ensures j < |done| ==> |HandedOwn(done, met, inc)| < |Handed(done, met, inc)|
    decreases |done|
  {
    if done != [] {
      var n := |done| - 1;
      OneNotOwn(done[..n], met[..n], inc, if j < n then j else n);
    }
  }

  lemma HandedIsOwnIff(done: seq<Msg>, met: seq<nat>, inc: nat)
    requires |met| == |done|
    ensures Handed(done, met, inc) == HandedOwn(done, met, inc) <==>
              forall j :: 0 <= j < |done| && done[j].blk.kind == BLK_DATA && met[j] == inc ==> done[j].inc == inc
  {
    if j :| 0 <= j < |done| && done[j].blk.kind == BLK_DATA && met[j] == inc && done[j].inc != inc {
      OneNotOwn(done, met, inc, j);
    } else {
      AllOwn(done, met, inc);
    }
  }

  /** A DATA block got to the session inc after the CLOSE of inc was lost. */
  predicate Strayed(k: Work, inc: nat)
    requires |k.met| == |k.done|
  {
    exists j :: 0 <= j < |k.done| && k.done[j].blk.kind == BLK_DATA && k.met[j] == inc
                && LostClose(Before(k.tried, j), k.done[j].blk.fd, inc)
  }

  /** All that proc_cli_msg got for the session inc. */
  function AllHanded(k: Work, inc: nat): seq<Frame>
    requires |k.met| == |k.done| && |k.misled| == |k.misread|
  {
    Handed(k.done, k.met, inc) + HandedAstray(k.misread, k.misled, inc)
  }

  /** After the worker had refused an OPEN, it took something for a message to the session inc. */
  predicate Misled(k: Work, inc: nat)
    requires |k.misled| == |k.misread|
  {
    exists j :: 0 <= j < |k.misread| && k.misread[j].kind == BLK_DATA && k.misled[j] == inc
  }

  lemma {:induction false} AstrayIffMisled(misread: seq<Block>, misled: seq<nat>, inc: nat)
    requires |misled| == |misread|
    ensures HandedAstray(misread, misled, inc) == [] <==>
              !exists j :: 0 <= j < |misread| && misread[j].kind == BLK_DATA && misled[j] == inc
    decreases |misread|
  {
    if misread != [] {
      var n := |misread| - 1;
      AstrayIffMisled(misread[..n], misled[..n], inc);
      assert forall j :: 0 <= j < n ==> misread[..n][j] == misread[j] && misled[..n][j] == misled[j];
    }
  }

  lemma StrayedIff(k: Work, inc: nat)
    requires MetInv(k) && 1 <= inc
    ensures Strayed(k, inc) <==>
              exists j :: 0 <= j < |k.done| && k.done[j].blk.kind == BLK_DATA && k.met[j] == inc && k.done[j].inc != inc
  {
    forall j | 0 <= j < |k.done| && k.done[j].blk.kind == BLK_DATA && k.met[j] == inc
      ensures LostClose(Before(k.tried, j), k.done[j].blk.fd, inc) <==> k.done[j].inc != inc
    {
      assert Met(Before(k.tried, j), k.done[j], k.met[j]);
    }
  }

  lemma AllOwnIff(k: Work, inc: nat)
    requires MetInv(k) && |k.misled| == |k.misread| && 1 <= inc
    ensures AllHanded(k, inc) == HandedOwn(k.done, k.met, inc) <==> !Strayed(k, inc) && !Misled(k, inc)
  {
    var own, handed, astray := HandedOwn(k.done, k.met, inc), Handed(k.done, k.met, inc), HandedAstray(k.misread, k.misled, inc);
    StrayedIff(k, inc);
    HandedIsOwnIff(k.done, k.met, inc);
    AstrayIffMisled(k.misread, k.misled, inc);
    OneNotOwn(k.done, k.met, inc, |k.done|);
    assert handed + [] == handed;
    if astray != [] {
      assert |AllHanded(k, inc)| > |own|;
    }
  }

  lemma OwnIsPrefix(s: Sys, i: int, inc: nat)
    requires Inv(s) && 0 <= i < |s.works| && 1 <= inc
    ensures var k := s.works[i];
      && |k.met| == |k.done| && |k.misled| == |k.misread|
      && HandedOwn(k.done, k.met, inc) <= Look(s.cut, inc)
      && (AllHanded(k, inc) == HandedOwn(k.done, k.met, inc) <==> !Strayed(k, inc) && !Misled(k, inc))
  {
    var k := s.works[i];
    assert WorkInv(s, i);
    FramesSplit(k.done, k.rq, inc);
    assert HandedOwn(k.done, k.met, inc) <= Frames(k.done, inc) <= Frames(k.done + k.rq, inc) <= Look(s.cut, inc);
    AllOwnIff(k, inc);
  }

  /** In every run, the messages of its own connection that a session gets from blocks are, in
      order and byte for byte, the first ones that the master cut from that connection; and it
      gets nothing else if and only if no message for its descriptor came after its CLOSE was
      lost, and none was read to it after its worker had refused an OPEN. */
  lemma DeliveredIsPrefixOfCut(workers: nat, listen: map<int, int>, acts: seq<Act>, i: int, inc: nat)
    requires Setup(workers, listen) && 1 <= inc
    requires 0 <= i < |Reached(workers, listen, acts).works|
    ensures var s := Reached(workers, listen, acts);
      var k := s.works[i];
      && HandedOwn(k.done, k.met, inc) <= Look(s.cut, inc)
      && (AllHanded(k, inc) == HandedOwn(k.done, k.met, inc) <==> !Strayed(k, inc) && !Misled(k, inc))
  {
    OwnIsPrefix(Reached(workers, listen, acts), i, inc);
  }

  /** What can be told of one connection: if its CLOSE was not lost and its worker has refused no
      OPEN, everything its session got is a prefix of what was cut from it. */
  lemma PrefixUnlessCloseLost(workers: nat, listen: map<int, int>, acts: seq<Act>, i: int, inc: nat)
    requires Setup(workers, listen) && 1 <= inc
    requires 0 <= i < |Reached(workers, listen, acts).works|
    requires var k := Reached(workers, listen, acts).works[i];
      !k.wrecked && forall fd :: !LostClose(k.tried, fd, inc)
    ensures var s := Reached(workers, listen, acts);
      AllHanded(s.works[i], inc) <= Look(s.cut, inc)
  {
    var s := Reached(workers, listen, acts);
    var k := s.works[i];
    OwnIsPrefix(s, i, inc);
    assert WorkInv(s, i);
    if Strayed(k, inc) {
      var j :| 0 <= j < |k.done| && LostClose(Before(k.tried, j), k.done[j].blk.fd, inc);
      LostBefore(k.tried, j, k.done[j].blk.fd, inc);
    }
  }

  /** What the master can tell: if no CLOSE to a worker was lost, the worker has refused no OPEN,
      and everything that any of its sessions got is a prefix of what was cut for it. */
  lemma PrefixIfNoCloseLost(workers: nat, listen: map<int, int>, acts: seq<Act>, i: int, inc: nat)
    requires Setup(workers, listen) && 1 <= inc
    requires 0 <= i < |Reached(workers, listen, acts).works|
    requires !SomeCloseLost(Reached(workers, listen, acts).works[i].tried)
    ensures var s := Reached(workers, listen, acts);
      && !s.works[i].wrecked
      && AllHanded(s.works[i], inc) <= Look(s.cut, inc)
  {
    assert WorkInv(Reached(workers, listen, acts), i);
    PrefixUnlessCloseLost(workers, listen, acts, i, inc);
  }

  /** While both ends have the connection and the worker has refused no OPEN, the messages not
      delivered yet are exactly those in the worker's receive queue. */
  lemma NothingIsLostWhileOpen(workers: nat, listen: map<int, int>, acts: seq<Act>, i: int, fd: int)
    requires Setup(workers, listen)
    requires var s := Reached(workers, listen, acts);
      && 0 <= i < |s.works| && !s.works[i].wrecked && fd in s.open && fd in s.works[i].table
      && s.open[fd] == s.works[i].table[fd]
    ensures var s := Reached(workers, listen, acts);
      var k, inc := s.works[i], s.open[fd].inc;
      AllHanded(k, inc) + Frames(k.rq, inc) == Look(s.cut, inc)
  {
    var s := Reached(workers, listen, acts);
    var k, inc := s.works[i], s.open[fd].inc;
    assert WorkInv(s, i) && FdInv(s, fd);
    assert s.open[fd].idx == i;
    ClosedOnce(i, k.tried);
    OwnIsPrefix(s, i, inc);
    if Strayed(k, inc) {
      var j :| 0 <= j < |k.done| && LostClose(Before(k.tried, j), k.done[j].blk.fd, inc);
      LostBefore(k.tried, j, k.done[j].blk.fd, inc);
    }
    FramesSplit(k.done, k.rq, inc);
  }

  // ------------------------------------------------------------------------- the sessions

  /** The two tables account for each other, up to what is on its way: a session that the master does not have has
      its CLOSE in the receive queue; a connection that the worker does not have has its OPEN
      there, or the worker's CLOSE is in the send queue. */
  ghost predicate Accounted(s: Sys, i: int)
    requires 0 <= i < |s.works|
  {
    var k := s.works[i];
    && (forall fd :: fd in k.table ==>
          (fd in s.open && s.open[fd] == k.table[fd]) || Has(k.rq, BLK_CLOSE, fd, k.table[fd].inc))
    && (forall fd :: fd in s.open && s.open[fd].idx == i ==>
          || (fd in k.table && s.open[fd] == k.table[fd])
          || Has(k.rq, BLK_OPEN, fd, s.open[fd].inc)
          || Has(k.sq, BLK_CLOSE, fd, s.open[fd].inc))
  }

  /** Which lost blocks matter: the CLOSE of a session that the worker still has, and the OPEN
      of a connection that the master still has, or the worker's CLOSE for it. */
  ghost predicate NoLossMatters(s: Sys, i: int)
    requires 0 <= i < |s.works|
  {
    var k := s.works[i];
    && (forall fd :: fd in k.table ==> !LostClose(k.tried, fd, k.table[fd].inc))
    && (forall fd :: fd in s.open && s.open[fd].idx == i ==>
          !LostOpen(k.tried, fd, s.open[fd].inc) && s.open[fd].inc !in k.unsaid)
  }

  lemma SessionAgreesIff(s: Sys, i: int, fd: int)
    requires Inv(s) && 0 <= i < |s.works| && !s.works[i].wrecked && fd in s.works[i].table
    ensures var k := s.works[i];
      (fd in s.open && s.open[fd] == k.table[fd]) || Has(k.rq, BLK_CLOSE, fd, k.table[fd].inc)
      <==> !LostClose(k.tried, fd, k.table[fd].inc)
  {
    var k := s.works[i];
    assert WorkInv(s, i);
    if LostClose(k.tried, fd, k.table[fd].inc) {
      SessionLost(s.open, s.next, i, k, fd);
    } else {
      SessionMissing(s.open, s.next, i, k, fd);
    }
  }

  lemma SessionMissing(open: map<int, Conn>, next: nat, i: int, k: Work, fd: int)
    requires ToldInv(open, next, i, k) && TableInv(i, open, SeenAfter(k.done).link, k)
    requires fd in k.table && !LostClose(k.tried, fd, k.table[fd].inc)
    ensures (fd in open && open[fd] == k.table[fd]) || Has(k.rq, BLK_CLOSE, fd, k.table[fd].inc)
  {
    ClosedHereOrNot(i, k.tried, k.done, k.rq, |k.rq|, fd);
    assert k.rq[..|k.rq|] == k.rq;
    LinksDifferByLosses(i, k.tried);
  }

  lemma SessionLost(open: map<int, Conn>, next: nat, i: int, k: Work, fd: int)
    requires ToldInv(open, next, i, k) && TableInv(i, open, SeenAfter(k.done).link, k)
    requires fd in k.table && LostClose(k.tried, fd, k.table[fd].inc)
    ensures !(fd in open && open[fd] == k.table[fd]) && !Has(k.rq, BLK_CLOSE, fd, k.table[fd].inc)
  {
    var c := k.table[fd];
    ClosedOnce(i, k.tried);
    DoneFacts(open, next, i, k);
    if Has(k.rq, BLK_CLOSE, fd, c.inc) {
      HasBehind(k.done, k.rq, BLK_CLOSE, fd, c.inc);
      HasIsTried(k.tried, BLK_CLOSE, fd, c.inc);
    }
  }

  lemma ConnAgreesIff(s: Sys, i: int, fd: int)
    requires Inv(s) && 0 <= i < |s.works| && !s.works[i].wrecked && fd in s.open && s.open[fd].idx == i
    ensures var k, c := s.works[i], s.open[fd];
      (fd in k.table && c == k.table[fd]) || Has(k.rq, BLK_OPEN, fd, c.inc) || Has(k.sq, BLK_CLOSE, fd, c.inc)
      <==> !LostOpen(k.tried, fd, c.inc) && c.inc !in k.unsaid
  {
    var k, c := s.works[i], s.open[fd];
    assert WorkInv(s, i);
    if !LostOpen(k.tried, fd, c.inc) {
      LinksDifferByLosses(i, k.tried);
      LinkedHereOrBefore(k.done, k.rq, fd);
    }
    if LostOpen(k.tried, fd, c.inc) {
      LostIsNotOpened(i, k.tried);
      if Has(k.rq, BLK_OPEN, fd, c.inc) {
        HasBehind(k.done, k.rq, BLK_OPEN, fd, c.inc);
      }
      if c.inc in k.opens {
        OpenedInFront(k.done, k.rq, c.inc);
      }
    }
    if c.inc in k.unsaid {
      OpenedOnce(i, k.tried, k.done, k.rq, fd, c.inc);
    }
  }

  /** In every run, and for every worker that has refused no OPEN: master and worker account for
      each other's tables if and only if no loss matters. */
  lemma SessionsAccountedIff(workers: nat, listen: map<int, int>, acts: seq<Act>, i: int)
    requires Setup(workers, listen)
    requires var s := Reached(workers, listen, acts); 0 <= i < |s.works| && !s.works[i].wrecked
    ensures var s := Reached(workers, listen, acts); Accounted(s, i) <==> NoLossMatters(s, i)
  {
    var s := Reached(workers, listen, acts);
    forall fd | fd in s.works[i].table
      ensures var k := s.works[i];
        (fd in s.open && s.open[fd] == k.table[fd]) || Has(k.rq, BLK_CLOSE, fd, k.table[fd].inc)
        <==> !LostClose(k.tried, fd, k.table[fd].inc)
    {
      SessionAgreesIff(s, i, fd);
    }
    forall fd | fd in s.open && s.open[fd].idx == i
      ensures var k, c := s.works[i], s.open[fd];
        (fd in k.table && c == k.table[fd]) || Has(k.rq, BLK_OPEN, fd, c.inc) || Has(k.sq, BLK_CLOSE, fd, c.inc)
        <==> !LostOpen(k.tried, fd, c.inc) && c.inc !in k.unsaid
    {
      ConnAgreesIff(s, i, fd);
    }
  }

  /** With nothing on its way, the worker's table is the master's list of its connections,
      addresses included, if and only if no loss matters. */
  lemma QuietTablesAreEqualIff(workers: nat, listen: map<int, int>, acts: seq<Act>, i: int)
    requires Setup(workers, listen)
    requires var s := Reached(workers, listen, acts);
      0 <= i < |s.works| && s.works[i].rq == [] && s.works[i].sq == [] && !s.works[i].wrecked
    ensures var s := Reached(workers, listen, acts);
      s.works[i].table == (map fd | fd in s.open && s.open[fd].idx == i :: s.open[fd]) <==> NoLossMatters(s, i)
  {
    SessionsAccountedIff(workers, listen, acts, i);
    var s := Reached(workers, listen, acts);
    assert WorkInv(s, i);
    QuietAccounted(s, i);
  }

  lemma QuietAccounted(s: Sys, i: int)
    requires 0 <= i < |s.works| && s.works[i].rq == [] && s.works[i].sq == []
    requires forall fd :: fd in s.works[i].table ==> s.works[i].table[fd].idx == i
    ensures Accounted(s, i) <==> s.works[i].table == (map fd | fd in s.open && s.open[fd].idx == i :: s.open[fd])
  {
    var t, u := s.works[i].table, map fd | fd in s.open && s.open[fd].idx == i :: s.open[fd];
    if Accounted(s, i) {
      assert forall fd :: fd in t ==> fd in u && u[fd] == t[fd];
      assert forall fd :: fd in u ==> fd in t;
      assert t.Keys == u.Keys;
    }
    if t == u {
      assert forall fd :: fd in t ==> fd in u && fd in s.open && s.open[fd] == t[fd];
      assert forall fd :: fd in s.open && s.open[fd].idx == i ==> fd in u && fd in t && s.open[fd] == t[fd];
    }
  }

  /** on_cli_closed is called once for each session that has ended and for no other, in every
      run: the sessions opened are those ended and those live. */
  lemma OneCallbackPerSession(workers: nat, listen: map<int, int>, acts: seq<Act>, i: int)
    requires Setup(workers, listen) && 0 <= i < |Reached(workers, listen, acts).works|
    ensures var k := Reached(workers, listen, acts).works[i];
      && |k.opens| == |k.calls| + |k.table|
      && NoRepeats(k.opens) && NoRepeats(k.calls)
      && (forall inc :: inc in k.calls ==> inc in k.opens)
      && (forall fd :: fd in k.table ==> k.table[fd].inc in k.opens && k.table[fd].inc !in k.calls)
  {
    assert WorkInv(Reached(workers, listen, acts), i);
  }

  // --------------------------------------------------------- the blocks of one descriptor

  predicate IsControl(m: Msg, fd: int) {
    m.blk.fd == fd && (m.blk.kind == BLK_OPEN || m.blk.kind == BLK_CLOSE)
  }

  /** The OPEN (true) and CLOSE (false) blocks of one descriptor in a queue. */
  function Controls(q: seq<Msg>, fd: int): seq<bool> {
    if q == [] then []
    else
      var m := q[|q| - 1];
      Controls(q[..|q| - 1], fd) + (if IsControl(m, fd) then [m.blk.kind == BLK_OPEN] else [])
  }

  predicate Alternate(c: seq<bool>) {
    forall j :: 0 <= j < |c| ==> c[j] == (j % 2 == 0)
  }

  /** Whether the rhythm of OPEN and CLOSE has been disturbed an odd number of times for a
      descriptor: by a block that was lost, or by the descriptor having been a listening one, whose
      CLOSE has no OPEN. */
  predicate OutOfStep(t: seq<Try>, fd: int) {
    t != [] &&
    var x := t[|t| - 1];
    OutOfStep(t[..|t| - 1], fd) != (IsControl(x.m, fd) && x.ok == (x.m.inc == 0))
  }

  /** Each OPEN or CLOSE of the descriptor that got in was in step. */
  predicate InStepWhereKept(t: seq<Try>, fd: int) {
    t == [] ||
    (&& InStepWhereKept(t[..|t| - 1], fd)
     && var x := t[|t| - 1];
        (x.ok && IsControl(x.m, fd) ==> !OutOfStep(t, fd)))
  }

  lemma ControlsMore(q: seq<Msg>, m: Msg, fd: int)
    ensures Controls(q + [m], fd) == Controls(q, fd) + (if IsControl(m, fd) then [m.blk.kind == BLK_OPEN] else [])
  {
    assert (q + [m])[..|q|] == q;
  }

  predicate Even(n: nat) {
    n % 2 == 0
  }

  lemma AlternateMore(c: seq<bool>, x: bool)
    ensures Alternate(c + [x]) <==> Alternate(c) && x == Even(|c|)
    ensures Even(|c + [x]|) == !Even(|c|)
  {
    assert (c + [x])[|c|] == x;
    assert forall j :: 0 <= j < |c| ==> (c + [x])[j] == c[j];
  }

  /** One push more, after n blocks that got in: the descriptor is linked exactly if n is odd, or
      even and out of step. */
  lemma LinkedStep(i: int, r: Seen, x: Try, fd: int, n: nat, off: bool)
    requires Fits(i, r, x.m) && Distinct(i, r) && (fd in r.link <==> Even(n) == off)
    ensures var n' := if x.ok && IsControl(x.m, fd) then n + 1 else n;
      var off' := off != (IsControl(x.m, fd) && x.ok == (x.m.inc == 0));
      fd in See(r, x.m).link <==> Even(n') == off'
  {
    assert Even(n + 1) == !Even(n);
  }

  lemma {:induction false} LinkedIffOdd(i: int, t: seq<Try>, fd: int)
    requires Coherent(i, All(t))
    ensures fd in SeenAfter(All(t)).link <==> Even(|Controls(Kept(t), fd)|) == OutOfStep(t, fd)
    decreases |t|
  {
    if t != [] {
      var p, x := t[..|t| - 1], t[|t| - 1];
      LastTry(i, t);
      LinkedIffOdd(i, p, fd);
      LinksAreDistinct(i, p);
      ControlsMore(Kept(p), x.m, fd);
      var n := |Controls(Kept(p), fd)|;
      assert |Controls(Kept(t), fd)| == if x.ok && IsControl(x.m, fd) then n + 1 else n;
      LinkedStep(i, SeenAfter(All(p)), x, fd, n, OutOfStep(p, fd));
    }
  }

  lemma {:induction false} AlternateIffInStep(i: int, t: seq<Try>, fd: int)
    requires Coherent(i, All(t))
    ensures Alternate(Controls(Kept(t), fd)) <==> InStepWhereKept(t, fd)
    decreases |t|
  {
    if t != [] {
      var p, x := t[..|t| - 1], t[|t| - 1];
      LastTry(i, t);
      AlternateIffInStep(i, p, fd);
      ControlsMore(Kept(p), x.m, fd);
      if x.ok && IsControl(x.m, fd) {
        LinkedIffOdd(i, p, fd);
        LinksAreDistinct(i, p);
        AlternateMore(Controls(Kept(p), fd), x.m.blk.kind == BLK_OPEN);
      } else {
        assert Controls(Kept(t), fd) == Controls(Kept(p), fd);
      }
    }
  }

  /** Over the whole life of a receive queue, in every run, the OPEN and CLOSE blocks of a
      descriptor alternate, OPEN first, if and only if each of them was in step: with nothing
      lost, they do. */
  lemma OpenAndCloseAlternateIff(workers: nat, listen: map<int, int>, acts: seq<Act>, i: int, fd: int)
    requires Setup(workers, listen) && 0 <= i < |Reached(workers, listen, acts).works|
    ensures var k := Reached(workers, listen, acts).works[i];
      && Kept(k.tried) == k.done + k.rq
      && (Alternate(Controls(k.done + k.rq, fd)) <==> InStepWhereKept(k.tried, fd))
  {
    var s := Reached(workers, listen, acts);
    assert WorkInv(s, i);
    AlternateIffInStep(i, s.works[i].tried, fd);
  }

  // ------------------------------------------------------------------- where one loss matters

  /** What do_blk_open and do_blk_close will make of the table. */
  function ReplayOne(t: map<int, Conn>, m: Msg): map<int, Conn> {
    var k := NewWork().(table := t);
    if m.blk.kind == BLK_OPEN then DoBlkOpen(k, m).1.table
    else if m.blk.kind == BLK_CLOSE then DoBlkClose(k, m.blk.fd).table
    else t
  }

  function Replay(t: map<int, Conn>, q: seq<Msg>): map<int, Conn>
    decreases |q|
  {
    if q == [] then t else Replay(ReplayOne(t, q[0]), q[1..])
  }

  lemma {:induction false} ReplayMore(t: map<int, Conn>, q: seq<Msg>, m: Msg)
    ensures Replay(t, q + [m]) == ReplayOne(Replay(t, q), m)
    decreases |q|
  {
    if q == [] {
      assert q + [m] == [m];
    } else {
      assert (q + [m])[0] == q[0] && (q + [m])[1..] == q[1..] + [m];
      ReplayMore(ReplayOne(t, q[0]), q[1..], m);
    }
  }

  lemma FrontFits(i: int, done: seq<Msg>, rq: seq<Msg>)
    requires Coherent(i, done + rq) && rq != []
    ensures Coherent(i, done + [rq[0]]) && Fits(i, SeenAfter(done), rq[0])
    ensures (done + [rq[0]]) + rq[1..] == done + rq
  {
    assert (done + rq)[..|done| + 1] == done + [rq[0]];
    CoherentPrefix(i, done + rq, |done| + 1);
    OneMore(i, done, rq[0]);
  }

  lemma {:induction false} CoherentPrefix(i: int, q: seq<Msg>, n: nat)
    requires Coherent(i, q) && n <= |q|
    ensures Coherent(i, q[..n])
    decreases |q|
  {
    if n < |q| {
      CoherentPrefix(i, q[..|q| - 1], n);
      assert q[..|q| - 1][..n] == q[..n];
    } else {
      assert q[..n] == q;
    }
  }

  /** t has no session that link does not have. */
  predicate Within(t: map<int, Conn>, link: map<int, Conn>) {
    forall fd :: fd in t ==> fd in link && t[fd] == link[fd]
  }

  /** How a table t' and what was seen, r', come from t and r: nothing is there that was not left
      open; what is missing was missing before; and what is new is newer than all before. */
  predicate Follows(r: Seen, t: map<int, Conn>, r': Seen, t': map<int, Conn>) {
    && r.floor <= r'.floor && Within(t', r'.link)
    && (forall fd :: fd in r'.link && fd !in t' ==> fd in r.link && fd !in t && r.link[fd] == r'.link[fd])
    && (forall fd :: fd in t' ==> (fd in t && t[fd] == t'[fd]) || r.floor <= t'[fd].inc)
  }

  lemma FollowsOne(i: int, r: Seen, t: map<int, Conn>, m: Msg)
    requires Fits(i, r, m) && Within(t, r.link)
    ensures Follows(r, t, See(r, m), ReplayOne(t, m))
  {
  }

  lemma FollowsInTwo(r: Seen, t: map<int, Conn>, r1: Seen, t1: map<int, Conn>, r2: Seen, t2: map<int, Conn>)
    requires Follows(r, t, r1, t1) && Follows(r1, t1, r2, t2)
    ensures Follows(r, t, r2, t2)
  {
  }

  /** Bringing a table up to date with the blocks of a queue. */
  lemma {:induction false} ReplayFollows(i: int, done: seq<Msg>, rq: seq<Msg>, t: map<int, Conn>)
    requires Coherent(i, done + rq) && Within(t, SeenAfter(done).link)
    ensures Follows(SeenAfter(done), t, SeenAfter(done + rq), Replay(t, rq))
    decreases |rq|
  {
    if rq == [] {
      assert done + rq == done;
    } else {
      FrontFits(i, done, rq);
      OneMore(i, done, rq[0]);
      var r, t1 := SeenAfter(done), ReplayOne(t, rq[0]);
      FollowsOne(i, r, t, rq[0]);
      ReplayFollows(i, done + [rq[0]], rq[1..], t1);
      FollowsInTwo(r, t, See(r, rq[0]), t1, SeenAfter(done + rq), Replay(t, rq));
    }
  }

  /** The worker's table, brought up to date with the blocks on their way to it, has only
      connections that the master has open; and where the master has one for this worker that is
      missing there, the worker's CLOSE for it is on its way to the master. */
  ghost predicate ReplayAgrees(s: Sys, i: int)
    requires 0 <= i < |s.works|
  {
    var k := s.works[i];
    TablesAgree(s.open, i, Replay(k.table, k.rq), k.sq)
  }

  ghost predicate TablesAgree(open: map<int, Conn>, i: int, t: map<int, Conn>, sq: seq<Msg>) {
    && (forall fd :: fd in t ==> fd in open && open[fd] == t[fd])
    && (forall fd :: fd in open && open[fd].idx == i && fd !in t ==> Has(sq, BLK_CLOSE, fd, open[fd].inc))
  }

  /** No OPEN or CLOSE between the master and this worker has been lost so far. */
  predicate Lossless(k: Work) {
    ControlsKept(k.tried) && k.unsaid == {}
  }

  lemma LosslessIsSane(s: Sys, i: int)
    requires Inv(s) && 0 <= i < |s.works| && Lossless(s.works[i])
    ensures !s.works[i].wrecked
  {
    var t := s.works[i].tried;
    assert WorkInv(s, i);
    if SomeCloseLost(t) {
      var fd, inc: nat :| LostClose(t, fd, inc);
      NoneLost(t, BLK_CLOSE, fd, inc);
    }
  }

  /** What the worker has seen and will see, if nothing has been lost. */
  lemma LosslessState(s: Sys, i: int)
    requires Inv(s) && 0 <= i < |s.works| && Lossless(s.works[i])
    ensures var k, now := s.works[i], SeenAfter(s.works[i].done + s.works[i].rq).link;
      && Coherent(i, k.done + k.rq) && TableInv(i, s.open, SeenAfter(k.done).link, k) && EndsInv(k) && !k.wrecked
      && (forall fd :: fd in now <==> fd in s.open && s.open[fd].idx == i)
      && (forall fd :: fd in now ==> now[fd] == s.open[fd])
      && (forall fd :: fd in k.table ==> k.table[fd].inc !in k.calls)
      && (forall inc :: inc in k.calls || inc in k.opens ==> inc < SeenAfter(k.done).floor)
      && (forall fd :: fd in k.table ==> k.table[fd].inc < SeenAfter(k.done).floor)
  {
    var k := s.works[i];
    LosslessIsSane(s, i);
    assert WorkInv(s, i);
    KeptIsCoherent(i, k.tried);
  }

  lemma LosslessAgrees(s: Sys, i: int)
    requires Inv(s) && 0 <= i < |s.works| && Lossless(s.works[i])
    ensures ReplayAgrees(s, i)
  {
    LosslessState(s, i);
    ReplayFollows(i, s.works[i].done, s.works[i].rq, s.works[i].table);
  }

  /** What a replay finds on a descriptor was left open by the queue, unless the CLOSE of it was
      lost; and what the queue left open is on the descriptor, or something else is, or it had been
      open before and its session had ended. */
  ghost predicate Replayed(t: seq<Try>, before: map<int, Conn>, table: map<int, Conn>, link: map<int, Conn>, now: map<int, Conn>) {
    && (forall fd :: fd in now ==> (fd in link && link[fd] == now[fd]) || LostClose(t, fd, now[fd].inc))
    && (forall fd :: fd in link && fd !in now ==> fd in before && before[fd] == link[fd] && fd !in table)
  }

  lemma ReplayedOne(i: int, t: seq<Try>, b: seq<Try>, before: map<int, Conn>, table: map<int, Conn>, r: Seen, now: map<int, Conn>, m: Msg)
    requires Replayed(t, before, table, r.link, now)
    requires DifferByLosses(b, r, SeenAfter(All(b))) && Fits(i, SeenAfter(All(b)), m)
    requires forall fd, inc: nat :: LostClose(b, fd, inc) ==> LostClose(t, fd, inc)
    ensures Replayed(t, before, table, See(r, m).link, ReplayOne(now, m))
  {
    var fd := m.blk.fd;
    if m.blk.kind == BLK_OPEN && fd in now && fd in r.link && r.link[fd] == now[fd] {
      assert LostClose(b, fd, now[fd].inc);
    }
  }

  lemma LostStays(t: seq<Try>, d: nat)
    requires d <= |Kept(t)|
    ensures forall fd, inc: nat :: LostClose(Before(t, d), fd, inc) ==> LostClose(t, fd, inc)
  {
    forall fd, inc: nat | LostClose(Before(t, d), fd, inc) ensures LostClose(t, fd, inc) {
      LostBefore(t, d, fd, inc);
    }
  }

  lemma {:induction false} ReplayTracks(i: int, t: seq<Try>, done: seq<Msg>, rq: seq<Msg>, n: nat, table: map<int, Conn>)
    requires Coherent(i, All(t)) && Kept(t) == done + rq && n <= |rq| && Within(table, SeenAfter(done).link)
    ensures Replayed(t, SeenAfter(done).link, table, SeenAfter(done + rq[..n]).link, Replay(table, rq[..n]))
    decreases n
  {
    if n == 0 {
      assert done + rq[..0] == done;
    } else {
      var q, m, d := rq[..n - 1], rq[n - 1], |done| + n - 1;
      var b := Before(t, d);
      assert q + [m] == rq[..n] && (done + q) + [m] == done + rq[..n];
      ReplayTracks(i, t, done, rq, n - 1, table);
      ReplayMore(table, q, m);
      OneMore(0, done + q, m);
      BeforeIsThen(i, t, d);
      assert Kept(t)[d] == m && Kept(b) == done + q;
      LinksDifferByLosses(i, b);
      LostStays(t, d);
      ReplayedOne(i, t, b, SeenAfter(done).link, table, SeenAfter(done + q), Replay(table, q), m);
    }
  }

  /** Which lost blocks show: the CLOSE of a session that is there after the replay; and for a
      connection of the master's that is not, its OPEN or the worker's CLOSE. */
  ghost predicate NoLossShows(s: Sys, i: int)
    requires 0 <= i < |s.works|
  {
    var k := s.works[i];
    var t := Replay(k.table, k.rq);
    && (forall fd :: fd in t ==> !LostClose(k.tried, fd, t[fd].inc))
    && (forall fd :: fd in s.open && s.open[fd].idx == i && fd !in t ==>
          !LostOpen(k.tried, fd, s.open[fd].inc) && s.open[fd].inc !in k.unsaid)
  }

  lemma ReplayedAgreesIff(s: Sys, i: int, fd: int)
    requires Inv(s) && 0 <= i < |s.works| && !s.works[i].wrecked && fd in Replay(s.works[i].table, s.works[i].rq)
    ensures var k := s.works[i];
      var c := Replay(k.table, k.rq)[fd];
      fd in s.open && s.open[fd] == c <==> !LostClose(k.tried, fd, c.inc)
  {
    var k := s.works[i];
    assert WorkInv(s, i);
    ReplayTracks(i, k.tried, k.done, k.rq, |k.rq|, k.table);
    assert k.rq[..|k.rq|] == k.rq;
    LinksAreDistinct(i, k.tried);
    LinksDifferByLosses(i, k.tried);
    ClosedOnce(i, k.tried);
    ReplayedIndex(s, i, fd);
  }

  lemma ReplayedIndex(s: Sys, i: int, fd: int)
    requires Inv(s) && 0 <= i < |s.works| && !s.works[i].wrecked && fd in Replay(s.works[i].table, s.works[i].rq)
    ensures Replay(s.works[i].table, s.works[i].rq)[fd].idx == i && 1 <= Replay(s.works[i].table, s.works[i].rq)[fd].inc
  {
    var k := s.works[i];
    assert WorkInv(s, i);
    DoneFacts(s.open, s.next, i, k);
    ReplayKeepsIndex(i, k.tried, k.done, k.rq, |k.rq|, k.table);
    assert k.rq[..|k.rq|] == k.rq;
  }

  /** A queued OPEN is for this worker, and of a connection. */
  lemma QueuedFits(i: int, t: seq<Try>, done: seq<Msg>, rq: seq<Msg>, j: nat)
    requires Coherent(i, All(t)) && Kept(t) == done + rq && j < |rq|
    ensures rq[j].blk.kind == BLK_OPEN ==> rq[j].blk.id == i && 1 <= rq[j].inc
  {
    BeforeIsThen(i, t, |done| + j);
    assert Kept(t)[|done| + j] == rq[j];
    LinksAreDistinct(i, Before(t, |done| + j));
  }

  lemma {:induction false} ReplayKeepsIndex(i: int, t: seq<Try>, done: seq<Msg>, rq: seq<Msg>, n: nat, table: map<int, Conn>)
    requires Coherent(i, All(t)) && Kept(t) == done + rq && n <= |rq|
    requires forall fd :: fd in table ==> table[fd].idx == i && 1 <= table[fd].inc
    ensures var now := Replay(table, rq[..n]); forall fd :: fd in now ==> now[fd].idx == i && 1 <= now[fd].inc
    decreases n
  {
    if n > 0 {
      assert rq[..n - 1] + [rq[n - 1]] == rq[..n];
      ReplayKeepsIndex(i, t, done, rq, n - 1, table);
      ReplayMore(table, rq[..n - 1], rq[n - 1]);
      QueuedFits(i, t, done, rq, n - 1);
    }
  }

  lemma MissingAgreesIff(s: Sys, i: int, fd: int)
    requires Inv(s) && 0 <= i < |s.works| && !s.works[i].wrecked && fd in s.open && s.open[fd].idx == i
    requires fd !in Replay(s.works[i].table, s.works[i].rq)
    ensures var k, c := s.works[i], s.open[fd];
      Has(k.sq, BLK_CLOSE, fd, c.inc) <==> !LostOpen(k.tried, fd, c.inc) && c.inc !in k.unsaid
  {
    var k, c := s.works[i], s.open[fd];
    assert WorkInv(s, i);
    ReplayTracks(i, k.tried, k.done, k.rq, |k.rq|, k.table);
    assert k.rq[..|k.rq|] == k.rq;
    LinksDifferByLosses(i, k.tried);
    LostIsNotOpened(i, k.tried);
    if Has(k.sq, BLK_CLOSE, fd, c.inc) {
      assert c.inc in k.calls && c.inc in k.opens;
      OpenedInFront(k.done, k.rq, c.inc);
    }
  }

  /** In every run, and for every worker that has refused no OPEN: bringing the worker's table up to
      date leads to agreement, in the sense of ReplayAgrees, if and only if no loss shows. */
  lemma ReplayAgreesIff(workers: nat, listen: map<int, int>, acts: seq<Act>, i: int)
    requires Setup(workers, listen)
    requires var s := Reached(workers, listen, acts); 0 <= i < |s.works| && !s.works[i].wrecked
    ensures var s := Reached(workers, listen, acts); ReplayAgrees(s, i) <==> NoLossShows(s, i)
  {
    var s := Reached(workers, listen, acts);
    var k := s.works[i];
    var t := Replay(k.table, k.rq);
    forall fd | fd in t ensures fd in s.open && s.open[fd] == t[fd] <==> !LostClose(k.tried, fd, t[fd].inc) {
      ReplayedAgreesIff(s, i, fd);
    }
    forall fd | fd in s.open && s.open[fd].idx == i && fd !in t
      ensures Has(k.sq, BLK_CLOSE, fd, s.open[fd].inc) <==>
                !LostOpen(k.tried, fd, s.open[fd].inc) && s.open[fd].inc !in k.unsaid
    {
      MissingAgreesIff(s, i, fd);
    }
  }

  lemma SessionsAgree(workers: nat, listen: map<int, int>, acts: seq<Act>, i: int)
    requires Setup(workers, listen)
    requires var s := Reached(workers, listen, acts); 0 <= i < |s.works| && Lossless(s.works[i])
    ensures ReplayAgrees(Reached(workers, listen, acts), i)
  {
    LosslessAgrees(Reached(workers, listen, acts), i);
  }

  /** A connection whose session has ended is not in the replayed table. */
  lemma EndedIsNotReplayed(s: Sys, i: int, fd: int)
    requires Inv(s) && 0 <= i < |s.works| && Lossless(s.works[i])
    requires fd in Replay(s.works[i].table, s.works[i].rq)
    ensures Replay(s.works[i].table, s.works[i].rq)[fd].inc !in s.works[i].calls
  {
    LosslessState(s, i);
    ReplayFollows(i, s.works[i].done, s.works[i].rq, s.works[i].table);
  }

  /** The master's CLOSE is lost (net_util.c:443-445): agreement survives if and only if a CLOSE
      from the worker for this connection is waiting in the send queue, which the master reads. */
  lemma LostCloseBreaksAgreementIff(s: Sys, fd: int)
    requires Inv(s) && fd in s.open && Lossless(s.works[s.open[fd].idx])
    ensures var i := s.open[fd].idx;
      |Step(s, HangUp(fd, false)).works| == |s.works|
      && (ReplayAgrees(Step(s, HangUp(fd, false)), i) <==> Has(s.works[i].sq, BLK_CLOSE, fd, s.open[fd].inc))
  {
    var i := s.open[fd].idx;
    var k := s.works[i];
    var t := Replay(k.table, k.rq);
    LosslessAgrees(s, i);
    HangUpStep(s, fd);
    if Has(k.sq, BLK_CLOSE, fd, s.open[fd].inc) && fd in t {
      LosslessState(s, i);
      EndedIsNotReplayed(s, i, fd);
    }
    LostCloseAgrees(s.open, i, fd, t, k.sq);
  }

  lemma LostCloseAgrees(open: map<int, Conn>, i: int, fd: int, t: map<int, Conn>, sq: seq<Msg>)
    requires TablesAgree(open, i, t, sq) && fd in open && open[fd].idx == i
    ensures TablesAgree(open - {fd}, i, t, sq) <==> fd !in t
    ensures fd !in t ==> Has(sq, BLK_CLOSE, fd, open[fd].inc)
  {
  }

  lemma HangUpStep(s: Sys, fd: int)
    requires Inv(s) && fd in s.open
    ensures var i, s' := s.open[fd].idx, Step(s, HangUp(fd, false));
      && |s'.works| == |s.works| && s'.open == s.open - {fd}
      && s'.works[i].table == s.works[i].table && s'.works[i].rq == s.works[i].rq && s'.works[i].sq == s.works[i].sq
  {
    assert FdInv(s, fd);
  }

  /** The worker's CLOSE is lost (work.c:412): agreement survives if and only if the master has
      closed that connection itself. */
  lemma LostEndBreaksAgreementIff(s: Sys, i: int, fd: int)
    requires Inv(s) && 0 <= i < |s.works| && fd in s.works[i].table && Lossless(s.works[i])
    ensures ReplayAgrees(Step(s, EndSession(i, fd, false)), i) <==>
              !(fd in s.open && s.open[fd] == s.works[i].table[fd])
  {
    var k := s.works[i];
    LostEndReplay(s, i, fd);
    EndStep(s, i, fd);
    LostEndAgrees(s.open, i, fd, k.table[fd], Replay(k.table - {fd}, k.rq), k.sq);
  }

  lemma EndStep(s: Sys, i: int, fd: int)
    requires Indexed(s) && 0 <= i < |s.works| && fd in s.works[i].table && OwnSession(s, i, fd)
    ensures var s', k := Step(s, EndSession(i, fd, false)), s.works[i];
      && |s'.works| == |s.works| && s'.open == s.open
      && s'.works[i].table == k.table - {fd} && s'.works[i].rq == k.rq && s'.works[i].sq == k.sq
  {
  }

  lemma LostEndAgrees(open: map<int, Conn>, i: int, fd: int, c: Conn, t: map<int, Conn>, sq: seq<Msg>)
    requires c.idx == i && !Has(sq, BLK_CLOSE, fd, c.inc) && (fd in t ==> t[fd] != c)
    requires forall f :: f in t ==> f in open && open[f] == t[f]
    requires forall f :: f in open && open[f].idx == i && f !in t ==>
               if f == fd then open[f] == c else Has(sq, BLK_CLOSE, f, open[f].inc)
    ensures TablesAgree(open, i, t, sq) <==> !(fd in open && open[fd] == c)
  {
  }

  lemma LostEndReplay(s: Sys, i: int, fd: int)
    requires Inv(s) && 0 <= i < |s.works| && fd in s.works[i].table && Lossless(s.works[i])
    ensures var k := s.works[i];
      var t := Replay(k.table - {fd}, k.rq);
      && (forall f :: f in t ==> f in s.open && s.open[f] == t[f])
      && (forall f :: f in s.open && s.open[f].idx == i && f !in t ==>
            if f == fd then s.open[f] == k.table[f] else Has(k.sq, BLK_CLOSE, f, s.open[f].inc))
      && (fd in t ==> t[fd] != k.table[fd]) && k.table[fd].idx == i
      && !Has(k.sq, BLK_CLOSE, fd, k.table[fd].inc)
  {
    var k := s.works[i];
    LosslessState(s, i);
    ReplayFollows(i, k.done, k.rq, k.table - {fd});
  }

  /** The OPEN is lost (master.c:332-334): agreement never survives, whether or not the worker
      is told that the listening descriptor is closed. */
  lemma LostOpenBreaksAgreement(s: Sys, l: int, fd: int, addr: seq<Byte>, lroom: bool)
    requires Inv(s) && Can(s, Accept(l, fd, addr, false, lroom)) && Lossless(s.works[s.listen[l]])
    ensures var s' := Step(s, Accept(l, fd, addr, false, lroom));
      && l !in s'.listen && fd in s'.open
      && |s'.works| == |s.works| && !ReplayAgrees(s', s.listen[l])
  {
    var i := s.listen[l];
    var s', k := Step(s, Accept(l, fd, addr, false, lroom)), s.works[i];
    LosslessIsSane(s, i);
    assert WorkInv(s, i);
    LosslessAgrees(s, i);
    ReplayMore(k.table, k.rq, CloseMsg(i, l, 0));
    assert s'.works[i].rq == if lroom then k.rq + [CloseMsg(i, l, 0)] else k.rq;
    assert fd !in Replay(s'.works[i].table, s'.works[i].rq);
    DoneFacts(s.open, s.next, i, k);
    assert !Has(k.sq, BLK_CLOSE, fd, s.next);
    assert s'.open[fd] == Conn(i, addr, s.next);
  }

  // ------------------------------------------------------------------------ runs that go wrong

  lemma RunCons(s: Sys, a: Act, acts: seq<Act>) returns (s': Sys)
    requires Inv(s)
    ensures s' == Step(s, a) && Inv(s') && Run(s, [a] + acts) == Run(s', acts)
  {
    s' := Step(s, a);
    StepKeeps(s, a);
    assert ([a] + acts)[1..] == acts;
  }

  const PORT: map<int, int> := map[3 := 0]

  predicate StaleCloseNext(s: Sys) {
    && |s.works| == 1 && 5 in s.open && s.open[5].inc == 2
    && s.works[0].sq != [] && s.works[0].sq[0] == CloseMsg(0, 5, 1)
  }

  /** One connection is accepted on descriptor 5, and its session opened. */
  function OneSession(addr: seq<Byte>): Sys {
    var k := NewWork().(
      table := map[5 := Conn(0, addr, 1)], tried := [Try(OpenMsg(0, 5, addr, 1), true)],
      done := [OpenMsg(0, 5, addr, 1)], met := [0], opens := [1]);
    Sys(PORT, map[5 := Conn(0, addr, 1)], [k], 2, map[])
  }

  lemma ReachOneSession(addr: seq<Byte>, acts: seq<Act>) returns (a0: seq<Act>)
    requires |addr| == ADDR_LEN
    ensures Inv(OneSession(addr)) && Reached(1, PORT, a0) == Run(OneSession(addr), acts)
  {
    var open, turn := Accept(3, 5, addr, true, true), TurnRecv(0, false, true);
    var a1 := [turn] + acts;
    a0 := [open] + a1;
    InitInv(1, PORT);
    var s1 := RunCons(Init(1, PORT), open, a1);
    assert s1.works == [Tell(NewWork(), OpenMsg(0, 5, addr, 1), true)];
    var s2 := RunCons(s1, turn, acts);
    var m := OpenMsg(0, 5, addr, 1);
    assert [] + [m] == [m] && [m][1..] == [] && [] + [0] == [0] && [] + [1] == [1] && [] + [Try(m, true)] == [Try(m, true)];
    assert s2.works[0] == OneSession(addr).works[0];
    assert s2.works == OneSession(addr).works && s2 == OneSession(addr);
  }

  /** The master closes whatever connection has the descriptor: a worker's CLOSE for connection
      1 closes connection 2, which its client has just opened. Nothing is lost in this run. */
  lemma StaleCloseHitsNextConnection(addr: seq<Byte>)
    requires |addr| == ADDR_LEN
    ensures exists acts ::
      StaleCloseNext(Reached(1, PORT, acts)) && 5 !in Step(Reached(1, PORT, acts), TurnSend(0, false, true)).open
  {
    var open := Accept(3, 5, addr, true, true);
    var a0, s4 := AfterBothEnd(addr, [open] + []);
    var s5 := RunCons(s4, open, []);
    assert s5.open == map[5 := Conn(0, addr, 2)] && s5.works[0].sq == [CloseMsg(0, 5, 1)];
    assert 5 !in Step(s5, TurnSend(0, false, true)).open;
    assert StaleCloseNext(Reached(1, PORT, a0));
  }

  /** Worker and client end connection 1 at the same time. */
  lemma AfterBothEnd(addr: seq<Byte>, acts: seq<Act>) returns (a0: seq<Act>, s: Sys)
    requires |addr| == ADDR_LEN
    ensures Inv(s) && Reached(1, PORT, a0) == Run(s, acts)
    ensures s.listen == PORT && s.open == map[] && s.next == 2 && |s.works| == 1 && s.works[0].sq == [CloseMsg(0, 5, 1)]
  {
    var a3 := [HangUp(5, true)] + acts;
    a0 := ReachOneSession(addr, [EndSession(0, 5, true)] + a3);
    var s3 := RunCons(OneSession(addr), EndSession(0, 5, true), a3);
    assert s3.works[0].sq == [CloseMsg(0, 5, 1)];
    s := RunCons(s3, HangUp(5, true), acts);
    assert s.open == map[];
  }

  /** The session of connection 1 is still there when descriptor 5 is used for connection 2. */
  lemma AfterLostClose(addr: seq<Byte>, room: bool, acts: seq<Act>) returns (a0: seq<Act>, s: Sys)
    requires |addr| == ADDR_LEN
    ensures Inv(s) && Reached(1, PORT, a0) == Run(s, acts)
    ensures s.open == map[5 := Conn(0, addr, 2)] && s.cut == map[] && |s.works| == 1
    ensures var k := OneSession(addr).works[0];
      s.works[0] == k.(tried := s.works[0].tried, rq := if room then [OpenMsg(0, 5, addr, 2)] else [])
  {
    var a3 := [Accept(3, 5, addr, room, false)] + acts;
    a0 := ReachOneSession(addr, [HangUp(5, false)] + a3);
    var s3 := RunCons(OneSession(addr), HangUp(5, false), a3);
    assert s3 == OneSession(addr).(open := map[], works := s3.works);
    s := RunCons(s3, Accept(3, 5, addr, room, false), acts);
  }

  /** After a lost CLOSE the descriptor is used again, and its OPEN is refused: the branch at
      work.c:262-266 is taken. */
  lemma RefusedOpenHappens(addr: seq<Byte>) returns (acts: seq<Act>)
    requires |addr| == ADDR_LEN
    ensures var s := Reached(1, PORT, acts); |s.works| == 1 && s.works[0].wrecked
  {
    var s;
    acts, s := AfterLostClose(addr, true, [TurnRecv(0, false, true)] + []);
    var s' := RunCons(s, TurnRecv(0, false, true), []);
  }

  /** If the OPEN is lost as well, a message of connection 2 is handed to the session of
      connection 1. */
  lemma MisdeliveryHappens(addr: seq<Byte>, frame: Frame) returns (acts: seq<Act>)
    requires |addr| == ADDR_LEN
    ensures var s := Reached(1, PORT, acts);
      && |s.works| == 1
      && Handed(s.works[0].done, s.works[0].met, 1) == [frame] && Look(s.cut, 1) == [] && Look(s.cut, 2) == [frame]
  {
    var cut, turn := CutFrame(5, frame, true, true), TurnRecv(0, false, true);
    var s;
    acts, s := AfterLostClose(addr, false, [cut] + ([turn] + []));
    var s1 := RunCons(s, cut, [turn] + []);
    CutOne(s, addr, frame);
    var s2 := RunCons(s1, turn, []);
    HandOne(s1.works[0], addr, frame);
  }

  lemma CutOne(s: Sys, addr: seq<Byte>, frame: Frame)
    requires Indexed(s) && |s.works| == 1 && s.open == map[5 := Conn(0, addr, 2)] && s.cut == map[] && s.works[0].rq == []
    ensures var s' := Step(s, CutFrame(5, frame, true, true));
      && |s'.works| == 1 && s'.cut == map[2 := [frame]]
      && s'.works[0] == s.works[0].(tried := s'.works[0].tried, rq := [DataMsg(0, 5, frame, 2)])
  {
    assert [] + [frame] == [frame] && [] + [DataMsg(0, 5, frame, 2)] == [DataMsg(0, 5, frame, 2)];
  }

  lemma HandOne(k: Work, addr: seq<Byte>, frame: Frame)
    requires k == OneSession(addr).works[0].(tried := k.tried, rq := [DataMsg(0, 5, frame, 2)])
    ensures var k' := RecvTurn(k, false, true);
      |k'.met| == |k'.done| && Handed(k'.done, k'.met, 1) == [frame]
  {
    var k' := RecvTurn(k, false, true);
    var open, data := OpenMsg(0, 5, addr, 1), DataMsg(0, 5, frame, 2);
    assert k'.done == [open] + [data] && k'.met == [0] + [1];
    assert ([open] + [data])[..1] == [open] && ([0] + [1])[..1] == [0];
    assert Handed([open], [0], 1) == [] by {
      assert [open][..0] == [] && [0][..0] == [];
    }
  }

  /** Connections 1 and 2 have sessions on descriptors 5 and 8; then the CLOSE of connection 1 is
      lost, and descriptor 5 is used for connection 3. */
  lemma AfterSecondSession(addr: seq<Byte>, acts: seq<Act>) returns (a0: seq<Act>, s: Sys)
    requires |addr| == ADDR_LEN
    ensures Inv(s) && Reached(1, PORT, a0) == Run(s, acts)
    ensures |s.works| == 1 && s.works[0].table == map[5 := Conn(0, addr, 1), 8 := Conn(0, addr, 2)]
    ensures s.works[0].rq == [OpenMsg(0, 5, addr, 3)] && !s.works[0].wrecked && s.works[0].misread == [] && s.cut == map[]
    ensures s.open == map[8 := Conn(0, addr, 2), 5 := Conn(0, addr, 3)]
    ensures s.works[0].done == [OpenMsg(0, 5, addr, 1), OpenMsg(0, 8, addr, 2)] && s.works[0].met == [0, 0]
  {
    var again := Accept(3, 5, addr, true, true);
    var b2 := [HangUp(5, false)] + ([again] + acts);
    var b1 := [TurnRecv(0, false, true)] + b2;
    var s1, s2;
    a0 := ReachOneSession(addr, [Accept(3, 8, addr, true, true)] + b1);
    s1 := RunCons(OneSession(addr), Accept(3, 8, addr, true, true), b1);
    assert s1.works[0].rq == [OpenMsg(0, 8, addr, 2)] && s1.works[0].table == map[5 := Conn(0, addr, 1)];
    s2 := RunCons(s1, TurnRecv(0, false, true), b2);
    assert s2.works[0].rq == [] && s2.works[0].table == map[5 := Conn(0, addr, 1), 8 := Conn(0, addr, 2)];
    assert s2.works[0].done == [OpenMsg(0, 5, addr, 1), OpenMsg(0, 8, addr, 2)] && s2.works[0].met == [0, 0];
    s := HangUpAndAccept(addr, s2, acts);
  }

  lemma HangUpAndAccept(addr: seq<Byte>, s: Sys, acts: seq<Act>) returns (s': Sys)
    requires Inv(s) && |addr| == ADDR_LEN && |s.works| == 1 && s.listen == PORT && s.next == 3 && s.works[0].rq == []
    requires s.open == map[5 := Conn(0, addr, 1), 8 := Conn(0, addr, 2)]
    ensures Inv(s') && Run(s, [HangUp(5, false)] + ([Accept(3, 5, addr, true, true)] + acts)) == Run(s', acts)
    ensures s'.open == map[8 := Conn(0, addr, 2), 5 := Conn(0, addr, 3)] && s'.cut == s.cut && |s'.works| == 1
    ensures s'.works[0] == s.works[0].(tried := s'.works[0].tried, rq := [OpenMsg(0, 5, addr, 3)])
  {
    var s1 := RunCons(s, HangUp(5, false), [Accept(3, 5, addr, true, true)] + acts);
    assert s1.open == map[8 := Conn(0, addr, 2)];
    s' := RunCons(s1, Accept(3, 5, addr, true, true), acts);
  }

  /** The worker refuses that OPEN, and the next bytes, which no client has sent as a message, reach
      the session of connection 2: its CLOSE was not lost, nothing strayed to it, and nothing was
      cut from it. */
  lemma MisreadHappens(addr: seq<Byte>, junk: Frame) returns (acts: seq<Act>)
    requires |addr| == ADDR_LEN
    ensures var s := Reached(1, PORT, acts);
      && |s.works| == 1 && 8 in s.open && s.open[8].inc == 2
      && (forall fd :: !LostClose(s.works[0].tried, fd, 2)) && !Strayed(s.works[0], 2)
      && AllHanded(s.works[0], 2) == [junk] && Look(s.cut, 2) == []
  {
    var turn, mis := TurnRecv(0, false, true), TurnMisread(0, Block(0, 8, BLK_DATA, junk), false, true);
    var s;
    acts, s := AfterSecondSession(addr, [turn] + ([mis] + []));
    var s1 := RunCons(s, turn, [mis] + []);
    var k := s.works[0];
    assert s1.works[0] == Refuse(k, k.rq[0], true) && s1.open == s.open && s1.cut == s.cut;
    MisreadEnds(s1, addr, junk);
    var s2 := RunCons(s1, mis, []);
  }

  lemma MisreadEnds(s: Sys, addr: seq<Byte>, junk: Frame)
    requires Inv(s) && |s.works| == 1 && s.works[0].wrecked && s.works[0].misread == []
    requires s.works[0].table == map[5 := Conn(0, addr, 1), 8 := Conn(0, addr, 2)]
    requires s.works[0].done == [OpenMsg(0, 5, addr, 1), OpenMsg(0, 8, addr, 2)] && s.works[0].met == [0, 0]
    requires 8 in s.open && s.open[8] == Conn(0, addr, 2) && s.cut == map[]
    ensures var s' := Step(s, TurnMisread(0, Block(0, 8, BLK_DATA, junk), false, true));
      && |s'.works| == 1 && |s'.works[0].met| == |s'.works[0].done| && |s'.works[0].misled| == |s'.works[0].misread|
      && s'.open == s.open && s'.cut == s.cut
      && (forall fd :: !LostClose(s'.works[0].tried, fd, 2)) && !Strayed(s'.works[0], 2)
      && AllHanded(s'.works[0], 2) == [junk]
  {
    MisreadStep(s, 0, Block(0, 8, BLK_DATA, junk), false, true);
    NothingMisled(s, 0);
    MisreadOne(s.works[0], junk, s.next);
    JunkHanded(Misread(s.works[0], Block(0, 8, BLK_DATA, junk), false, true, s.next), addr, junk);
    CloseOfOpenNotLost(s, 0, 8);
  }

  lemma MisreadOne(k: Work, junk: Frame, next: nat)
    requires 8 in k.table && k.table[8].inc == 2 && k.misread == [] && k.misled == []
    ensures Misread(k, Block(0, 8, BLK_DATA, junk), false, true, next)
         == k.(misread := [Block(0, 8, BLK_DATA, junk)], misled := [2])
  {
  }

  lemma JunkHanded(k: Work, addr: seq<Byte>, junk: Frame)
    requires k.done == [OpenMsg(0, 5, addr, 1), OpenMsg(0, 8, addr, 2)] && k.met == [0, 0]
    requires k.misread == [Block(0, 8, BLK_DATA, junk)] && k.misled == [2]
    ensures !Strayed(k, 2) && AllHanded(k, 2) == [junk]
  {
    NothingStrayed(k, addr);
    OneAstray(junk);
  }

  lemma NothingMisled(s: Sys, i: int)
    requires Inv(s) && 0 <= i < |s.works| && s.works[i].misread == []
    ensures s.works[i].misled == []
  {
    assert WorkInv(s, i);
  }

  lemma CloseOfOpenNotLost(s: Sys, i: int, fd: int)
    requires Inv(s) && 0 <= i < |s.works| && fd in s.open && s.open[fd].idx == i
    ensures forall f :: !LostClose(s.works[i].tried, f, s.open[fd].inc)
  {
    assert WorkInv(s, i) && FdInv(s, fd);
    ClosedOnce(i, s.works[i].tried);
  }

  lemma NothingStrayed(k: Work, addr: seq<Byte>)
    requires k.done == [OpenMsg(0, 5, addr, 1), OpenMsg(0, 8, addr, 2)] && k.met == [0, 0]
    ensures !Strayed(k, 2) && Handed(k.done, k.met, 2) == []
  {
    var d, m := k.done[..1], k.met[..1];
    assert Handed(d[..0], m[..0], 2) == [] && Handed(d, m, 2) == [];
  }

  lemma OneAstray(junk: Frame)
    ensures HandedAstray([Block(0, 8, BLK_DATA, junk)], [2], 2) == [junk]
  {
    assert HandedAstray([Block(0, 8, BLK_DATA, junk)][..0], [2][..0], 2) == [];
  }
}
