/** What the master has tried to tell one worker. Every push to the worker's receive queue is
    recorded with what became of it, and what follows for the blocks that got in is proved from
    the record alone. */
module Told {
  import opened Layout

  type Frame = seq<Byte>

  /** sizeof(fd_addr_t), net_util.h:78-81. */
  const ADDR_LEN := 6

  /** A block in a queue. inc numbers the accepted connections from 1; no code sees it. The
      CLOSE of a listening descriptor has 0. */
  datatype Msg = Msg(blk: Block, inc: nat)

  /** A connection, as the master has it in epinfo.fds[fd] and the worker in its session table:
      the index of the worker, the peer's address, and the number of the connection. */
  datatype Conn = Conn(idx: int, addr: seq<Byte>, inc: nat)

  /** A push to a receive queue: the block, and whether mq_push had room for it. */
  datatype Try = Try(m: Msg, ok: bool)

  function Kept(t: seq<Try>): seq<Msg> {
    if t == [] then []
    else
      var x := t[|t| - 1];
      Kept(t[..|t| - 1]) + (if x.ok then [x.m] else [])
  }

  function All(t: seq<Try>): seq<Msg> {
    if t == [] then [] else All(t[..|t| - 1]) + [t[|t| - 1].m]
  }

  /** The connections that some blocks leave open, and a number above all connections seen. */
  datatype Seen = Seen(link: map<int, Conn>, floor: nat)

  function See(r: Seen, m: Msg): Seen {
    if m.blk.kind == BLK_OPEN then Seen(r.link[m.blk.fd := Conn(m.blk.id, m.blk.data, m.inc)], m.inc + 1)
    else if m.blk.kind == BLK_CLOSE then r.(link := r.link - {m.blk.fd})
    else r
  }

  function SeenAfter(q: seq<Msg>): Seen {
    if q == [] then Seen(map[], 1) else See(SeenAfter(q[..|q| - 1]), q[|q| - 1])
  }

  /** A block makes sense where it stands: OPEN for a descriptor that is not open, with the
      number of a new connection; DATA and CLOSE for the connection that is open; or the CLOSE
      of a listening descriptor. */
  predicate Fits(i: int, r: Seen, m: Msg) {
    var fd := m.blk.fd;
    && m.blk.id == i
    && if m.blk.kind == BLK_OPEN then
         fd !in r.link && r.floor <= m.inc && |m.blk.data| == ADDR_LEN
       else
         && (m.blk.kind == BLK_CLOSE || m.blk.kind == BLK_DATA)
         && if fd in r.link then r.link[fd].inc == m.inc else m.blk.kind == BLK_CLOSE && m.inc == 0
  }

  predicate Coherent(i: int, q: seq<Msg>) {
    q == [] || (Coherent(i, q[..|q| - 1]) && Fits(i, SeenAfter(q[..|q| - 1]), q[|q| - 1]))
  }

  /** The messages of one connection in a queue. */
  function Frames(q: seq<Msg>, inc: nat): seq<Frame> {
    if q == [] then []
    else
      var m := q[|q| - 1];
      Frames(q[..|q| - 1], inc) + (if m.blk.kind == BLK_DATA && m.inc == inc then [m.blk.data] else [])
  }

  /** A block of this kind, descriptor and connection was pushed, and did or did not get in. */
  predicate Tried(t: seq<Try>, kind: int, fd: int, inc: nat, ok: bool) {
    t != [] &&
    (|| Tried(t[..|t| - 1], kind, fd, inc, ok)
     || var x := t[|t| - 1];
        x.ok == ok && x.m.blk.kind == kind && x.m.blk.fd == fd && x.m.inc == inc)
  }

  predicate LostOpen(t: seq<Try>, fd: int, inc: nat) {
    Tried(t, BLK_OPEN, fd, inc, false)
  }

  predicate LostClose(t: seq<Try>, fd: int, inc: nat) {
    Tried(t, BLK_CLOSE, fd, inc, false)
  }

  /** Such a block is in a queue. */
  predicate Has(q: seq<Msg>, kind: int, fd: int, inc: nat) {
    exists j :: 0 <= j < |q| && q[j].blk.kind == kind && q[j].blk.fd == fd && q[j].inc == inc
  }

  predicate Opened(q: seq<Msg>, inc: nat) {
    exists j :: 0 <= j < |q| && q[j].blk.kind == BLK_OPEN && q[j].inc == inc
  }

  /** What had been tried when the block that got in as number d was pushed. */
  function Before(t: seq<Try>, d: nat): seq<Try>
    decreases |t|
  {
    if |Kept(t)| <= d then t else if t == [] then [] else Before(t[..|t| - 1], d)
  }

  // ------------------------------------------------------------------------ one block more

  lemma OneMore(i: int, q: seq<Msg>, m: Msg)
    ensures SeenAfter(q + [m]) == See(SeenAfter(q), m)
    ensures Coherent(i, q + [m]) <==> Coherent(i, q) && Fits(i, SeenAfter(q), m)
    ensures forall inc :: Frames(q + [m], inc) ==
              Frames(q, inc) + (if m.blk.kind == BLK_DATA && m.inc == inc then [m.blk.data] else [])
  {
    assert (q + [m])[..|q|] == q;
  }

  lemma OneMoreTry(t: seq<Try>, x: Try)
    ensures Kept(t + [x]) == if x.ok then Kept(t) + [x.m] else Kept(t)
    ensures All(t + [x]) == All(t) + [x.m]
    ensures forall kind, fd, inc, ok :: Tried(t + [x], kind, fd, inc, ok) <==>
              Tried(t, kind, fd, inc, ok)
              || (x.ok == ok && x.m.blk.kind == kind && x.m.blk.fd == fd && x.m.inc == inc)
  {
    assert (t + [x])[..|t|] == t;
  }

  /** The record t, less its last push. */
  lemma LastTry(i: int, t: seq<Try>)
    requires t != []
    ensures var p, x := t[..|t| - 1], t[|t| - 1];
      && p + [x] == t
      && Kept(t) == (if x.ok then Kept(p) + [x.m] else Kept(p))
      && SeenAfter(All(t)) == See(SeenAfter(All(p)), x.m)
      && SeenAfter(Kept(t)) == (if x.ok then See(SeenAfter(Kept(p)), x.m) else SeenAfter(Kept(p)))
      && (Coherent(i, All(t)) <==> Coherent(i, All(p)) && Fits(i, SeenAfter(All(p)), x.m))
  {
    var p, x := t[..|t| - 1], t[|t| - 1];
    OneMoreTry(p, x);
    assert p + [x] == t;
    OneMore(i, All(p), x.m);
    OneMore(i, Kept(p), x.m);
  }

  lemma OpenedMore(q: seq<Msg>, m: Msg, inc: nat)
    ensures Opened(q + [m], inc) <==> Opened(q, inc) || (m.blk.kind == BLK_OPEN && m.inc == inc)
  {
    assert (q + [m])[|q|] == m;
    if Opened(q, inc) {
      var j :| 0 <= j < |q| && q[j].blk.kind == BLK_OPEN && q[j].inc == inc;
      assert (q + [m])[j] == q[j];
    }
  }

  lemma HasMore(q: seq<Msg>, m: Msg)
    ensures forall kind, fd, inc :: Has(q, kind, fd, inc) ==> Has(q + [m], kind, fd, inc)
    ensures Has(q + [m], m.blk.kind, m.blk.fd, m.inc)
  {
    forall kind, fd, inc | Has(q, kind, fd, inc) ensures Has(q + [m], kind, fd, inc) {
      var j :| 0 <= j < |q| && q[j].blk.kind == kind && q[j].blk.fd == fd && q[j].inc == inc;
      assert (q + [m])[j] == q[j];
    }
    assert (q + [m])[|q|] == m;
  }

  lemma {:induction false} FramesSplit(a: seq<Msg>, b: seq<Msg>, inc: nat)
    ensures Frames(a + b, inc) == Frames(a, inc) + Frames(b, inc)
    decreases |b|
  {
    if b == [] {
      assert a + b == a;
    } else {
      var q := a + b;
      assert q[..|q| - 1] == a + b[..|b| - 1];
      FramesSplit(a, b[..|b| - 1], inc);
    }
  }

  // --------------------------------------------------------------- what follows for a record

  /** Descriptors stand for different connections of this worker, numbered from 1, below floor. */
  predicate Distinct(i: int, r: Seen) {
    && 1 <= r.floor
    && (forall fd :: fd in r.link ==> r.link[fd].idx == i && 1 <= r.link[fd].inc < r.floor)
    && (forall f, g :: f in r.link && g in r.link && f != g ==> r.link[f].inc != r.link[g].inc)
  }

  lemma SeeIsDistinct(i: int, r: Seen, m: Msg, floor: nat)
    requires Distinct(i, r) && m.blk.id == i && r.floor <= floor
    requires m.blk.kind == BLK_OPEN ==> floor <= m.inc
    ensures Distinct(i, See(r, m))
  {
  }

  /** The record of everything that was pushed, and of what got in of it. */
  lemma {:induction false} LinksAreDistinct(i: int, t: seq<Try>)
    requires Coherent(i, All(t))
    ensures Distinct(i, SeenAfter(All(t))) && Distinct(i, SeenAfter(Kept(t)))
    ensures SeenAfter(Kept(t)).floor <= SeenAfter(All(t)).floor
    decreases |t|
  {
    if t != [] {
      var p, x := t[..|t| - 1], t[|t| - 1];
      LastTry(i, t);
      LinksAreDistinct(i, p);
      var a, k := SeenAfter(All(p)), SeenAfter(Kept(p));
      SeeIsDistinct(i, a, x.m, a.floor);
      SeeIsDistinct(i, k, x.m, a.floor);
    }
  }

  /** A connection is closed at most once, and nothing is pushed for it afterwards. */
  ghost predicate Closed(t: seq<Try>, a: Seen) {
    forall fd, inc, ok :: 1 <= inc && Tried(t, BLK_CLOSE, fd, inc, ok) ==>
      && inc < a.floor && (forall g :: g in a.link ==> a.link[g].inc != inc)
      && !Tried(t, BLK_CLOSE, fd, inc, !ok)
  }

  lemma ClosedMore(i: int, t: seq<Try>, a: Seen, x: Try)
    requires Closed(t, a) && Distinct(i, a) && Fits(i, a, x.m)
    ensures Closed(t + [x], See(a, x.m))
  {
    OneMoreTry(t, x);
    var a' := See(a, x.m);
    forall fd, inc: nat, ok | 1 <= inc && Tried(t + [x], BLK_CLOSE, fd, inc, ok)
      ensures inc < a'.floor && (forall g :: g in a'.link ==> a'.link[g].inc != inc)
      ensures !Tried(t + [x], BLK_CLOSE, fd, inc, !ok)
    {
      if Tried(t, BLK_CLOSE, fd, inc, ok) {
        assert inc < a.floor;
      }
    }
  }

  lemma {:induction false} ClosedOnce(i: int, t: seq<Try>)
    requires Coherent(i, All(t))
    ensures Closed(t, SeenAfter(All(t)))
    decreases |t|
  {
    if t != [] {
      var p, x := t[..|t| - 1], t[|t| - 1];
      LastTry(i, t);
      ClosedOnce(i, p);
      LinksAreDistinct(i, p);
      ClosedMore(i, p, SeenAfter(All(p)), x);
    }
  }

  /** Where what got in differs from what was pushed, a block was lost. */
  predicate DifferByLosses(t: seq<Try>, k: Seen, a: Seen) {
    && (forall fd :: fd in k.link ==>
          (fd in a.link && a.link[fd] == k.link[fd]) || LostClose(t, fd, k.link[fd].inc))
    && (forall fd :: fd in a.link ==>
          (fd in k.link && k.link[fd] == a.link[fd]) || LostOpen(t, fd, a.link[fd].inc))
  }

  lemma {:induction false} LinksDifferByLosses(i: int, t: seq<Try>)
    requires Coherent(i, All(t))
    ensures DifferByLosses(t, SeenAfter(Kept(t)), SeenAfter(All(t)))
    decreases |t|
  {
    if t != [] {
      var p, x := t[..|t| - 1], t[|t| - 1];
      LastTry(i, t);
      LinksDifferByLosses(i, p);
      DifferMore(i, p, SeenAfter(Kept(p)), SeenAfter(All(p)), x);
    }
  }

  lemma DifferMore(i: int, t: seq<Try>, k: Seen, a: Seen, x: Try)
    requires DifferByLosses(t, k, a) && Fits(i, a, x.m)
    ensures DifferByLosses(t + [x], if x.ok then See(k, x.m) else k, See(a, x.m))
  {
    OneMoreTry(t, x);
    var k', a' := if x.ok then See(k, x.m) else k, See(a, x.m);
    forall fd | fd in k'.link
      ensures (fd in a'.link && a'.link[fd] == k'.link[fd]) || LostClose(t + [x], fd, k'.link[fd].inc)
    {
      if fd != x.m.blk.fd {
        assert fd in k.link && k'.link[fd] == k.link[fd];
      }
    }
    forall fd | fd in a'.link
      ensures (fd in k'.link && k'.link[fd] == a'.link[fd]) || LostOpen(t + [x], fd, a'.link[fd].inc)
    {
      if fd != x.m.blk.fd {
        assert fd in a.link && a'.link[fd] == a.link[fd];
      }
    }
  }

  /** A connection whose OPEN was lost is never opened in the queue. */
  lemma {:induction false} LostIsNotOpened(i: int, t: seq<Try>)
    requires Coherent(i, All(t))
    ensures forall fd, inc: nat :: LostOpen(t, fd, inc) ==> inc < SeenAfter(All(t)).floor && !Opened(Kept(t), inc)
    ensures forall inc: nat :: Opened(Kept(t), inc) ==> inc < SeenAfter(Kept(t)).floor
    decreases |t|
  {
    if t != [] {
      var p, x := t[..|t| - 1], t[|t| - 1];
      LastTry(i, t);
      LostIsNotOpened(i, p);
      LinksAreDistinct(i, p);
      forall inc: nat ensures Opened(Kept(p) + [x.m], inc) <==> Opened(Kept(p), inc) || (x.m.blk.kind == BLK_OPEN && x.m.inc == inc) {
        OpenedMore(Kept(p), x.m, inc);
      }
      var a := SeenAfter(All(p));
      forall fd, inc: nat | LostOpen(t, fd, inc)
        ensures inc < SeenAfter(All(t)).floor && !Opened(Kept(t), inc)
      {
        if LostOpen(p, fd, inc) {
          assert inc < a.floor <= SeenAfter(All(t)).floor && !Opened(Kept(p), inc);
        } else {
          assert !x.ok && x.m.inc == inc >= a.floor;
        }
      }
    }
  }

  /** No message is pushed before its connection is opened. */
  lemma {:induction false} NoEarlyFrames(i: int, t: seq<Try>)
    requires Coherent(i, All(t))
    ensures forall inc :: SeenAfter(All(t)).floor <= inc ==> Frames(Kept(t), inc) == []
    decreases |t|
  {
    if t != [] {
      var p, x := t[..|t| - 1], t[|t| - 1];
      LastTry(i, t);
      NoEarlyFrames(i, p);
      LinksAreDistinct(i, p);
    }
  }

  // --------------------------------------------------------- the block that got in as number d

  lemma BeforeLast(t: seq<Try>, d: nat)
    requires d < |Kept(t)|
    ensures var p := t[..|t| - 1]; Before(t, d) == if |Kept(p)| <= d then p else Before(p, d)
  {
    assert t != [];
  }

  lemma {:induction false} BeforeIsThen(i: int, t: seq<Try>, d: nat)
    requires Coherent(i, All(t)) && d < |Kept(t)|
    ensures var b := Before(t, d);
      && Kept(b) == Kept(t)[..d] && Coherent(i, All(b))
      && Fits(i, SeenAfter(All(b)), Kept(t)[d])
      && SeenAfter(All(b)).floor <= SeenAfter(All(t)).floor
    decreases |t|
  {
    var p, x := t[..|t| - 1], t[|t| - 1];
    LastTry(i, t);
    BeforeLast(t, d);
    assert SeenAfter(All(p)).floor <= SeenAfter(All(t)).floor;
    if |Kept(p)| <= d {
      assert x.ok && d == |Kept(p)| && Kept(t)[..d] == Kept(p) && Kept(t)[d] == x.m;
    } else {
      BeforeIsThen(i, p, d);
      assert Kept(t)[..d] == Kept(p)[..d] && Kept(t)[d] == Kept(p)[d];
    }
  }

  lemma {:induction false} TriedBefore(t: seq<Try>, d: nat, kind: int, fd: int, inc: nat, ok: bool)
    requires Tried(Before(t, d), kind, fd, inc, ok)
    ensures Tried(t, kind, fd, inc, ok)
    decreases |t|
  {
    if |Kept(t)| > d && t != [] {
      TriedBefore(t[..|t| - 1], d, kind, fd, inc, ok);
    }
  }

  lemma BeforeStays(t: seq<Try>, x: Try, d: nat)
    requires d < |Kept(t)|
    ensures Before(t + [x], d) == Before(t, d)
  {
    OneMoreTry(t, x);
    assert (t + [x])[..|t|] == t;
  }

  lemma LostBefore(t: seq<Try>, d: nat, fd: int, inc: nat)
    requires LostClose(Before(t, d), fd, inc)
    ensures LostClose(t, fd, inc)
  {
    TriedBefore(t, d, BLK_CLOSE, fd, inc, false);
  }

  /** Losing nothing but messages, what got in is what was pushed, as far as OPEN and CLOSE go. */
  predicate ControlsKept(t: seq<Try>) {
    forall j :: 0 <= j < |t| ==> t[j].ok || t[j].m.blk.kind == BLK_DATA
  }

  lemma {:induction false} KeptIsCoherent(i: int, t: seq<Try>)
    requires Coherent(i, All(t)) && ControlsKept(t)
    ensures Coherent(i, Kept(t)) && SeenAfter(Kept(t)) == SeenAfter(All(t))
    decreases |t|
  {
    if t != [] {
      var p, x := t[..|t| - 1], t[|t| - 1];
      assert ControlsKept(p) by {
        assert forall j :: 0 <= j < |p| ==> p[j] == t[j];
      }
      KeptIsCoherent(i, p);
      LastTry(i, t);
      if x.ok {
        OneMore(i, Kept(p), x.m);
      } else {
        assert See(SeenAfter(All(p)), x.m) == SeenAfter(All(p));
      }
    }
  }

  lemma {:induction false} NoneLost(t: seq<Try>, kind: int, fd: int, inc: nat)
    requires ControlsKept(t) && kind != BLK_DATA
    ensures !Tried(t, kind, fd, inc, false)
    decreases |t|
  {
    if t != [] {
      var p := t[..|t| - 1];
      assert forall j :: 0 <= j < |p| ==> p[j] == t[j];
      NoneLost(p, kind, fd, inc);
    }
  }

  // ------------------------------------------------------------------ what a queue still holds

  lemma {:induction false} HasIsTried(t: seq<Try>, kind: int, fd: int, inc: nat)
    requires Has(Kept(t), kind, fd, inc)
    ensures Tried(t, kind, fd, inc, true)
    decreases |t|
  {
    if t != [] {
      var p, x := t[..|t| - 1], t[|t| - 1];
      LastTry(0, t);
      var q := Kept(t);
      var j :| 0 <= j < |q| && q[j].blk.kind == kind && q[j].blk.fd == fd && q[j].inc == inc;
      if j < |Kept(p)| {
        assert Kept(p)[j] == q[j];
        HasIsTried(p, kind, fd, inc);
      }
    }
  }

  lemma HasBehind(done: seq<Msg>, rq: seq<Msg>, kind: int, fd: int, inc: nat)
    requires Has(rq, kind, fd, inc)
    ensures Has(done + rq, kind, fd, inc)
    ensures kind == BLK_OPEN ==> Opened(done + rq, inc)
  {
    var j :| 0 <= j < |rq| && rq[j].blk.kind == kind && rq[j].blk.fd == fd && rq[j].inc == inc;
    assert (done + rq)[|done| + j] == rq[j];
  }

  lemma OpenedInFront(done: seq<Msg>, rq: seq<Msg>, inc: nat)
    requires Opened(done, inc)
    ensures Opened(done + rq, inc)
  {
    var j :| 0 <= j < |done| && done[j].blk.kind == BLK_OPEN && done[j].inc == inc;
    assert (done + rq)[j] == done[j];
  }

  /** A connection is opened at most once in the queue. */
  lemma OpenedOnce(i: int, t: seq<Try>, done: seq<Msg>, rq: seq<Msg>, fd: int, inc: nat)
    requires Coherent(i, All(t)) && Kept(t) == done + rq && Opened(done, inc)
    ensures !Has(rq, BLK_OPEN, fd, inc)
  {
    if Has(rq, BLK_OPEN, fd, inc) {
      var j :| 0 <= j < |rq| && rq[j].blk.kind == BLK_OPEN && rq[j].blk.fd == fd && rq[j].inc == inc;
      var d := |done| + j;
      BeforeIsThen(i, t, d);
      assert Kept(t)[d] == rq[j] && Kept(t)[..d] == done + rq[..j];
      OpenedInFront(done, rq[..j], inc);
      LostIsNotOpened(i, Before(t, d));
      LinksAreDistinct(i, Before(t, d));
    }
  }

  /** What a queue opens was open before it, or is opened in it. */
  lemma {:induction false} LinkedHereOrBefore(done: seq<Msg>, q: seq<Msg>, fd: int)
    requires fd in SeenAfter(done + q).link
    ensures var c := SeenAfter(done + q).link[fd];
      (fd in SeenAfter(done).link && SeenAfter(done).link[fd] == c) || Has(q, BLK_OPEN, fd, c.inc)
    decreases |q|
  {
    if q == [] {
      assert done + q == done;
    } else {
      var p, m := q[..|q| - 1], q[|q| - 1];
      assert p + [m] == q && (done + p) + [m] == done + q;
      OneMore(0, done + p, m);
      HasMore(p, m);
      if !(m.blk.kind == BLK_OPEN && m.blk.fd == fd) {
        LinkedHereOrBefore(done, p, fd);
      }
    }
  }

  /** A connection that was open before the first n blocks of rq is still so after them or is
      closed by one of them, unless its CLOSE was lost. */
  lemma {:induction false} ClosedHereOrNot(i: int, t: seq<Try>, done: seq<Msg>, rq: seq<Msg>, n: nat, fd: int)
    requires Coherent(i, All(t)) && Kept(t) == done + rq && n <= |rq| && fd in SeenAfter(done).link
    requires !LostClose(t, fd, SeenAfter(done).link[fd].inc)
    ensures var c, r := SeenAfter(done).link[fd], SeenAfter(done + rq[..n]);
      (fd in r.link && r.link[fd] == c) || Has(rq[..n], BLK_CLOSE, fd, c.inc)
    decreases n
  {
    var c := SeenAfter(done).link[fd];
    if n == 0 {
      assert done + rq[..0] == done;
    } else {
      var q, m := rq[..n - 1], rq[n - 1];
      assert q + [m] == rq[..n] && (done + q) + [m] == done + rq[..n];
      ClosedHereOrNot(i, t, done, rq, n - 1, fd);
      OneMore(0, done + q, m);
      HasMore(q, m);
      if !Has(q, BLK_CLOSE, fd, c.inc) && m.blk.fd == fd {
        StillOpenAt(i, t, done, rq, n - 1, fd, c);
        assert m.blk.kind == BLK_CLOSE ==> Has(rq[..n], BLK_CLOSE, fd, c.inc);
        assert m.blk.kind != BLK_CLOSE ==> SeenAfter(done + rq[..n]) == SeenAfter(done + q);
      }
    }
  }

  lemma StillOpenAt(i: int, t: seq<Try>, done: seq<Msg>, rq: seq<Msg>, n: nat, fd: int, c: Conn)
    requires Coherent(i, All(t)) && Kept(t) == done + rq && n < |rq| && rq[n].blk.fd == fd
    requires var r := SeenAfter(done + rq[..n]); fd in r.link && r.link[fd] == c
    requires !LostClose(t, fd, c.inc)
    ensures rq[n].blk.kind != BLK_OPEN && rq[n].inc == c.inc
  {
    var d := |done| + n;
    var b := Before(t, d);
    BeforeIsThen(i, t, d);
    assert Kept(t)[d] == rq[n] && Kept(b) == done + rq[..n];
    LinksDifferByLosses(i, b);
    if LostClose(b, fd, c.inc) {
      TriedBefore(t, d, BLK_CLOSE, fd, c.inc, false);
    }
  }
}
