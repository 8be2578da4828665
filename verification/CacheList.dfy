/** The master's list of connections to read again and its list of connections to close
    (net_util.c:452-459, 480-515, 564-596). The lists run through one node in each fd_wrap_t, so
    a connection is taken off whichever list it is on. */
module CacheList {
  import opened Layout

  const CACHE_READ: bv8 := 1
  const CACHE_CLOSE: bv8 := 2

  // --------------------------------------------------------------------- lists of descriptors

  predicate NoRepeats(s: seq<int>) {
    s == [] || (s[0] !in s[1..] && NoRepeats(s[1..]))
  }

  function Without(s: seq<int>, fd: int): (r: seq<int>)
    ensures forall x :: x in r <==> x in s && x != fd
    ensures NoRepeats(s) ==> NoRepeats(r)
  {
    if s == [] then []
    else
      var r := Without(s[1..], fd);
      assert s == [s[0]] + s[1..];
      if s[0] == fd then r
      else
        assert ([s[0]] + r)[1..] == r;
        [s[0]] + r
  }

  lemma {:induction false} NoRepeatsSnoc(s: seq<int>, fd: int)
    requires NoRepeats(s) && fd !in s
    ensures NoRepeats(s + [fd])
    ensures forall x :: x in s + [fd] <==> x in s || x == fd
  {
    if s != [] {
      NoRepeatsSnoc(s[1..], fd);
      assert (s + [fd])[0] == s[0] && (s + [fd])[1..] == s[1..] + [fd];
    }
  }

  lemma {:induction false} WithoutAbsent(s: seq<int>, fd: int)
    requires fd !in s
    ensures Without(s, fd) == s
  {
    if s != [] {
      WithoutAbsent(s[1..], fd);
    }
  }

  lemma WithoutFirst(s: seq<int>)
    requires s != [] && NoRepeats(s)
    ensures Without(s, s[0]) == s[1..]
  {
    WithoutAbsent(s[1..], s[0]);
  }

  /** s' is s with one fd taken off, and the others in their places. */
  ghost predicate TakenOff(s: seq<int>, fd: int, s': seq<int>) {
    fd !in s' && exists k :: 0 <= k < |s| && s[k] == fd && s' == s[..k] + s[k + 1..]
  }

  lemma WithoutTakesOff(s: seq<int>, fd: int)
    requires NoRepeats(s) && fd in s
    ensures TakenOff(s, fd, Without(s, fd))
  {
    var k :| 0 <= k < |s| && s[k] == fd;
    assert s == s[..k] + [fd] + s[k + 1..];
    NoRepeatsMiddle(s[..k], fd, s[k + 1..]);
    WithoutMiddle(s[..k], fd, s[k + 1..]);
  }

  /** What handle_read comes to for a connection on the readlist: its buffer is full again, or
      it is not, or the connection is gone. */
  datatype ReadAgain = StillFull | NotFull | Gone

  function Kept(s: seq<int>, outcome: int -> ReadAgain): (r: seq<int>)
    ensures forall x :: x in r <==> x in s && outcome(x) == StillFull
    ensures NoRepeats(s) ==> NoRepeats(r)
  {
    if s == [] then []
    else if outcome(s[0]) == StillFull then
      var r := Kept(s[1..], outcome);
      assert ([s[0]] + r)[1..] == r;
      [s[0]] + r
    else Kept(s[1..], outcome)
  }

  lemma {:induction false} KeptSnoc(s: seq<int>, fd: int, outcome: int -> ReadAgain)
    ensures Kept(s + [fd], outcome) == Kept(s, outcome) + (if outcome(fd) == StillFull then [fd] else [])
  {
    if s == [] {
      assert s + [fd] == [fd];
    } else {
      assert (s + [fd])[0] == s[0] && (s + [fd])[1..] == s[1..] + [fd];
      KeptSnoc(s[1..], fd, outcome);
    }
  }

  lemma {:induction false} WithoutMiddle(a: seq<int>, fd: int, b: seq<int>)
    requires fd !in a && fd !in b
    ensures Without(a + [fd] + b, fd) == a + b
  {
    var s := a + [fd] + b;
    if a == [] {
      assert s[1..] == b && a + b == b;
      WithoutAbsent(b, fd);
    } else {
      assert s[0] == a[0] && s[1..] == a[1..] + [fd] + b;
      WithoutMiddle(a[1..], fd, b);
      assert a + b == [a[0]] + (a[1..] + b);
    }
  }

  lemma {:induction false} NoRepeatsMiddle(a: seq<int>, fd: int, b: seq<int>)
    requires NoRepeats(a + [fd] + b)
    ensures fd !in a && fd !in b
  {
    var s := a + [fd] + b;
    if a == [] {
      assert s[0] == fd && s[1..] == b;
    } else {
      assert s[0] == a[0] && s[1..] == a[1..] + [fd] + b;
      NoRepeatsMiddle(a[1..], fd, b);
      assert fd in s[1..];
    }
  }

  // ------------------------------------------------------------------ what the lists come to

  datatype Kind = Unused | Listening | Connection

  /** The part of an fd_wrap_t that matters here. wire is what has been put on its socket. */
  datatype FdWrap = FdWrap(kind: Kind, flag: bv8, sbf: seq<Byte>, wire: seq<Byte>)

  datatype Lists = Lists(fds: seq<FdWrap>, readlist: seq<int>, closelist: seq<int>)

  function New(n: nat): Lists {
    Lists(seq(n, i => FdWrap(Unused, 0, [], [])), [], [])
  }

  /** A flush of the output buffer of which the socket took n bytes, or all if there are fewer. */
  function Flushed(w: FdWrap, n: nat): seq<Byte> {
    w.wire + w.sbf[..if n <= |w.sbf| then n else |w.sbf|]
  }

  function Shut(w: FdWrap, wire: seq<Byte>): FdWrap {
    if w.kind == Unused then w else FdWrap(Unused, 0, [], wire)
  }

  datatype Op =
    | Add(fd: int, kind: Kind)            // add_fdinfo_to_epinfo
    | Buffer(fd: int, data: seq<Byte>)    // output waits in sbf
    | ToRead(fd: int)                     // do_add_to_readlist, which only handle_read calls
    | FromRead(fd: int)                   // do_del_from_readlist
    | ToClose(fd: int)                    // do_add_to_closelist
    | FromClose(fd: int)                  // do_del_from_closelist
    | Close(fd: int)                      // do_fd_close
    | CloseAll(took: int -> nat)          // handle_closelist
    | ReadAll(outcome: int -> ReadAgain)  // handle_readlist

  predicate Can(l: Lists, op: Op) {
    match op
    case Add(fd, kind) => 0 <= fd < |l.fds| && l.fds[fd].kind == Unused && kind != Unused
    case Buffer(fd, _) => 0 <= fd < |l.fds| && l.fds[fd].kind == Connection
    case ToRead(fd) => 0 <= fd < |l.fds| && l.fds[fd].kind == Connection
    case FromRead(fd) => 0 <= fd < |l.fds|
    case ToClose(fd) => 0 <= fd < |l.fds| && l.fds[fd].kind != Unused
    case FromClose(fd) => 0 <= fd < |l.fds|
    case Close(fd) => 0 <= fd < |l.fds|
    case _ => true
  }

  /** What an operation is for. */
  function After(l: Lists, op: Op): Lists
    requires Can(l, op)
  {
    match op
    case Add(fd, kind) => l.(fds := l.fds[fd := FdWrap(kind, 0, [], [])])
    case Buffer(fd, data) => l.(fds := l.fds[fd := l.fds[fd].(sbf := l.fds[fd].sbf + data)])
    case ToRead(fd) =>
      if fd in l.readlist || fd in l.closelist then l
      else Lists(l.fds[fd := l.fds[fd].(flag := CACHE_READ)], l.readlist + [fd], l.closelist)
    case FromRead(fd) =>
      if fd !in l.readlist then l
      else l.(fds := l.fds[fd := l.fds[fd].(flag := 0)], readlist := Without(l.readlist, fd))
    case ToClose(fd) =>
      if fd in l.closelist then l
      else Lists(l.fds[fd := l.fds[fd].(flag := CACHE_CLOSE)], Without(l.readlist, fd), l.closelist + [fd])
    case FromClose(fd) =>
      if fd !in l.closelist then l
      else l.(fds := l.fds[fd := l.fds[fd].(flag := 0)], closelist := Without(l.closelist, fd))
    case Close(fd) =>
      Lists(l.fds[fd := Shut(l.fds[fd], l.fds[fd].wire)], Without(l.readlist, fd), Without(l.closelist, fd))
    case CloseAll(took) => CloseSome(l, l.closelist, took)
    case ReadAll(outcome) => ReadSome(l, l.readlist, [], outcome)
  }

  /** The first connections of the closelist, flushed as far as possible and closed. */
  function CloseSome(l: Lists, done: seq<int>, took: int -> nat): Lists
    requires |done| <= |l.closelist|
  {
    Lists(seq(|l.fds|, f requires 0 <= f < |l.fds| =>
            if f in done then Shut(l.fds[f], Flushed(l.fds[f], took(f))) else l.fds[f]),
          l.readlist, l.closelist[|done|..])
  }

  /** The connections done of the readlist, read again, with those of rest still to be read. */
  function ReadSome(l: Lists, done: seq<int>, rest: seq<int>, outcome: int -> ReadAgain): Lists {
    Lists(seq(|l.fds|, f requires 0 <= f < |l.fds| => if f in done then Reread(l.fds[f], outcome(f)) else l.fds[f]),
          Kept(done, outcome) + rest, l.closelist)
  }

  function Reread(w: FdWrap, again: ReadAgain): FdWrap {
    match again
    case StillFull => w
    case NotFull => w.(flag := 0)
    case Gone => Shut(w, w.wire)
  }

  function AfterAll(l: Lists, ops: seq<Op>): Lists
    decreases |ops|
  {
    if ops == [] then l else AfterAll(if Can(l, ops[0]) then After(l, ops[0]) else l, ops[1..])
  }

  // --------------------------------------------------------------------------- the invariant

  /** On the readlist iff flagged CACHE_READ, on the closelist iff flagged CACHE_CLOSE, and only
      while in use; a listening descriptor is never on the readlist; and nothing waits to be sent
      on a closed one. */
  predicate Listed(w: FdWrap, onRead: bool, onClose: bool) {
    && (w.flag == 0 || w.flag == CACHE_READ || w.flag == CACHE_CLOSE)
    && (onRead <==> w.flag == CACHE_READ)
    && (onClose <==> w.flag == CACHE_CLOSE)
    && (onRead ==> w.kind == Connection)
    && (w.kind == Unused ==> w.flag == 0 && w.sbf == [])
  }

  ghost predicate ListInv(l: Lists) {
    && NoRepeats(l.readlist) && NoRepeats(l.closelist)
    && (forall fd :: fd in l.readlist ==> 0 <= fd < |l.fds|)
    && (forall fd :: fd in l.closelist ==> 0 <= fd < |l.fds|)
    && (forall fd :: 0 <= fd < |l.fds| ==> Listed(l.fds[fd], fd in l.readlist, fd in l.closelist))
  }

  lemma AfterKeeps(l: Lists, op: Op)
    requires ListInv(l) && Can(l, op)
    ensures ListInv(After(l, op))
  {
    match op
    case ToRead(fd) => ToReadKeeps(l, fd);
    case ToClose(fd) => ToCloseKeeps(l, fd);
    case CloseAll(took) => CloseAllKeeps(l, took);
    case ReadAll(outcome) => ReadAllKeeps(l, outcome);
    case _ =>
  }

  lemma ToReadKeeps(l: Lists, fd: int)
    requires ListInv(l) && Can(l, ToRead(fd))
    ensures ListInv(After(l, ToRead(fd)))
  {
    if fd !in l.readlist && fd !in l.closelist {
      NoRepeatsSnoc(l.readlist, fd);
    }
  }

  lemma ToCloseKeeps(l: Lists, fd: int)
    requires ListInv(l) && Can(l, ToClose(fd))
    ensures ListInv(After(l, ToClose(fd)))
  {
    if fd !in l.closelist {
      NoRepeatsSnoc(l.closelist, fd);
    }
  }

  lemma CloseAllKeeps(l: Lists, took: int -> nat)
    requires ListInv(l)
    ensures ListInv(CloseSome(l, l.closelist, took))
  {
  }

  lemma ReadAllKeeps(l: Lists, outcome: int -> ReadAgain)
    requires ListInv(l)
    ensures ListInv(ReadSome(l, l.readlist, [], outcome))
  {
    assert Kept(l.readlist, outcome) + [] == Kept(l.readlist, outcome);
  }

  /** After any sequence of operations, the flags say what is on the lists, and no descriptor is
      on both or twice. */
  lemma {:induction false} AlwaysListed(l: Lists, ops: seq<Op>)
    requires ListInv(l)
    ensures ListInv(AfterAll(l, ops))
    decreases |ops|
  {
    if ops != [] {
      if Can(l, ops[0]) {
        AfterKeeps(l, ops[0]);
      }
      AlwaysListed(if Can(l, ops[0]) then After(l, ops[0]) else l, ops[1..]);
    }
  }

  // ---------------------------------------------------------------------------- the code

  class EpollInfo {
    const fds: array<FdWrap>
    var readlist: seq<int>
    var closelist: seq<int>

    ghost function View(): Lists
      reads this, fds
    {
      Lists(fds[..], readlist, closelist)
    }

    ghost predicate Valid()
      reads this, fds
    {
      ListInv(View())
    }

    constructor (nrMaxFd: nat)
      ensures Valid() && View() == New(nrMaxFd) && fresh(fds)
    {
      fds := new FdWrap[nrMaxFd](_ => FdWrap(Unused, 0, [], []));
      readlist, closelist := [], [];
      new;
      assert fds[..] == New(nrMaxFd).fds;
    }

    /** add_fdinfo_to_epinfo: a descriptor that was closed is used again, on no list. */
    method AddFd(fd: int, kind: Kind)
      requires Valid() && Can(View(), Add(fd, kind))
      modifies fds
      ensures Valid() && View() == After(old(View()), Add(fd, kind))
      ensures fds[..] == old(fds[..])[fd := FdWrap(kind, 0, [], [])]
    {
      AfterKeeps(View(), Add(fd, kind));
      fds[fd] := FdWrap(kind, 0, [], []);
    }

    method BufferOutput(fd: int, data: seq<Byte>)
      requires Valid() && Can(View(), Buffer(fd, data))
      modifies fds
      ensures Valid() && View() == After(old(View()), Buffer(fd, data))
      ensures fds[..] == old(fds[..])[fd := old(fds[fd]).(sbf := old(fds[fd].sbf) + data)]
    {
      AfterKeeps(View(), Buffer(fd, data));
      fds[fd] := fds[fd].(sbf := fds[fd].sbf + data);
    }

    method AddToReadlist(fd: int)
      requires Valid() && Can(View(), ToRead(fd))
      modifies this`readlist, fds
      ensures Valid() && View() == After(old(View()), ToRead(fd)) && closelist == old(closelist)
      ensures var on := fd in old(readlist) || fd in old(closelist);
        && readlist == (if on then old(readlist) else old(readlist) + [fd])
        && fds[..] == if on then old(fds[..]) else old(fds[..])[fd := old(fds[fd]).(flag := CACHE_READ)]
    {
      AfterKeeps(View(), ToRead(fd));
      assert Listed(fds[fd], fd in readlist, fd in closelist);
      if fds[fd].flag == 0 {
        fds[fd] := fds[fd].(flag := fds[fd].flag | CACHE_READ);
        readlist := readlist + [fd];
      }
    }

    /** list_del_init takes the node off whichever list it is on. */
    method DelFromReadlist(fd: int)
      requires Valid() && 0 <= fd < fds.Length
      modifies this`readlist, this`closelist, fds
      ensures Valid() && View() == After(old(View()), FromRead(fd)) && closelist == old(closelist)
      ensures if fd in old(readlist) then
                TakenOff(old(readlist), fd, readlist) && fds[..] == old(fds[..])[fd := old(fds[fd]).(flag := 0)]
              else readlist == old(readlist) && fds[..] == old(fds[..])
    {
      if fd in readlist {
        WithoutTakesOff(readlist, fd);
      }
      AfterKeeps(View(), FromRead(fd));
      assert Listed(fds[fd], fd in readlist, fd in closelist);
      if fds[fd].flag & CACHE_READ != 0 {
        WithoutAbsent(closelist, fd);
        fds[fd] := fds[fd].(flag := 0);
        readlist, closelist := Without(readlist, fd), Without(closelist, fd);
      }
    }

    method DelFromCloselist(fd: int)
      requires Valid() && 0 <= fd < fds.Length
      modifies this`readlist, this`closelist, fds
      ensures Valid() && View() == After(old(View()), FromClose(fd)) && readlist == old(readlist)
      ensures if fd in old(closelist) then
                TakenOff(old(closelist), fd, closelist) && fds[..] == old(fds[..])[fd := old(fds[fd]).(flag := 0)]
              else closelist == old(closelist) && fds[..] == old(fds[..])
    {
      if fd in closelist {
        WithoutTakesOff(closelist, fd);
      }
      AfterKeeps(View(), FromClose(fd));
      assert Listed(fds[fd], fd in readlist, fd in closelist);
      if fds[fd].flag & CACHE_CLOSE != 0 {
        WithoutAbsent(readlist, fd);
        fds[fd] := fds[fd].(flag := 0);
        readlist, closelist := Without(readlist, fd), Without(closelist, fd);
      }
    }

    method AddToCloselist(fd: int)
      requires Valid() && Can(View(), ToClose(fd))
      modifies this`readlist, this`closelist, fds
      ensures Valid() && View() == After(old(View()), ToClose(fd))
      ensures if fd in old(readlist) then TakenOff(old(readlist), fd, readlist) else readlist == old(readlist)
      ensures closelist == if fd in old(closelist) then old(closelist) else old(closelist) + [fd]
      ensures fds[..] == old(fds[..])[fd := old(fds[fd]).(flag := CACHE_CLOSE)]
    {
      AfterKeeps(View(), ToClose(fd));
      ToCloseInSteps(View(), fd);
      DelFromReadlist(fd);
      if fds[fd].flag & CACHE_CLOSE == 0 {
        fds[fd] := fds[fd].(flag := fds[fd].flag | CACHE_CLOSE);
        closelist := closelist + [fd];
      }
    }

    /** do_fd_close as far as the lists and the buffer go. */
    method FdClose(fd: int)
      requires Valid() && 0 <= fd < fds.Length
      modifies this`readlist, this`closelist, fds
      ensures Valid() && View() == After(old(View()), Close(fd))
      ensures fds[..] == old(fds[..])[fd := FdWrap(Unused, 0, [], old(fds[fd].wire))]
      ensures if fd in old(readlist) then TakenOff(old(readlist), fd, readlist) else readlist == old(readlist)
      ensures if fd in old(closelist) then TakenOff(old(closelist), fd, closelist) else closelist == old(closelist)
    {
      AfterKeeps(View(), Close(fd));
      CloseInSteps(View(), fd);
      CloseIs(View(), fd);
      if fds[fd].kind == Unused {
        return;
      }
      DelFromReadlist(fd);
      DelFromCloselist(fd);
      FreeBuffer(fd);
    }

    /** free_buff, and the type of a closed descriptor. */
    method FreeBuffer(fd: int)
      requires 0 <= fd < fds.Length
      modifies fds
      ensures fds[..] == old(fds[..])[fd := FdWrap(Unused, old(fds[fd].flag), [], old(fds[fd].wire))]
    {
      fds[fd] := FdWrap(Unused, fds[fd].flag, [], fds[fd].wire);
    }

    /** do_fd_write, if there is something to write. */
    method FlushFd(fd: int, took: nat)
      requires 0 <= fd < fds.Length
      modifies fds
      ensures fds[..] == old(fds[..])[fd := old(fds[fd]).(wire := Flushed(old(fds[fd]), took))]
    {
      var w := fds[fd];
      if |w.sbf| > 0 {
        fds[fd] := w.(wire := Flushed(w, took));
      } else {
        assert w.(wire := Flushed(w, took)) == w;
      }
    }

    /** handle_closelist: the loop remembers the next entry before it closes the current one. Each
        connection is closed, whatever the socket takes of its output (net_util.c:587-590). */
    method HandleCloselist(took: int -> nat)
      requires Valid()
      modifies this`readlist, this`closelist, fds
      ensures Valid() && View() == After(old(View()), CloseAll(took)) && closelist == [] && readlist == old(readlist)
      ensures forall fd :: 0 <= fd < fds.Length && fd !in old(closelist) ==> fds[fd] == old(fds[fd])
      ensures forall fd :: 0 <= fd < fds.Length && fd in old(closelist) ==>
                && fds[fd].kind == Unused && fds[fd].flag == 0 && fds[fd].sbf == []
                && var w := old(fds[fd]);
                   fds[fd].wire == if took(fd) <= |w.sbf| then w.wire + w.sbf[..took(fd)] else w.wire + w.sbf
    {
      ghost var l0 := View();
      var todo := closelist;
      assert View() == CloseSome(l0, todo[..0], took);
      for k := 0 to |todo|
        invariant Valid() && View() == CloseSome(l0, todo[..k], took)
      {
        var fd := todo[k];
        CloseStep(l0, k, took);
        ghost var now := View();
        FlushFd(fd, took(fd));
        assert View() == now.(fds := now.fds[fd := now.fds[fd].(wire := Flushed(now.fds[fd], took(fd)))]);
        FdClose(fd);
      }
      assert todo[..|todo|] == todo;
    }

    /** One turn of the loop in handle_readlist. */
    method ReadOnce(fd: int, again: ReadAgain)
      requires Valid() && fd in readlist
      modifies this`readlist, this`closelist, fds
      ensures Valid() && View() == Once(old(View()), fd, again)
    {
      assert Listed(fds[fd], fd in readlist, fd in closelist);
      WithoutAbsent(closelist, fd);
      match again {
        case StillFull => AddToReadlist(fd);
        case NotFull => DelFromReadlist(fd);
        case Gone => FdClose(fd);
      }
    }

    /** handle_readlist: each connection is read once more; it stays on the list while its buffer
        fills up again, and leaves it otherwise. The branch for a listening descriptor is never
        taken, since none is on the list. */
    method HandleReadlist(outcome: int -> ReadAgain)
      requires Valid()
      modifies this`readlist, this`closelist, fds
      ensures Valid() && View() == After(old(View()), ReadAll(outcome)) && closelist == old(closelist)
      ensures forall fd :: fd in readlist <==> fd in old(readlist) && outcome(fd) == StillFull
      ensures forall fd :: 0 <= fd < fds.Length ==> fds[fd].wire == old(fds[fd].wire)
      ensures forall fd :: 0 <= fd < fds.Length && fd !in old(readlist) ==> fds[fd] == old(fds[fd])
      ensures forall fd :: 0 <= fd < fds.Length && fd in old(readlist) ==>
                && old(fds[fd].kind) == Connection && (fds[fd].kind == Unused <==> outcome(fd) == Gone)
                && (outcome(fd) == Gone ==> fds[fd].flag == 0 && fds[fd].sbf == [])
                && (outcome(fd) != Gone ==> fds[fd].kind == Connection && fds[fd].sbf == old(fds[fd].sbf))
    {
      ghost var l0 := View();
      var todo := readlist;
      ReadNone(l0, outcome);
      assert todo[..0] == [] && todo[0..] == todo;
      for k := 0 to |todo|
        invariant Valid() && View() == ReadSome(l0, todo[..k], todo[k..], outcome)
      {
        ReadNext(l0, k, todo[k], outcome);
      }
      assert todo[..|todo|] == todo && todo[|todo|..] == [];
      ReadAllIs(l0, outcome);
    }

    /** The turn of the loop for entry k of the list as it was at first. */
    method ReadNext(ghost l0: Lists, ghost k: nat, fd: int, outcome: int -> ReadAgain)
      requires Valid() && ListInv(l0) && k < |l0.readlist| && fd == l0.readlist[k]
      requires View() == ReadSome(l0, l0.readlist[..k], l0.readlist[k..], outcome)
      modifies this`readlist, this`closelist, fds
      ensures Valid() && View() == ReadSome(l0, l0.readlist[..k + 1], l0.readlist[k + 1..], outcome)
    {
      ReadStep(l0, k, outcome);
      ReadOnce(fd, outcome(fd));
    }
  }

  /** do_add_to_closelist takes it off the readlist first. */
  lemma ToCloseInSteps(l: Lists, fd: int)
    requires ListInv(l) && Can(l, ToClose(fd))
    ensures var l1 := After(l, FromRead(fd));
      && l1.fds[fd].flag == (if fd in l.closelist then CACHE_CLOSE else 0)
      && After(l, ToClose(fd)) ==
           if fd in l.closelist then l1
           else Lists(l1.fds[fd := l1.fds[fd].(flag := CACHE_CLOSE)], l1.readlist, l1.closelist + [fd])
  {
    assert Listed(l.fds[fd], fd in l.readlist, fd in l.closelist);
    if fd !in l.readlist {
      WithoutAbsent(l.readlist, fd);
    }
    if fd in l.closelist {
      assert l.fds[fd := l.fds[fd]] == l.fds;
    }
  }

  /** do_fd_close takes a descriptor off the lists first. */
  lemma CloseInSteps(l: Lists, fd: int)
    requires ListInv(l) && 0 <= fd < |l.fds|
    ensures l.fds[fd].kind == Unused ==> After(l, Close(fd)) == l
    ensures l.fds[fd].kind != Unused ==>
              var l2 := After(After(l, FromRead(fd)), FromClose(fd));
              After(l, Close(fd)) == l2.(fds := l2.fds[fd := FdWrap(Unused, l2.fds[fd].flag, [], l2.fds[fd].wire)])
  {
    assert Listed(l.fds[fd], fd in l.readlist, fd in l.closelist);
    if fd !in l.readlist {
      WithoutAbsent(l.readlist, fd);
    }
    if fd !in l.closelist {
      WithoutAbsent(l.closelist, fd);
    }
    if l.fds[fd].kind == Unused {
      assert l.fds[fd := l.fds[fd]] == l.fds;
    }
  }

  /** What do_fd_close is for. */
  lemma CloseIs(l: Lists, fd: int)
    requires ListInv(l) && 0 <= fd < |l.fds|
    ensures var l' := After(l, Close(fd));
      && l'.fds == l.fds[fd := FdWrap(Unused, 0, [], l.fds[fd].wire)]
      && (if fd in l.readlist then TakenOff(l.readlist, fd, l'.readlist) else l'.readlist == l.readlist)
      && (if fd in l.closelist then TakenOff(l.closelist, fd, l'.closelist) else l'.closelist == l.closelist)
  {
    assert Listed(l.fds[fd], fd in l.readlist, fd in l.closelist);
    if fd in l.readlist {
      WithoutTakesOff(l.readlist, fd);
    } else {
      WithoutAbsent(l.readlist, fd);
    }
    if fd in l.closelist {
      WithoutTakesOff(l.closelist, fd);
    } else {
      WithoutAbsent(l.closelist, fd);
    }
  }

  /** One turn of the loop in handle_closelist. */
  lemma CloseStep(l: Lists, k: nat, took: int -> nat)
    requires ListInv(l) && k < |l.closelist| && ListInv(CloseSome(l, l.closelist[..k], took))
    ensures var fd, now := l.closelist[k], CloseSome(l, l.closelist[..k], took);
      && 0 <= fd < |l.fds| && now.fds[fd] == l.fds[fd] && fd in now.closelist
      && var w := l.fds[fd].(wire := Flushed(l.fds[fd], took(fd)));
         && ListInv(now.(fds := now.fds[fd := w]))
         && After(now.(fds := now.fds[fd := w]), Close(fd)) == CloseSome(l, l.closelist[..k + 1], took)
  {
    var todo := l.closelist;
    var fd, now := todo[k], CloseSome(l, todo[..k], took);
    assert todo == todo[..k] + [fd] + todo[k + 1..] && todo[..k + 1] == todo[..k] + [fd];
    NoRepeatsMiddle(todo[..k], fd, todo[k + 1..]);
    assert now.closelist == todo[k..] && todo[k..][0] == fd && todo[k..][1..] == todo[k + 1..];
    WithoutFirst(now.closelist);
    assert fd in l.closelist;
    assert Listed(l.fds[fd], fd in l.readlist, true);
    WithoutAbsent(l.readlist, fd);
  }

  function Once(l: Lists, fd: int, again: ReadAgain): Lists
    requires 0 <= fd < |l.fds|
  {
    Lists(l.fds[fd := Reread(l.fds[fd], again)],
          if again == StillFull then l.readlist else Without(l.readlist, fd), l.closelist)
  }

  lemma ReadStep(l: Lists, k: nat, outcome: int -> ReadAgain)
    requires ListInv(l) && k < |l.readlist|
    requires ListInv(ReadSome(l, l.readlist[..k], l.readlist[k..], outcome))
    ensures var fd, now := l.readlist[k], ReadSome(l, l.readlist[..k], l.readlist[k..], outcome);
      && 0 <= fd < |l.fds| && fd in now.readlist && now.fds[fd].kind == Connection
      && Once(now, fd, outcome(fd)) == ReadSome(l, l.readlist[..k + 1], l.readlist[k + 1..], outcome)
  {
    var todo := l.readlist;
    var fd, rest := todo[k], todo[k + 1..];
    ReadOneMore(l, todo[..k], todo[k..], rest, fd, outcome);
    assert todo == todo[..k] + [fd] + rest && todo[..k + 1] == todo[..k] + [fd] && todo[k..] == [fd] + rest;
    NoRepeatsMiddle(todo[..k], fd, rest);
    ListsAfterRead(todo[..k], fd, rest, outcome);
    assert fd in l.readlist;
    assert Listed(l.fds[fd], true, fd in l.closelist);
  }

  /** What handle_readlist is for, descriptor by descriptor. */
  lemma ReadAllIs(l: Lists, outcome: int -> ReadAgain)
    requires ListInv(l)
    ensures var l' := ReadSome(l, l.readlist, [], outcome);
      && |l'.fds| == |l.fds| && (forall fd :: fd in l'.readlist <==> fd in l.readlist && outcome(fd) == StillFull)
      && forall fd :: 0 <= fd < |l.fds| ==>
           var w, w' := l.fds[fd], l'.fds[fd];
           && w'.wire == w.wire && (fd !in l.readlist ==> w' == w)
           && (fd in l.readlist ==>
                 && w.kind == Connection && (w'.kind == Unused <==> outcome(fd) == Gone)
                 && (outcome(fd) == Gone ==> w'.flag == 0 && w'.sbf == [])
                 && (outcome(fd) != Gone ==> w'.kind == Connection && w'.sbf == w.sbf))
  {
    forall fd | 0 <= fd < |l.fds| && fd in l.readlist ensures l.fds[fd].kind == Connection {
      assert Listed(l.fds[fd], true, fd in l.closelist);
    }
  }

  lemma ReadNone(l: Lists, outcome: int -> ReadAgain)
    ensures ReadSome(l, [], l.readlist, outcome) == l
  {
    assert ReadSome(l, [], l.readlist, outcome).fds == l.fds;
    assert [] + l.readlist == l.readlist;
  }

  lemma ReadOneMore(l: Lists, done: seq<int>, todo: seq<int>, rest: seq<int>, fd: int, outcome: int -> ReadAgain)
    ensures 0 <= fd < |l.fds| && fd !in done ==>
              var now := ReadSome(l, done, todo, outcome).fds;
              && now[fd] == l.fds[fd]
              && ReadSome(l, done + [fd], rest, outcome).fds == now[fd := Reread(now[fd], outcome(fd))]
  {
  }

  lemma ListsAfterRead(done: seq<int>, fd: int, rest: seq<int>, outcome: int -> ReadAgain)
    requires fd !in done && fd !in rest
    ensures Kept(done + [fd], outcome) + rest
         == if outcome(fd) == StillFull then Kept(done, outcome) + ([fd] + rest)
            else Without(Kept(done, outcome) + ([fd] + rest), fd)
  {
    var kept := Kept(done, outcome);
    KeptSnoc(done, fd, outcome);
    Associative(kept, [fd], rest);
    if outcome(fd) != StillFull {
      assert kept + [] == kept;
      WithoutMiddle(kept, fd, rest);
    }
  }

  lemma Associative(a: seq<int>, b: seq<int>, c: seq<int>)
    ensures a + (b + c) == (a + b) + c
  {
  }

  /** The code after any sequence of operations on descriptors that allow them: the flags and
      lists are those of AfterAll, for which AlwaysListed holds. */
  method Replay(nrMaxFd: nat, ops: seq<Op>) returns (e: EpollInfo)
    ensures e.Valid() && e.View() == AfterAll(New(nrMaxFd), ops)
  {
    e := new EpollInfo(nrMaxFd);
    for i := 0 to |ops|
      invariant fresh(e) && fresh(e.fds) && e.Valid() && e.fds.Length == nrMaxFd
      invariant AfterAll(e.View(), ops[i..]) == AfterAll(New(nrMaxFd), ops)
    {
      ghost var l, rest := e.View(), ops[i..];
      assert rest[0] == ops[i] && rest[1..] == ops[i + 1..];
      Play(e, ops[i]);
    }
  }

  method Play(e: EpollInfo, op: Op)
    requires e.Valid()
    modifies e, e.fds
    ensures e.Valid() && e.View() == if Can(old(e.View()), op) then After(old(e.View()), op) else old(e.View())
  {
    var n := e.fds.Length;
    match op {
      case Add(fd, kind) => if 0 <= fd < n && e.fds[fd].kind == Unused && kind != Unused { e.AddFd(fd, kind); }
      case Buffer(fd, data) => if 0 <= fd < n && e.fds[fd].kind == Connection { e.BufferOutput(fd, data); }
      case ToRead(fd) => if 0 <= fd < n && e.fds[fd].kind == Connection { e.AddToReadlist(fd); }
      case FromRead(fd) => if 0 <= fd < n { e.DelFromReadlist(fd); }
      case ToClose(fd) => if 0 <= fd < n && e.fds[fd].kind != Unused { e.AddToCloselist(fd); }
      case FromClose(fd) => if 0 <= fd < n { e.DelFromCloselist(fd); }
      case Close(fd) => if 0 <= fd < n { e.FdClose(fd); }
      case CloseAll(took) => e.HandleCloselist(took);
      case ReadAll(outcome) => e.HandleReadlist(outcome);
    }
  }
}
