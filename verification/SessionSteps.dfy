/** Every step of the connection protocol keeps its invariant, whatever pushes fail. */
module SessionSteps {
  import opened Layout
  import opened Told
  import opened Session

  /** The record up to the worker's next block, and what the worker has seen. */
  lemma DoneFacts(open: map<int, Conn>, next: nat, i: int, k: Work)
    requires ToldInv(open, next, i, k)
    ensures var b := Before(k.tried, |k.done|);
      && Kept(b) == k.done && Coherent(i, All(b)) && SeenAfter(All(b)).floor <= next
      && Distinct(i, SeenAfter(k.done)) && SeenAfter(k.done).floor <= SeenAfter(All(b)).floor
  {
    var b := Before(k.tried, |k.done|);
    if k.rq == [] {
      assert k.done + k.rq == k.done;
    } else {
      BeforeIsThen(i, k.tried, |k.done|);
      assert (k.done + k.rq)[..|k.done|] == k.done;
    }
    LinksAreDistinct(i, b);
  }

  lemma NextIsNew(open: map<int, Conn>, next: nat, i: int, k: Work)
    requires ToldInv(open, next, i, k)
    ensures forall inc :: next <= inc ==> Frames(k.done + k.rq, inc) == []
    ensures Distinct(i, SeenAfter(All(k.tried)))
  {
    NoEarlyFrames(i, k.tried);
    LinksAreDistinct(i, k.tried);
  }

  // ------------------------------------------------------------------ one worker is enough

  /** What a step at the master leaves alone for worker i. */
  ghost predicate SameFor(open: map<int, Conn>, cut: map<nat, seq<Frame>>, open': map<int, Conn>, cut': map<nat, seq<Frame>>, i: int) {
    && (forall fd :: fd in open && open[fd].idx == i ==>
          fd in open' && open'[fd] == open[fd] && Look(cut', open[fd].inc) == Look(cut, open[fd].inc))
    && (forall fd :: fd in open' && open'[fd].idx == i ==> fd in open && open[fd] == open'[fd])
    && (forall inc :: Look(cut, inc) <= Look(cut', inc))
  }

  lemma Elsewhere(s: Sys, s': Sys, i: int)
    requires 0 <= i < |s.works| && |s'.works| == |s.works| && s'.works[i] == s.works[i]
    requires WorkInv(s, i) && SameFor(s.open, s.cut, s'.open, s'.cut, i) && s.next <= s'.next
    ensures WorkInv(s', i)
  {
    var k := s.works[i];
    DoneFacts(s.open, s.next, i, k);
    assert k.misread == [] ==> TableInv(i, s'.open, SeenAfter(k.done).link, k);
    assert ToldInv(s'.open, s'.next, i, k);
    CutElsewhere(s.open, s.cut, s'.open, s'.cut, i, k);
  }

  lemma CutElsewhere(open: map<int, Conn>, cut: map<nat, seq<Frame>>, open': map<int, Conn>, cut': map<nat, seq<Frame>>, i: int, k: Work)
    requires CutInv(open, cut, i, k) && SameFor(open, cut, open', cut', i)
    ensures CutInv(open', cut', i, k)
  {
  }

  /** A step that concerns worker i only. */
  lemma Assemble(s: Sys, s': Sys, i: int, k: Work)
    requires Inv(s) && 0 <= i < |s.works| && s'.works == s.works[i := k] && s.next <= s'.next
    requires Indexed(s') && MasterInv(s') && Sound(s'.open, s'.next, s'.cut, i, k)
    requires forall j :: 0 <= j < |s.works| && j != i ==> SameFor(s.open, s.cut, s'.open, s'.cut, j)
    ensures Inv(s')
  {
    forall j | 0 <= j < |s'.works| ensures WorkInv(s', j) {
      if j != i {
        assert WorkInv(s, j);
        Elsewhere(s, s', j);
      }
    }
  }

  lemma SameMaster(s: Sys, s': Sys)
    requires MasterInv(s) && s'.listen == s.listen && s'.open == s.open && s'.cut == s.cut && s.next <= s'.next
    ensures MasterInv(s')
  {
    forall fd ensures FdInv(s', fd) {
      assert FdInv(s, fd);
    }
  }

  lemma OpenNumbers(s: Sys)
    requires MasterInv(s)
    ensures forall fd :: fd in s.open ==> 1 <= s.open[fd].inc < s.next
  {
    forall fd | fd in s.open ensures 1 <= s.open[fd].inc < s.next {
      assert FdInv(s, fd);
    }
  }

  /** A step of worker i. */
  lemma ReplaceWorker(s: Sys, i: int, k: Work)
    requires Inv(s) && 0 <= i < |s.works| && Sound(s.open, s.next, s.cut, i, k)
    ensures Inv(s.(works := s.works[i := k]))
  {
    SameMaster(s, s.(works := s.works[i := k]));
    Assemble(s, s.(works := s.works[i := k]), i, k);
  }

  /** A step of worker i that takes a number. */
  lemma ReplaceAndNumber(s: Sys, i: int, k: Work)
    requires Inv(s) && 0 <= i < |s.works| && Sound(s.open, s.next + 1, s.cut, i, k)
    ensures Inv(s.(works := s.works[i := k], next := s.next + 1))
  {
    var s' := s.(works := s.works[i := k], next := s.next + 1);
    SameMaster(s, s');
    Assemble(s, s', i, k);
  }

  // ------------------------------------------------------------------ steps of the master

  lemma StillLost(t: seq<Try>, x: Try)
    requires SomeCloseLost(t)
    ensures SomeCloseLost(t + [x])
  {
    OneMoreTry(t, x);
    var fd, inc: nat :| LostClose(t, fd, inc);
    assert LostClose(t + [x], fd, inc);
  }

  /** A push to the receive queue does not touch the table, the callbacks or what the worker
      has been handed. */
  lemma TellIsElsewhere(next: nat, next': nat, k: Work, m: Msg, room: bool)
    requires OwnInv(next, k) && next <= next'
    ensures OwnInv(next', Tell(k, m, room))
  {
    var k' := Tell(k, m, room);
    OneMoreTry(k.tried, Try(m, room));
    if k.wrecked {
      StillLost(k.tried, Try(m, room));
    }
    forall j | 0 <= j < |k.done| ensures Before(k'.tried, j) == Before(k.tried, j) {
      BeforeStays(k.tried, Try(m, room), j);
    }
  }

  /** The record after a push that fits it. */
  lemma TellRecord(i: int, k: Work, m: Msg, room: bool)
    requires Kept(k.tried) == k.done + k.rq && Coherent(i, All(k.tried)) && Fits(i, SeenAfter(All(k.tried)), m)
    ensures var k' := Tell(k, m, room);
      && Kept(k'.tried) == k'.done + k'.rq && Coherent(i, All(k'.tried))
      && SeenAfter(All(k'.tried)) == See(SeenAfter(All(k.tried)), m)
      && forall inc :: Frames(k'.done + k'.rq, inc) == Frames(k.done + k.rq, inc) +
           (if room && m.blk.kind == BLK_DATA && m.inc == inc then [m.blk.data] else [])
  {
    OneMoreTry(k.tried, Try(m, room));
    OneMore(i, All(k.tried), m);
    if room {
      assert k.done + (k.rq + [m]) == (k.done + k.rq) + [m];
      OneMore(i, k.done + k.rq, m);
    }
  }

  lemma OpenIsSound(open: map<int, Conn>, next: nat, cut: map<nat, seq<Frame>>, i: int, k: Work, fd: int, addr: seq<Byte>, room: bool)
    requires Sound(open, next, cut, i, k) && fd !in open && |addr| == ADDR_LEN
    requires forall inc :: inc in cut ==> inc < next
    ensures Sound(open[fd := Conn(i, addr, next)], next + 1, cut, i, Tell(k, OpenMsg(i, fd, addr, next), room))
  {
    DoneFacts(open, next, i, k);
    if k.misread == [] {
      OpenIsTable(i, open, SeenAfter(k.done), next, k, Tell(k, OpenMsg(i, fd, addr, next), room), fd, addr);
    }
    OpenIsTold(open, next, i, k, fd, addr, room);
    OpenIsCut(open, next, cut, i, k, fd, addr, room);
    TellIsElsewhere(next, next + 1, k, OpenMsg(i, fd, addr, next), room);
  }

  lemma OpenIsTable(i: int, open: map<int, Conn>, r: Seen, next: nat, k: Work, k': Work, fd: int, addr: seq<Byte>)
    requires TableInv(i, open, r.link, k) && fd !in open && Distinct(i, r) && r.floor <= next
    requires k' == k.(tried := k'.tried, rq := k'.rq)
    ensures TableInv(i, open[fd := Conn(i, addr, next)], r.link, k')
  {
  }

  lemma OpenIsTold(open: map<int, Conn>, next: nat, i: int, k: Work, fd: int, addr: seq<Byte>, room: bool)
    requires ToldInv(open, next, i, k) && fd !in open && |addr| == ADDR_LEN
    ensures ToldInv(open[fd := Conn(i, addr, next)], next + 1, i, Tell(k, OpenMsg(i, fd, addr, next), room))
  {
    OpenFits(open, next, i, SeenAfter(All(k.tried)), fd, addr);
    TellRecord(i, k, OpenMsg(i, fd, addr, next), room);
  }

  lemma OpenFits(open: map<int, Conn>, next: nat, i: int, r: Seen, fd: int, addr: seq<Byte>)
    requires r.floor <= next && fd !in open && |addr| == ADDR_LEN
    requires forall f :: f in r.link <==> f in open && open[f].idx == i
    requires forall f :: f in r.link ==> r.link[f] == open[f]
    ensures Fits(i, r, OpenMsg(i, fd, addr, next))
    ensures var r', open' := See(r, OpenMsg(i, fd, addr, next)), open[fd := Conn(i, addr, next)];
      && r'.floor == next + 1
      && (forall f :: f in r'.link <==> f in open' && open'[f].idx == i)
      && (forall f :: f in r'.link ==> r'.link[f] == open'[f])
  {
  }

  lemma OpenIsCut(open: map<int, Conn>, next: nat, cut: map<nat, seq<Frame>>, i: int, k: Work, fd: int, addr: seq<Byte>, room: bool)
    requires ToldInv(open, next, i, k) && CutInv(open, cut, i, k) && fd !in open && |addr| == ADDR_LEN
    requires forall inc :: inc in cut ==> inc < next
    ensures CutInv(open[fd := Conn(i, addr, next)], cut, i, Tell(k, OpenMsg(i, fd, addr, next), room))
  {
    NextIsNew(open, next, i, k);
    OpenFits(open, next, i, SeenAfter(All(k.tried)), fd, addr);
    ControlFrames(i, k, OpenMsg(i, fd, addr, next), room);
  }

  lemma ConnectKeeps(s: Sys, l: int, fd: int, addr: seq<Byte>, room: bool)
    requires Inv(s) && l in s.listen && fd !in s.open && fd !in s.listen && |addr| == ADDR_LEN
    ensures Inv(Connect(s, l, fd, addr, room))
  {
    var s', i := Connect(s, l, fd, addr, room), s.listen[l];
    assert WorkInv(s, i);
    OpenIsSound(s.open, s.next, s.cut, i, s.works[i], fd, addr, room);
    ConnectAtMaster(s, l, fd, addr, room);
    Assemble(s, s', i, s'.works[i]);
  }

  lemma ConnectAtMaster(s: Sys, l: int, fd: int, addr: seq<Byte>, room: bool)
    requires Indexed(s) && MasterInv(s) && l in s.listen && fd !in s.open && fd !in s.listen
    ensures var s' := Connect(s, l, fd, addr, room);
      && Indexed(s') && MasterInv(s')
      && forall j :: j != s.listen[l] ==> SameFor(s.open, s.cut, s'.open, s'.cut, j)
  {
    var s' := Connect(s, l, fd, addr, room);
    OpenNumbers(s);
    forall f ensures FdInv(s', f) {
      assert FdInv(s, f);
    }
  }

  lemma CloseIsSound(open: map<int, Conn>, next: nat, cut: map<nat, seq<Frame>>, i: int, k: Work, fd: int, room: bool)
    requires Sound(open, next, cut, i, k) && fd in open && open[fd].idx == i
    ensures Sound(open - {fd}, next, cut, i, Tell(k, CloseMsg(i, fd, open[fd].inc), room))
  {
    var m := CloseMsg(i, fd, open[fd].inc);
    if k.misread == [] {
      CloseIsTable(i, open, SeenAfter(k.done).link, k, Tell(k, m, room), fd);
    }
    CloseIsTold(open, next, i, k, fd, room);
    CloseIsCut(open, cut, i, k, m, fd, room);
    TellIsElsewhere(next, next, k, m, room);
  }

  lemma CloseIsTable(i: int, open: map<int, Conn>, link: map<int, Conn>, k: Work, k': Work, fd: int)
    requires TableInv(i, open, link, k) && k' == k.(tried := k'.tried, rq := k'.rq)
    ensures TableInv(i, open - {fd}, link, k')
  {
  }

  lemma CloseIsTold(open: map<int, Conn>, next: nat, i: int, k: Work, fd: int, room: bool)
    requires ToldInv(open, next, i, k) && (fd in open ==> open[fd].idx == i)
    ensures ToldInv(open - {fd}, next, i, Tell(k, CloseMsg(i, fd, if fd in open then open[fd].inc else 0), room))
  {
    TellRecord(i, k, CloseMsg(i, fd, if fd in open then open[fd].inc else 0), room);
  }

  lemma CloseIsCut(open: map<int, Conn>, cut: map<nat, seq<Frame>>, i: int, k: Work, m: Msg, fd: int, room: bool)
    requires CutInv(open, cut, i, k) && m.blk.kind == BLK_CLOSE
    requires Kept(k.tried) == k.done + k.rq && Coherent(i, All(k.tried)) && Fits(i, SeenAfter(All(k.tried)), m)
    ensures CutInv(open - {fd}, cut, i, Tell(k, m, room))
  {
    ControlFrames(i, k, m, room);
  }

  /** An OPEN or CLOSE brings no message. */
  lemma ControlFrames(i: int, k: Work, m: Msg, room: bool)
    requires Kept(k.tried) == k.done + k.rq && Coherent(i, All(k.tried)) && Fits(i, SeenAfter(All(k.tried)), m)
    requires m.blk.kind != BLK_DATA
    ensures var k' := Tell(k, m, room); forall inc :: Frames(k'.done + k'.rq, inc) == Frames(k.done + k.rq, inc)
  {
    TellRecord(i, k, m, room);
    var k' := Tell(k, m, room);
    forall inc ensures Frames(k'.done + k'.rq, inc) == Frames(k.done + k.rq, inc) {
      assert Frames(k'.done + k'.rq, inc) == Frames(k.done + k.rq, inc) + [];
    }
  }

  lemma CloseListenerIsSound(open: map<int, Conn>, next: nat, cut: map<nat, seq<Frame>>, i: int, k: Work, l: int, room: bool)
    requires Sound(open, next, cut, i, k) && l !in open
    ensures Sound(open, next, cut, i, Tell(k, CloseMsg(i, l, 0), room))
  {
    var m := CloseMsg(i, l, 0);
    assert open - {l} == open;
    if k.misread == [] {
      CloseIsTable(i, open, SeenAfter(k.done).link, k, Tell(k, m, room), l);
    }
    CloseIsTold(open, next, i, k, l, room);
    CloseIsCut(open, cut, i, k, m, l, room);
    TellIsElsewhere(next, next, k, m, room);
  }

  lemma CloseListenerKeeps(s: Sys, l: int, room: bool)
    requires Inv(s) && l in s.listen
    ensures Inv(DoFdClose(s, l, room))
  {
    var s', i := DoFdClose(s, l, room), s.listen[l];
    assert WorkInv(s, i) && FdInv(s, l);
    CloseListenerIsSound(s.open, s.next, s.cut, i, s.works[i], l, room);
    CloseListenerAtMaster(s, s', l);
    Assemble(s, s', i, Tell(s.works[i], CloseMsg(i, l, 0), room));
  }

  lemma CloseListenerAtMaster(s: Sys, s': Sys, l: int)
    requires Indexed(s) && MasterInv(s) && l in s.listen
    requires s' == s.(works := s'.works, listen := s.listen - {l}) && |s'.works| == |s.works|
    ensures Indexed(s') && MasterInv(s')
    ensures forall j :: SameFor(s.open, s.cut, s'.open, s'.cut, j)
  {
    forall f ensures FdInv(s', f) {
      assert FdInv(s, f);
    }
  }

  lemma CloseClientKeeps(s: Sys, fd: int, room: bool)
    requires Inv(s) && fd !in s.listen && fd in s.open
    ensures Inv(DoFdClose(s, fd, room))
  {
    var s', c := DoFdClose(s, fd, room), s.open[fd];
    assert WorkInv(s, c.idx);
    CloseIsSound(s.open, s.next, s.cut, c.idx, s.works[c.idx], fd, room);
    CloseAtMaster(s, s', fd);
    Assemble(s, s', c.idx, Tell(s.works[c.idx], CloseMsg(c.idx, fd, c.inc), room));
  }

  lemma CloseAtMaster(s: Sys, s': Sys, fd: int)
    requires Indexed(s) && MasterInv(s) && fd in s.open
    requires s' == s.(works := s'.works, open := s.open - {fd}) && |s'.works| == |s.works|
    ensures Indexed(s') && MasterInv(s')
    ensures forall j :: j != s.open[fd].idx ==> SameFor(s.open, s.cut, s'.open, s'.cut, j)
  {
    forall f ensures FdInv(s', f) {
      assert FdInv(s, f);
    }
  }

  lemma CloseKeeps(s: Sys, fd: int, room: bool)
    requires Inv(s)
    ensures Inv(DoFdClose(s, fd, room)) && |DoFdClose(s, fd, room).works| == |s.works|
  {
    if fd in s.listen {
      CloseListenerKeeps(s, fd, room);
    } else if fd in s.open {
      CloseClientKeeps(s, fd, room);
    }
  }

  lemma CloseEffect(s: Sys, fd: int, room: bool)
    requires Indexed(s) && MasterInv(s)
    ensures var s' := DoFdClose(s, fd, room);
      && fd !in s'.open && |s'.works| == |s.works|
      && forall i :: 0 <= i < |s.works| ==> s'.works[i].sq == s.works[i].sq
  {
    assert FdInv(s, fd);
  }

  lemma OpenKeeps(s: Sys, l: int, fd: int, addr: seq<Byte>, room: bool, lroom: bool)
    requires Inv(s) && l in s.listen && fd !in s.open && fd !in s.listen && |addr| == ADDR_LEN
    ensures Inv(DoFdOpen(s, l, fd, addr, room, lroom))
  {
    ConnectKeeps(s, l, fd, addr, room);
    CloseKeeps(Connect(s, l, fd, addr, room), l, lroom);
  }

  lemma PushIsSound(open: map<int, Conn>, next: nat, cut: map<nat, seq<Frame>>, i: int, k: Work, fd: int, frame: Frame)
    requires Sound(open, next, cut, i, k) && fd in open && open[fd].idx == i
    requires forall f :: f in open && f != fd ==> open[f].inc != open[fd].inc
    ensures Sound(open, next, cut[open[fd].inc := Look(cut, open[fd].inc) + [frame]], i,
                  Tell(k, DataMsg(i, fd, frame, open[fd].inc), true))
  {
    var m := DataMsg(i, fd, frame, open[fd].inc);
    TellRecord(i, k, m, true);
    TellIsElsewhere(next, next, k, m, true);
    PushIsCut(open, cut, i, k, Tell(k, m, true), fd, frame);
  }

  lemma PushIsCut(open: map<int, Conn>, cut: map<nat, seq<Frame>>, i: int, k: Work, k': Work, fd: int, frame: Frame)
    requires CutInv(open, cut, i, k) && fd in open && open[fd].idx == i
    requires forall f :: f in open && f != fd ==> open[f].inc != open[fd].inc
    requires forall inc :: Frames(k'.done + k'.rq, inc) ==
               Frames(k.done + k.rq, inc) + (if open[fd].inc == inc then [frame] else [])
    ensures CutInv(open, cut[open[fd].inc := Look(cut, open[fd].inc) + [frame]], i, k')
  {
    var c := open[fd].inc;
    var cut' := cut[c := Look(cut, c) + [frame]];
    forall inc ensures Frames(k'.done + k'.rq, inc) <= Look(cut', inc) {
      assert Frames(k.done + k.rq, inc) <= Look(cut, inc);
      assert c == inc ==> Frames(k.done + k.rq, c) == Look(cut, c);
    }
    forall f | f in open && open[f].idx == i
      ensures Frames(k'.done + k'.rq, open[f].inc) == Look(cut', open[f].inc)
    {
      assert Frames(k.done + k.rq, open[f].inc) == Look(cut, open[f].inc);
      assert f != fd ==> Frames(k'.done + k'.rq, open[f].inc) == Frames(k.done + k.rq, open[f].inc) + [];
    }
  }

  /** A message that found no room leaves the queue as it is. */
  lemma LostDataIsSound(open: map<int, Conn>, next: nat, cut: map<nat, seq<Frame>>, i: int, k: Work, fd: int, frame: Frame)
    requires Sound(open, next, cut, i, k) && fd in open && open[fd].idx == i
    ensures Sound(open, next, cut, i, Tell(k, DataMsg(i, fd, frame, open[fd].inc), false))
  {
    var m := DataMsg(i, fd, frame, open[fd].inc);
    TellRecord(i, k, m, false);
    TellIsElsewhere(next, next, k, m, false);
  }

  lemma PushKeeps(s: Sys, fd: int, frame: Frame, croom: bool)
    requires Inv(s) && fd in s.open
    ensures Inv(PushFrame(s, fd, frame, true, croom))
  {
    var s', i := PushFrame(s, fd, frame, true, croom), s.open[fd].idx;
    assert WorkInv(s, i) && FdInv(s, fd);
    PushIsSound(s.open, s.next, s.cut, i, s.works[i], fd, frame);
    PushAtMaster(s, s', fd, frame);
    Assemble(s, s', i, s'.works[i]);
  }

  lemma PushAtMaster(s: Sys, s': Sys, fd: int, frame: Frame)
    requires Indexed(s) && MasterInv(s) && fd in s.open
    requires s' == s.(works := s'.works, cut := s.cut[s.open[fd].inc := Look(s.cut, s.open[fd].inc) + [frame]])
    requires |s'.works| == |s.works|
    ensures Indexed(s') && MasterInv(s')
    ensures forall j :: j != s.open[fd].idx ==> SameFor(s.open, s.cut, s'.open, s'.cut, j)
  {
    forall f ensures FdInv(s', f) {
      assert FdInv(s, f);
    }
    assert FdInv(s, fd);
  }

  lemma LostDataKeeps(s: Sys, fd: int, frame: Frame)
    requires Inv(s) && fd in s.open
    ensures Inv(LostData(s, fd, frame))
  {
    var c := s.open[fd];
    assert WorkInv(s, c.idx);
    LostDataIsSound(s.open, s.next, s.cut, c.idx, s.works[c.idx], fd, frame);
    ReplaceWorker(s, c.idx, Tell(s.works[c.idx], DataMsg(c.idx, fd, frame, c.inc), false));
  }

  /** A message that was cut but not pushed: its connection is closed next. */
  lemma CutOnlyKeeps(s: Sys, fd: int, frame: Frame, croom: bool)
    requires Inv(s) && fd in s.open
    ensures Inv(PushFrame(s, fd, frame, false, croom))
  {
    var c, s1 := s.open[fd], LostData(s, fd, frame);
    LostDataKeeps(s, fd, frame);
    CloseKeeps(s1, fd, croom);
    ClosedIsGone(s1, fd, croom);
    CutClosedKeeps(DoFdClose(s1, fd, croom), c.inc, frame);
    CutOnlyInTwo(s, fd, frame, croom);
  }

  lemma ClosedIsGone(s: Sys, fd: int, room: bool)
    requires Indexed(s) && MasterInv(s) && fd in s.open
    ensures var s', inc := DoFdClose(s, fd, room), s.open[fd].inc;
      && inc < s'.next && s'.cut == s.cut && forall f :: f in s'.open ==> s'.open[f].inc != inc
  {
    assert FdInv(s, fd);
  }

  lemma CutOnlyInTwo(s: Sys, fd: int, frame: Frame, croom: bool)
    requires Indexed(s) && fd in s.open
    ensures var s1, inc := DoFdClose(LostData(s, fd, frame), fd, croom), s.open[fd].inc;
      PushFrame(s, fd, frame, false, croom) == s1.(cut := s.cut[inc := Look(s.cut, inc) + [frame]])
  {
  }

  lemma CutClosedKeeps(s: Sys, inc: nat, frame: Frame)
    requires Inv(s) && inc < s.next && forall fd :: fd in s.open ==> s.open[fd].inc != inc
    ensures Inv(s.(cut := s.cut[inc := Look(s.cut, inc) + [frame]]))
  {
    var s' := s.(cut := s.cut[inc := Look(s.cut, inc) + [frame]]);
    forall j ensures SameFor(s.open, s.cut, s'.open, s'.cut, j) {
    }
    forall fd ensures FdInv(s', fd) {
      assert FdInv(s, fd);
    }
    forall j | 0 <= j < |s'.works| ensures WorkInv(s', j) {
      assert WorkInv(s, j);
      Elsewhere(s, s', j);
    }
  }

  lemma HasPastFirst(sq: seq<Msg>, fd: int, inc: nat)
    requires Has(sq, BLK_CLOSE, fd, inc)
    requires sq[0].blk.kind == BLK_CLOSE ==> sq[0].blk.fd != fd
    ensures Has(sq[1..], BLK_CLOSE, fd, inc)
  {
    var j :| 0 <= j < |sq| && sq[j].blk.kind == BLK_CLOSE && sq[j].blk.fd == fd && sq[j].inc == inc;
    assert sq[1..][j - 1] == sq[j];
  }

  lemma PopSqTable(i: int, open: map<int, Conn>, link: map<int, Conn>, k: Work)
    requires TableInv(i, open, link, k) && k.sq != []
    requires k.sq[0].blk.kind == BLK_CLOSE ==> k.sq[0].blk.fd !in open
    ensures TableInv(i, open, link, k.(sq := k.sq[1..]))
  {
    forall fd | fd in link && fd !in k.table && fd in open && open[fd] == link[fd] && link[fd].inc !in k.unsaid
      ensures Has(k.sq[1..], BLK_CLOSE, fd, link[fd].inc)
    {
      HasPastFirst(k.sq, fd, link[fd].inc);
    }
  }

  lemma PopSqEnds(k: Work)
    requires EndsInv(k) && k.sq != []
    ensures EndsInv(k.(sq := k.sq[1..]))
  {
  }

  /** Taking a block off a send queue, when a CLOSE among them has been obeyed. */
  lemma PopSqIsSound(open: map<int, Conn>, next: nat, cut: map<nat, seq<Frame>>, i: int, k: Work)
    requires Sound(open, next, cut, i, k) && k.sq != []
    requires k.sq[0].blk.kind == BLK_CLOSE ==> k.sq[0].blk.fd !in open
    ensures Sound(open, next, cut, i, k.(sq := k.sq[1..]))
  {
    if k.misread == [] {
      PopSqTable(i, open, SeenAfter(k.done).link, k);
    }
    PopSqEnds(k);
    SameRecord(open, next, cut, i, k, k.(sq := k.sq[1..]));
  }

  lemma PopSqKeeps(s: Sys, i: int)
    requires Inv(s) && 0 <= i < |s.works| && s.works[i].sq != []
    requires var b := s.works[i].sq[0].blk; b.kind == BLK_CLOSE ==> b.fd !in s.open
    ensures Inv(s.(works := s.works[i := s.works[i].(sq := s.works[i].sq[1..])]))
  {
    assert WorkInv(s, i);
    PopSqIsSound(s.open, s.next, s.cut, i, s.works[i]);
    ReplaceWorker(s, i, s.works[i].(sq := s.works[i].sq[1..]));
  }

  lemma SendTurnKeeps(s: Sys, i: int, broken: bool, room: bool)
    requires Inv(s) && Can(s, TurnSend(i, broken, room))
    ensures Inv(SendTurn(s, i, broken, room))
  {
    var b := s.works[i].sq[0].blk;
    if b.kind == BLK_CLOSE || broken {
      CloseKeeps(s, b.fd, room);
      CloseEffect(s, b.fd, room);
      PopSqKeeps(DoFdClose(s, b.fd, room), i);
    } else {
      PopSqKeeps(s, i);
    }
  }

  // ------------------------------------------------------------------- steps of a worker

  /** A worker's step that leaves the record of pushes alone. */
  lemma SameRecord(open: map<int, Conn>, next: nat, cut: map<nat, seq<Frame>>, i: int, k: Work, k': Work)
    requires ToldInv(open, next, i, k) && CutInv(open, cut, i, k)
    requires k'.tried == k.tried && k'.done + k'.rq == k.done + k.rq
    ensures ToldInv(open, next, i, k') && CutInv(open, cut, i, k')
  {
  }

  lemma SendIsSound(open: map<int, Conn>, next: nat, cut: map<nat, seq<Frame>>, i: int, k: Work, m: Msg, room: bool)
    requires Sound(open, next, cut, i, k) && (m.blk.kind != BLK_CLOSE || k.wrecked)
    ensures Sound(open, next, cut, i, PushSq(k, m, room))
  {
    HasMore(k.sq, m);
  }

  lemma NoRepeatsMore(s: seq<nat>, x: nat)
    requires NoRepeats(s) && x !in s
    ensures NoRepeats(s + [x])
  {
  }

  /** do_blk_close on the counts: one session less, one callback more. */
  lemma CallsAfterClose(floor: nat, k: Work, fd: int)
    requires CallsInv(floor, k) && fd in k.table
    ensures var k' := DoBlkClose(k, fd);
      && CallsInv(floor, k')
      && forall inc :: inc in k'.calls <==> inc in k.calls || inc == k.table[fd].inc
  {
    var k', inc := DoBlkClose(k, fd), k.table[fd].inc;
    assert k'.table.Keys == k.table.Keys - {fd};
    assert |k'.table.Keys| == |k'.table| && |k.table.Keys| == |k.table|;
    NoRepeatsMore(k.calls, inc);
  }

  /** What close_cli does to the send queue and the record of ends. */
  lemma CloseCliEnds(k: Work, fd: int, room: bool)
    requires EndsInv(k) && fd in k.table && k.table[fd].inc !in k.calls
    ensures var k', c := CloseCli(k, fd, room), k.table[fd];
      && EndsInv(k')
      && (c.inc in k'.calls && (Has(k'.sq, BLK_CLOSE, fd, c.inc) || c.inc in k'.unsaid))
      && (forall f, inc :: Has(k.sq, BLK_CLOSE, f, inc) ==> Has(k'.sq, BLK_CLOSE, f, inc))
      && (forall inc :: inc in k.unsaid ==> inc in k'.unsaid) && (forall inc :: inc in k.calls ==> inc in k'.calls)
  {
    var c := k.table[fd];
    HasMore(k.sq, CloseMsg(c.idx, fd, c.inc));
  }

  lemma CloseCliTable(i: int, open: map<int, Conn>, link: map<int, Conn>, k: Work, fd: int, room: bool)
    requires TableInv(i, open, link, k) && EndsInv(k) && fd in k.table && k.table[fd].inc !in k.calls
    ensures TableInv(i, open, link, CloseCli(k, fd, room))
  {
    CloseCliEnds(k, fd, room);
  }

  /** close_cli: the session goes, and its CLOSE is in the send queue or known to be lost. */
  lemma CloseCliIsSound(open: map<int, Conn>, next: nat, cut: map<nat, seq<Frame>>, i: int, k: Work, fd: int, room: bool)
    requires Sound(open, next, cut, i, k)
    ensures Sound(open, next, cut, i, CloseCli(k, fd, room))
  {
    if fd in k.table {
      var k' := CloseCli(k, fd, room);
      CloseCliEnds(k, fd, room);
      CallsAfterClose(if k.misread == [] then SeenAfter(k.done).floor else next, k, fd);
      if k.misread == [] {
        CloseCliTable(i, open, SeenAfter(k.done).link, k, fd, room);
      }
      SameRecord(open, next, cut, i, k, k');
    }
  }

  /** What is known of the block m at the front of k's receive queue: b is what had been tried
      when it was pushed. */
  ghost predicate AtFront(i: int, k: Work, m: Msg, b: seq<Try>) {
    && k.rq != [] && m == k.rq[0] && b == Before(k.tried, |k.done|) && Kept(b) == k.done
    && Coherent(i, All(b)) && Fits(i, SeenAfter(All(b)), m)
    && (k.done + [m]) + k.rq[1..] == k.done + k.rq
  }

  lemma FrontIsReady(open: map<int, Conn>, next: nat, i: int, k: Work)
    requires ToldInv(open, next, i, k) && k.rq != []
    ensures AtFront(i, k, k.rq[0], Before(k.tried, |k.done|))
  {
    DoneFacts(open, next, i, k);
    BeforeIsThen(i, k.tried, |k.done|);
    assert (k.done + k.rq)[|k.done|] == k.rq[0];
  }

  /** The block at the front is right for the session on its descriptor, c, exactly if the CLOSE
      of c had not been lost when the block was pushed. An OPEN is right if there is none. */
  lemma FrontIsRight(i: int, link: map<int, Conn>, k: Work, m: Msg, b: seq<Try>)
    requires AtFront(i, k, m, b) && SeenAfter(k.done).link == link && m.blk.fd in k.table
    requires m.blk.fd in link && k.table[m.blk.fd] == link[m.blk.fd]
    ensures var c := k.table[m.blk.fd].inc;
      && 1 <= c
      && (m.blk.kind != BLK_OPEN && m.inc == c <==> !LostClose(b, m.blk.fd, c))
  {
    LinksAreDistinct(i, b);
    LinksDifferByLosses(i, b);
    ClosedOnce(i, b);
  }

  /** One session can have the front block's connection: the one on its descriptor. */
  lemma FrontIsFor(i: int, k: Work, m: Msg, b: seq<Try>, fd: int)
    requires AtFront(i, k, m, b) && m.blk.kind == BLK_DATA && fd in SeenAfter(k.done).link
    requires SeenAfter(k.done).link[fd].inc == m.inc
    ensures fd == m.blk.fd
  {
    LinksAreDistinct(i, b);
    LinksDifferByLosses(i, b);
    ClosedOnce(i, b);
  }

  lemma MetMore(k: Work, k': Work, m: Msg, c: nat)
    requires MetInv(k) && k.rq != [] && m == k.rq[0] && |k.done| < |Kept(k.tried)|
    requires k'.tried == k.tried && k'.done == k.done + [m] && k'.met == k.met + [c]
    requires c != 0 ==> Met(Before(k.tried, |k.done|), m, c)
    ensures MetInv(k')
  {
  }

  lemma OpenedStays(k: Work, k': Work, m: Msg)
    requires OpensInv(k) && k'.done == k.done + [m]
    requires forall inc :: inc in k'.opens ==> inc in k.opens || (m.blk.kind == BLK_OPEN && m.inc == inc)
    ensures OpensInv(k')
  {
    forall inc | inc in k'.opens ensures Opened(k'.done, inc) {
      OpenedMore(k.done, m, inc);
    }
  }

  lemma OpenedTable(i: int, open: map<int, Conn>, r: Seen, k: Work, m: Msg)
    requires TableInv(i, open, r.link, k) && m.blk.id == i && m.blk.kind == BLK_OPEN && DoBlkOpen(k, m).0
    ensures TableInv(i, open, See(r, m).link, DoBlkOpen(k, m).1)
  {
  }

  lemma OpenedCalls(r: Seen, k: Work, m: Msg)
    requires CallsInv(r.floor, k) && r.floor <= m.inc && m.blk.kind == BLK_OPEN && DoBlkOpen(k, m).0
    ensures CallsInv(See(r, m).floor, DoBlkOpen(k, m).1)
  {
    var k' := DoBlkOpen(k, m).1;
    assert k'.table.Keys == k.table.Keys + {m.blk.fd};
    assert |k'.table.Keys| == |k'.table| && |k.table.Keys| == |k.table|;
    assert m.inc !in k.opens;
    NoRepeatsMore(k.opens, m.inc);
  }

  lemma OpenedHanded(k: Work, k': Work, m: Msg)
    requires |k.met| == |k.done| && HandedInv(k) && k.misread == [] && m.blk.kind == BLK_OPEN && DoBlkOpen(k, m).0
    requires k'.table == DoBlkOpen(k, m).1.table && k'.done == k.done + [m] && k'.met == k.met + [0]
    requires Frames(k.done, m.inc) == []
    ensures HandedInv(k')
  {
    OneMore(0, k.done, m);
    HandedMore(k.done, k.met, m, 0);
    assert HandedOwn(k.done, k.met, m.inc) <= Frames(k.done, m.inc);
  }

  /** do_blk_open, when there is no session: it adds the one that the master has opened. */
  lemma OpenedIsSound(open: map<int, Conn>, next: nat, cut: map<nat, seq<Frame>>, i: int, k: Work, m: Msg, b: seq<Try>)
    requires Sound(open, next, cut, i, k) && !k.wrecked && AtFront(i, k, m, b) && m.blk.kind == BLK_OPEN && m.blk.fd !in k.table
    ensures DoBlkOpen(k, m).0 && Sound(open, next, cut, i, PopRq(DoBlkOpen(k, m).1, 0))
  {
    var r, k' := SeenAfter(k.done), PopRq(DoBlkOpen(k, m).1, 0);
    LinksAreDistinct(i, b);
    OneMore(i, k.done, m);
    OpenedTable(i, open, r, k, m);
    OpenedCalls(r, k, m);
    OpenedStays(k, k', m);
    MetMore(k, k', m, 0);
    NoEarlyFrames(i, b);
    OpenedHanded(k, k', m);
    SameRecord(open, next, cut, i, k, k');
  }

  lemma ClosedTable(i: int, open: map<int, Conn>, r: Seen, k: Work, m: Msg)
    requires TableInv(i, open, r.link, k) && CallsInv(r.floor, k) && m.blk.kind == BLK_CLOSE
    ensures var k' := DoBlkClose(k, m.blk.fd);
      && TableInv(i, open, See(r, m).link, k') && CallsInv(r.floor, k')
      && forall inc :: inc in k.calls ==> inc in k'.calls
  {
    if m.blk.fd in k.table {
      CallsAfterClose(r.floor, k, m.blk.fd);
    }
  }

  /** A block that brings no message leaves what has been handed over as it is. */
  lemma ControlHands(k: Work, k': Work, m: Msg, c: nat)
    requires |k.met| == |k.done| && HandedInv(k) && k.misread == [] && m.blk.kind != BLK_DATA
    requires k'.done == k.done + [m] && k'.met == k.met + [c]
    requires forall fd :: fd in k'.table ==> fd in k.table && k'.table[fd] == k.table[fd]
    ensures HandedInv(k')
  {
    OneMore(0, k.done, m);
    HandedMore(k.done, k.met, m, c);
  }

  /** do_blk_close ends the session on the block's descriptor, if any. */
  lemma ClosedIsSound(open: map<int, Conn>, next: nat, cut: map<nat, seq<Frame>>, i: int, k: Work, m: Msg, b: seq<Try>)
    requires Sound(open, next, cut, i, k) && !k.wrecked && AtFront(i, k, m, b) && m.blk.kind == BLK_CLOSE
    ensures Sound(open, next, cut, i, PopRq(DoBlkClose(k, m.blk.fd), SessionOn(k.table, m.blk.fd)))
  {
    var r, c := SeenAfter(k.done), SessionOn(k.table, m.blk.fd);
    var k' := PopRq(DoBlkClose(k, m.blk.fd), c);
    LinksAreDistinct(i, b);
    OneMore(i, k.done, m);
    ClosedTable(i, open, r, k, m);
    OpenedStays(k, k', m);
    if m.blk.fd in k.table {
      FrontIsRight(i, r.link, k, m, b);
    }
    MetMore(k, k', m, c);
    ControlHands(k, k', m, c);
    SameRecord(open, next, cut, i, k, k');
  }

  lemma DataHands(i: int, k: Work, m: Msg, b: seq<Try>)
    requires MetInv(k) && HandedInv(k) && k.misread == [] && AtFront(i, k, m, b) && m.blk.kind == BLK_DATA
    requires forall fd :: fd in k.table ==> fd in SeenAfter(k.done).link && k.table[fd] == SeenAfter(k.done).link[fd]
    ensures HandedInv(PopRq(k, SessionOn(k.table, m.blk.fd)))
  {
    var c := SessionOn(k.table, m.blk.fd);
    var k' := PopRq(k, c);
    OneMore(0, k.done, m);
    HandedMore(k.done, k.met, m, c);
    LinksAreDistinct(i, b);
    assert 1 <= m.inc;
    forall inc: nat ensures HandedOwn(k'.done, k'.met, inc) <= Frames(k'.done, inc) {
      assert HandedOwn(k.done, k.met, inc) <= Frames(k.done, inc);
      if c == inc == m.inc {
        assert HandedOwn(k.done, k.met, inc) == Frames(k.done, inc);
      }
    }
    forall fd | fd in k'.table
      ensures HandedOwn(k'.done, k'.met, k'.table[fd].inc) == Frames(k'.done, k'.table[fd].inc)
    {
      if k.table[fd].inc == m.inc {
        FrontIsFor(i, k, m, b, fd);
      }
    }
  }

  /** do_blk_msg hands the message to the session on its descriptor, or to none. */
  lemma HandedIsSound(open: map<int, Conn>, next: nat, cut: map<nat, seq<Frame>>, i: int, k: Work, m: Msg, b: seq<Try>)
    requires Sound(open, next, cut, i, k) && !k.wrecked && AtFront(i, k, m, b) && m.blk.kind == BLK_DATA
    ensures Sound(open, next, cut, i, PopRq(k, SessionOn(k.table, m.blk.fd)))
  {
    var r, c := SeenAfter(k.done), SessionOn(k.table, m.blk.fd);
    var k' := PopRq(k, c);
    OneMore(i, k.done, m);
    OpenedStays(k, k', m);
    if m.blk.fd in k.table {
      FrontIsRight(i, r.link, k, m, b);
    }
    MetMore(k, k', m, c);
    DataHands(i, k, m, b);
    SameRecord(open, next, cut, i, k, k');
  }

  /** An OPEN that is refused: a CLOSE had been lost before. */
  lemma RefusedIsSound(open: map<int, Conn>, next: nat, cut: map<nat, seq<Frame>>, i: int, k: Work, m: Msg, b: seq<Try>, room: bool)
    requires Sound(open, next, cut, i, k) && !k.wrecked && AtFront(i, k, m, b) && m.blk.kind == BLK_OPEN && m.blk.fd in k.table
    ensures Sound(open, next, cut, i, Refuse(k, m, room))
  {
    var k1, c := k.(wrecked := true), k.table[m.blk.fd].inc;
    assert SomeCloseLost(k.tried) by {
      FrontIsRight(i, SeenAfter(k.done).link, k, m, b);
      LostBefore(k.tried, |k.done|, m.blk.fd, c);
    }
    SameRecord(open, next, cut, i, k, k1);
    assert OwnInv(next, k1) && TableInv(i, open, SeenAfter(k1.done).link, k1);
    SendIsSound(open, next, cut, i, k1, CloseMsg(m.blk.id, m.blk.fd, m.inc), room);
    assert Refuse(k, m, room) == PushSq(k1, CloseMsg(m.blk.id, m.blk.fd, m.inc), room);
  }

  // ---------------------------------------------------------------- inside a block

  lemma LaterNumber(open: map<int, Conn>, next: nat, cut: map<nat, seq<Frame>>, i: int, k: Work)
    requires Sound(open, next, cut, i, k)
    ensures Sound(open, next + 1, cut, i, k)
  {
  }

  lemma MisopenedCalls(next: nat, k: Work, b: Block)
    requires CallsInv(next, k) && DoBlkOpen(k, Msg(b, next)).0
    ensures CallsInv(next + 1, DoBlkOpen(k, Msg(b, next)).1)
  {
    var k' := DoBlkOpen(k, Msg(b, next)).1;
    assert k'.table.Keys == k.table.Keys + {b.fd};
    assert |k'.table.Keys| == |k'.table| && |k.table.Keys| == |k.table|;
    assert next !in k.opens;
    NoRepeatsMore(k.opens, next);
  }

  lemma MisopenedIsSound(open: map<int, Conn>, next: nat, cut: map<nat, seq<Frame>>, i: int, k: Work, b: Block)
    requires Sound(open, next, cut, i, k) && k.misread != [] && DoBlkOpen(k, Msg(b, next)).0
    ensures Sound(open, next + 1, cut, i, DoBlkOpen(k, Msg(b, next)).1)
  {
    MisopenedCalls(next, k, b);
    LaterNumber(open, next, cut, i, k);
    SameRecord(open, next + 1, cut, i, k, DoBlkOpen(k, Msg(b, next)).1);
  }

  lemma MisclosedIsSound(open: map<int, Conn>, next: nat, cut: map<nat, seq<Frame>>, i: int, k: Work, fd: int)
    requires Sound(open, next, cut, i, k) && k.misread != []
    ensures Sound(open, next, cut, i, DoBlkClose(k, fd))
  {
    if fd in k.table {
      CallsAfterClose(next, k, fd);
      SameRecord(open, next, cut, i, k, DoBlkClose(k, fd));
    }
  }

  lemma MisreadRecorded(open: map<int, Conn>, next: nat, cut: map<nat, seq<Frame>>, i: int, k: Work, b: Block, c: nat)
    requires Sound(open, next, cut, i, k) && k.wrecked
    ensures Sound(open, next, cut, i, k.(misread := k.misread + [b], misled := k.misled + [c]))
  {
    var k1 := k.(misread := k.misread + [b], misled := k.misled + [c]);
    SameRecord(open, next, cut, i, k, k1);
    DoneFacts(open, next, i, k);
    assert CallsInv(next, k1);
  }

  /** Whatever a wrecked worker takes for a block, the record of pushes and of what was read before
      stays, and so does the account of sessions. */
  lemma MisreadIsSound(open: map<int, Conn>, next: nat, cut: map<nat, seq<Frame>>, i: int, k: Work, b: Block, finish: bool, room: bool)
    requires Sound(open, next, cut, i, k) && k.wrecked
    ensures Sound(open, next + 1, cut, i, Misread(k, b, finish, room, next))
  {
    var c := if b.kind == BLK_OPEN then 0 else SessionOn(k.table, b.fd);
    var k1 := k.(misread := k.misread + [b], misled := k.misled + [c]);
    MisreadRecorded(open, next, cut, i, k, b, c);
    LaterNumber(open, next, cut, i, k1);
    if b.kind == BLK_DATA {
      CloseCliIsSound(open, next + 1, cut, i, k1, b.fd, room);
    } else if b.kind == BLK_OPEN {
      if DoBlkOpen(k1, Msg(b, next)).0 {
        MisopenedIsSound(open, next, cut, i, k1, b);
      } else {
        SendIsSound(open, next + 1, cut, i, k1, CloseMsg(b.id, b.fd, 0), room);
        assert Refuse(k1, Msg(b, 0), room) == PushSq(k1, CloseMsg(b.id, b.fd, 0), room);
      }
    } else if b.kind == BLK_CLOSE {
      MisclosedIsSound(open, next + 1, cut, i, k1, b.fd);
    }
  }

  lemma MisreadKeeps(s: Sys, i: int, b: Block, finish: bool, room: bool)
    requires Inv(s) && Can(s, TurnMisread(i, b, finish, room))
    ensures Inv(Step(s, TurnMisread(i, b, finish, room)))
  {
    MisreadStep(s, i, b, finish, room);
    MisreadWorks(s, i, b, finish, room);
    ReplaceAndNumber(s, i, Misread(s.works[i], b, finish, room, s.next));
  }

  lemma MisreadStep(s: Sys, i: int, b: Block, finish: bool, room: bool)
    requires Indexed(s) && Can(s, TurnMisread(i, b, finish, room))
    ensures Step(s, TurnMisread(i, b, finish, room))
         == s.(works := s.works[i := Misread(s.works[i], b, finish, room, s.next)], next := s.next + 1)
  {
  }

  lemma MisreadWorks(s: Sys, i: int, b: Block, finish: bool, room: bool)
    requires Inv(s) && 0 <= i < |s.works| && s.works[i].wrecked
    ensures Sound(s.open, s.next + 1, s.cut, i, Misread(s.works[i], b, finish, room, s.next))
  {
    assert WorkInv(s, i);
    MisreadIsSound(s.open, s.next, s.cut, i, s.works[i], b, finish, room);
  }

  lemma RecvTurnIsSound(open: map<int, Conn>, next: nat, cut: map<nat, seq<Frame>>, i: int, k: Work, finish: bool, room: bool)
    requires Sound(open, next, cut, i, k) && !k.wrecked && k.rq != []
    ensures Sound(open, next, cut, i, RecvTurn(k, finish, room))
  {
    var m, b := k.rq[0], Before(k.tried, |k.done|);
    FrontIsReady(open, next, i, k);
    if m.blk.kind == BLK_DATA {
      HandedIsSound(open, next, cut, i, k, m, b);
      CloseCliIsSound(open, next, cut, i, PopRq(k, SessionOn(k.table, m.blk.fd)), m.blk.fd, room);
    } else if m.blk.kind == BLK_OPEN {
      if m.blk.fd in k.table {
        RefusedIsSound(open, next, cut, i, k, m, b, room);
      } else {
        OpenedIsSound(open, next, cut, i, k, m, b);
      }
    } else {
      ClosedIsSound(open, next, cut, i, k, m, b);
    }
  }

  lemma RecvTurnKeeps(s: Sys, i: int, finish: bool, room: bool)
    requires Inv(s) && Can(s, TurnRecv(i, finish, room))
    ensures Inv(Step(s, TurnRecv(i, finish, room)))
  {
    assert WorkInv(s, i);
    RecvTurnIsSound(s.open, s.next, s.cut, i, s.works[i], finish, room);
    ReplaceWorker(s, i, RecvTurn(s.works[i], finish, room));
  }

  lemma CloseCliKeeps(s: Sys, i: int, fd: int, room: bool)
    requires Inv(s) && Can(s, EndSession(i, fd, room))
    ensures Inv(Step(s, EndSession(i, fd, room)))
  {
    assert WorkInv(s, i);
    CloseCliIsSound(s.open, s.next, s.cut, i, s.works[i], fd, room);
    ReplaceWorker(s, i, CloseCli(s.works[i], fd, room));
  }

  lemma SendKeeps(s: Sys, i: int, fd: int, frame: Frame, room: bool)
    requires Inv(s) && Can(s, Send(i, fd, frame, room))
    ensures Inv(Step(s, Send(i, fd, frame, room)))
  {
    var k := s.works[i];
    assert WorkInv(s, i);
    SendIsSound(s.open, s.next, s.cut, i, k, DataMsg(k.table[fd].idx, fd, frame, k.table[fd].inc), room);
    ReplaceWorker(s, i, SendToCli(k, fd, frame, room));
  }

  lemma StepKeeps(s: Sys, a: Act)
    requires Inv(s)
    ensures Inv(Step(s, a))
  {
    if Can(s, a) {
      match a {
        case Accept(l, fd, addr, room, lroom) => OpenKeeps(s, l, fd, addr, room, lroom);
        case HangUp(fd, room) => CloseKeeps(s, fd, room);
        case CutFrame(fd, frame, room, croom) =>
          if room {
            PushKeeps(s, fd, frame, croom);
          } else {
            CutOnlyKeeps(s, fd, frame, croom);
          }
        case TurnSend(i, broken, room) => SendTurnKeeps(s, i, broken, room);
        case TurnRecv(i, finish, room) => RecvTurnKeeps(s, i, finish, room);
        case TurnMisread(i, b, finish, room) => MisreadKeeps(s, i, b, finish, room);
        case EndSession(i, fd, room) => CloseCliKeeps(s, i, fd, room);
        case Send(i, fd, frame, room) => SendKeeps(s, i, fd, frame, room);
      }
    }
  }

  lemma InitInv(workers: nat, listen: map<int, int>)
    requires forall l :: l in listen ==> 0 <= listen[l] < workers
    ensures Inv(Init(workers, listen))
  {
    var s := Init(workers, listen);
    assert SeenAfter([]) == Seen(map[], 1) && All([]) == [];
    forall i | 0 <= i < workers ensures WorkInv(s, i) {
      assert s.works[i] == NewWork();
    }
    forall fd ensures FdInv(s, fd) {
    }
  }

  /** A run: any sequence of actions of the clients, the master, the workers and their
      application code, in which any pushes may fail. */
  ghost function Run(s: Sys, acts: seq<Act>): Sys
    requires Inv(s)
    ensures Inv(Run(s, acts))
    decreases |acts|
  {
    if acts == [] then s
    else
      StepKeeps(s, acts[0]);
      Run(Step(s, acts[0]), acts[1..])
  }

  lemma {:induction false} RunMore(s: Sys, acts: seq<Act>, a: Act)
    requires Inv(s)
    ensures Run(s, acts + [a]) == Step(Run(s, acts), a)
    decreases |acts|
  {
    if acts == [] {
      assert acts + [a] == [a];
      StepKeeps(s, a);
    } else {
      StepKeeps(s, acts[0]);
      assert (acts + [a])[0] == acts[0] && (acts + [a])[1..] == acts[1..] + [a];
      RunMore(Step(s, acts[0]), acts[1..], a);
    }
  }

  /** A number of workers, and listening descriptors that each belong to one of them. */
  predicate Setup(workers: nat, listen: map<int, int>) {
    forall l :: l in listen ==> 0 <= listen[l] < workers
  }

  ghost function Reached(workers: nat, listen: map<int, int>, acts: seq<Act>): (s: Sys)
    requires Setup(workers, listen)
    ensures Inv(s)
    ensures forall i :: 0 <= i < |s.works| ==> |s.works[i].met| == |s.works[i].done|
    ensures forall i :: 0 <= i < |s.works| ==> |s.works[i].misled| == |s.works[i].misread|
  {
    InitInv(workers, listen);
    var s := Run(Init(workers, listen), acts);
    assert forall i :: 0 <= i < |s.works| ==> WorkInv(s, i) ==> |s.works[i].met| == |s.works[i].done|;
    assert forall i :: 0 <= i < |s.works| ==> WorkInv(s, i) ==> |s.works[i].misled| == |s.works[i].misread|;
    s
  }
}
