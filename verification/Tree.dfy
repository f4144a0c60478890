// What holds of the process table in every run of the dispatcher.
module Tree {
  import opened Words
  import opened Process

  // ---- the invariant ----

  predicate FatherOk(s: Sys, f: nat) {
    f == 1 || exists j | 0 <= j < |s.slots| :: Alive(s, j) && s.slots[j].value.pid == f
  }

  // A blocked call waits for something that can happen.
  predicate BlockOk(p: Proc) {
    && (p.state.Interruptible? <==> !p.blocked.NotBlocked?)
    && match p.blocked
       case OnRead(buf, count) => count > 0 && UserRange(buf, count)
       case OnWait(child, status) => (child == -1 || child > 0) && (status != 0 ==> UserRange(status, 4))
       case NotBlocked => true
  }

  predicate ProcOk(s: Sys, i: nat)
    requires i < |s.slots| && s.slots[i].Some?
  {
    var p := s.slots[i].value;
    && 1 <= p.pid <= s.nextPid && (p.pid == 1 <==> i == 1) && BlockOk(p)
    && (i == 1 ==> p.father == 0)
    && (i != 1 ==> 1 <= p.father < p.pid && FatherOk(s, p.father))
  }

  predicate Distinct(s: Sys, i: nat, j: nat)
    requires i < |s.slots| && j < |s.slots|
  {
    s.slots[i].Some? && s.slots[j].Some? && i != j ==> s.slots[i].value.pid != s.slots[j].value.pid
  }

  // Pids are distinct, a father is older and not a zombie unless it is init,
  // and exactly the blocked processes are interruptible.
  ghost predicate Good(s: Sys) {
    && Shaped(s) && RingOk(s.tty) && s.slots[1].Some?
    && (forall i | 0 <= i < 9 && s.slots[i].Some? :: ProcOk(s, i))
    && (forall i, j | 0 <= i < 9 && 0 <= j < 9 :: Distinct(s, i, j))
  }

  // The same processes, as far as the tree is concerned.
  predicate SameProc(a: Option<Proc>, b: Option<Proc>) {
    && (a.Some? <==> b.Some?)
    && (a.Some? ==> a.value.pid == b.value.pid && a.value.father == b.value.father
                    && a.value.state == b.value.state && a.value.blocked == b.value.blocked)
  }

  ghost predicate SameTree(s: Sys, t: Sys) {
    && |s.slots| == |t.slots| && s.nextPid == t.nextPid
    && forall i | 0 <= i < |s.slots| :: SameProc(s.slots[i], t.slots[i])
  }

  lemma SameFather(s: Sys, t: Sys, f: nat)
    requires SameTree(s, t) && FatherOk(s, f)
    ensures FatherOk(t, f)
  {
    if f != 1 {
      var j :| 0 <= j < |s.slots| && Alive(s, j) && s.slots[j].value.pid == f;
      assert SameProc(s.slots[j], t.slots[j]);
      assert Alive(t, j);
    }
  }

  lemma SameTreeGood(s: Sys, t: Sys)
    requires Good(s) && SameTree(s, t) && Shaped(t) && RingOk(t.tty)
    ensures Good(t)
  {
    hide FatherOk, BlockOk;
    forall i | 0 <= i < 9 && t.slots[i].Some? ensures ProcOk(t, i) {
      assert SameProc(s.slots[i], t.slots[i]) && ProcOk(s, i);
      BlockSame(s.slots[i].value, t.slots[i].value);
      if i != 1 { SameFather(s, t, s.slots[i].value.father); }
    }
    forall i, j | 0 <= i < 9 && 0 <= j < 9 ensures Distinct(t, i, j) {
      assert Distinct(s, i, j) && SameProc(s.slots[i], t.slots[i]) && SameProc(s.slots[j], t.slots[j]);
    }
    assert SameProc(s.slots[1], t.slots[1]);
  }

  lemma BlockSame(p: Proc, q: Proc)
    requires BlockOk(p) && p.state == q.state && p.blocked == q.blocked
    ensures BlockOk(q)
  {
  }

  lemma ActivateTree(s: Sys, k: nat)
    requires Shaped(s) && 1 <= k <= 8 && s.slots[k].Some?
    ensures SameTree(s, Activate(s, k)) && Activate(s, k).tty == s.tty
  {
  }

  // ---- the terminal's ring ----

  lemma UnreadAt(t: Tty, i: nat)
    requires t.tail + i < t.head
    ensures |Unread(t)| == t.head - t.tail && Unread(t)[i] == t.ring[(t.tail + i) % 1024]
  {
  }

  lemma TypedAppends(t: Tty, c: Byte)
    requires t.tail <= t.head <= t.tail + 1022 || (t.tail <= t.head && t.head - t.tail < 1023)
    ensures Unread(t.(ring := t.ring[t.head % 1024 := c], head := t.head + 1)) == Unread(t) + [c]
  {
    hide Unread;
    var u := t.(ring := t.ring[t.head % 1024 := c], head := t.head + 1);
    var q, r := Unread(t), Unread(u);
    UnreadAt(u, t.head - t.tail);
    forall i | 0 <= i < |q| ensures r[i] == q[i] {
      UnreadAt(t, i);
      UnreadAt(u, i);
      Slots(t.tail + i, t.head);
    }
    UnreadSize(t);
  }

  lemma UnreadSize(t: Tty)
    requires t.tail <= t.head
    ensures |Unread(t)| == t.head - t.tail
  {
  }

  lemma TypedErases(t: Tty)
    requires t.tail < t.head
    ensures Unread(t) != [] && Unread(t)[|Unread(t)| - 1] == t.ring[(t.head - 1) % 1024]
    ensures Unread(t.(head := t.head - 1)) == Unread(t)[..|Unread(t)| - 1]
  {
    hide Unread;
    var u := t.(head := t.head - 1);
    UnreadAt(t, t.head - 1 - t.tail);
    UnreadSize(u);
    forall i | 0 <= i < |Unread(u)| ensures Unread(u)[i] == Unread(t)[i] {
      UnreadAt(t, i);
      UnreadAt(u, i);
    }
  }

  // What typing does to the queue of unread bytes: a printable character joins
  // it while there is room for it and for a newline, a newline while there is
  // room; an erase character takes back the last character of an unfinished
  // line; nothing else changes it.
  function Edited(q: seq<Byte>, c: Byte): seq<Byte> {
    if c == 8 || c == 127 then if q != [] && q[|q| - 1] != NEWLINE then q[..|q| - 1] else q
    else if (32 <= c < 127 && |q| <= 1021) || (c == NEWLINE && |q| <= 1022) then q + [c]
    else q
  }

  lemma TypedQueue(t: Tty, c: Byte)
    requires RingOk(t)
    ensures RingOk(Typed(t, c)) && Unread(Typed(t, c)) == Edited(Unread(t), c)
    ensures LineReady(t) ==> LineReady(Typed(t, c))
  {
    hide Unread;
    var q := Unread(t);
    UnreadSize(t);
    if t.head > t.tail { TypedErases(t); }
    if t.head - t.tail < 1023 { TypedAppends(t, c); }
    if NEWLINE in q {
      var i :| 0 <= i < |q| && q[i] == NEWLINE;
      assert (q + [c])[i] == NEWLINE;
      if q[|q| - 1] != NEWLINE { assert q[..|q| - 1][i] == NEWLINE; }
    }
  }

  lemma Slots(a: nat, b: nat)
    requires a < b < a + 1024
    ensures a % 1024 != b % 1024
  {
  }

  lemma {:induction false} FirstLineEnds(q: seq<Byte>)
    requires NEWLINE in q
    ensures FirstLine(q) != [] && FirstLine(q)[|FirstLine(q)| - 1] == NEWLINE
    ensures NEWLINE !in FirstLine(q)[..|FirstLine(q)| - 1]
  {
    if q[0] != NEWLINE {
      FirstLineEnds(q[1..]);
      var l := FirstLine(q[1..]);
      assert FirstLine(q)[..|FirstLine(q)| - 1] == [q[0]] + l[..|l| - 1];
    }
  }

  lemma DropUnread(t: Tty, n: nat)
    requires RingOk(t) && n <= |Unread(t)|
    ensures RingOk(t.(tail := t.tail + n)) && Unread(t.(tail := t.tail + n)) == Unread(t)[n..]
  {
    hide Unread;
    UnreadSize(t);
    var u := t.(tail := t.tail + n);
    UnreadSize(u);
    forall i | 0 <= i < |Unread(u)| ensures Unread(u)[i] == Unread(t)[n..][i] {
      UnreadAt(t, n + i);
      UnreadAt(u, i);
    }
  }

  lemma StoredThere(m: Image, addr: Word, bytes: seq<Byte>)
    requires UserRange(addr, |bytes|)
    ensures Stored(m, addr, bytes)[addr - SP_USER_BASE..addr - SP_USER_BASE + |bytes|] == bytes
  {
  }

  // A read blocks only for want of a line; otherwise it takes the queue's
  // front, never past the first newline, into the buffer and nowhere else.
  lemma TtyReadTakes(s: Sys, buf: Word, count: Word)
    requires Shaped(s) && UserRange(buf, count) && RingOk(s.tty)
    ensures var (t, r) := TtyRead(s, buf, count);
            && RingOk(t.tty)
            && (r <= 0 ==> t.tty == s.tty && t.window == s.window)
            && (r > 0 ==>
                  && r <= count && r <= |Unread(s.tty)| && Unread(t.tty) == Unread(s.tty)[r..]
                  && t.window[buf - SP_USER_BASE..buf - SP_USER_BASE + r] == Unread(s.tty)[..r]
                  && NEWLINE !in Unread(s.tty)[..r - 1])
            && (r == -EAGAIN <==> !Cur(s).cancelled && count > 0 && !LineReady(s.tty))
  {
    hide Unread, Stored, FirstLine;
    var q := Unread(s.tty);
    if !Cur(s).cancelled && count > 0 && LineReady(s.tty) {
      FirstLineEnds(q);
      var line := FirstLine(q);
      var got := if |line| <= count then line else line[..count];
      FrontOfLine(q, |got|);
      DropUnread(s.tty, |got|);
      StoredThere(s.window, buf, got);
    }
  }

  lemma FrontOfLine(q: seq<Byte>, n: nat)
    requires NEWLINE in q && 0 < n <= |FirstLine(q)|
    ensures n <= |q| && FirstLine(q)[..n] == q[..n] && NEWLINE !in q[..n - 1]
  {
    FirstLineEnds(q);
    var line := FirstLine(q);
    assert q[..n - 1] == line[..|line| - 1][..n - 1];
  }

  // ---- the walk up the tree ----

  // The ancestors of pid, init excluded.
  predicate Under(s: Sys, pid: nat, root: nat)
    requires |s.slots| == 9
    decreases pid
  {
    if pid <= 1 then false
    else if pid == root then true
    else
      var i := SlotOf(s, pid, 1);
      if i == 9 || s.slots[i].value.father >= pid then false else Under(s, s.slots[i].value.father, root)
  }

  // How many processes have pids up to this one.
  function Rank(s: Sys, pid: nat, n: nat): (r: nat)
    requires n <= |s.slots|
    ensures r <= n
  {
    if n == 0 then 0
    else Rank(s, pid, n - 1) + if s.slots[n - 1].Some? && s.slots[n - 1].value.pid <= pid then 1 else 0
  }

  lemma {:induction false} RankLess(s: Sys, f: nat, pid: nat, i: nat, n: nat)
    requires n <= |s.slots| && i < |s.slots| && s.slots[i].Some? && s.slots[i].value.pid == pid && f < pid
    ensures Rank(s, f, n) <= Rank(s, pid, n)
    ensures i < n ==> Rank(s, f, n) < Rank(s, pid, n)
  {
    if n > 0 { RankLess(s, f, pid, i, n - 1); }
  }

  lemma {:induction false} WalkIsUnder(s: Sys, pid: nat, root: nat, depth: nat)
    requires Good(s) && depth > Rank(s, pid, 9)
    ensures Walk(s, pid, root, depth) == Under(s, pid, root)
    decreases depth
  {
    hide Distinct, FatherOk, BlockOk, Rank;
    if pid > 1 && pid != root {
      var i := SlotOf(s, pid, 1);
      if i < 9 {
        assert ProcOk(s, i);
        RankLess(s, s.slots[i].value.father, pid, i, 9);
        WalkIsUnder(s, s.slots[i].value.father, root, depth - 1);
      }
    }
  }

  lemma {:induction false} RankOfUsed(s: Sys, pid: nat, n: nat)
    requires n <= |s.slots| && |s.slots| > 0 && s.slots[0].None?
    ensures Rank(s, pid, n) <= if n == 0 then 0 else n - 1
  {
    if n > 0 { RankOfUsed(s, pid, n - 1); }
  }

  // The depth-bounded walk computes the exact ancestor closure.
  lemma DescendantExact(s: Sys, i: nat, root: nat)
    requires Good(s) && i < 9 && s.slots[i].Some?
    ensures Descendant(s, i, root) == Under(s, s.slots[i].value.pid, root)
  {
    RankOfUsed(s, s.slots[i].value.pid, 9);
    WalkIsUnder(s, s.slots[i].value.pid, root, 9);
  }

  // ---- every operation keeps the invariant ----

  lemma InterruptTree(s: Sys)
    requires Shaped(s)
    ensures SameTree(s, TerminalInterrupt(s)) && TerminalInterrupt(s).tty == s.tty.(tail := s.tty.head)
  {
    hide Walk;
  }

  lemma TtyTree(s: Sys, t: Tty)
    ensures SameTree(s, s.(tty := t))
  {
  }

  lemma PollTree(s: Sys, event: Word)
    requires Shaped(s) && RingOk(s.tty)
    ensures SameTree(s, Poll(s, event)) && RingOk(Poll(s, event).tty)
  {
    hide Typed, TerminalInterrupt, CharOf, SameTree, Edited, Unread;
    InterruptTree(s);
    TtyTree(s, Poll(s, event).tty);
    TypedQueue(s.tty, CharOf(event % 256, s.tty.shifts.0 || s.tty.shifts.1));
  }

  lemma PollGood(s: Sys, event: Word)
    requires Good(s)
    ensures Good(Poll(s, event)) && SameTree(s, Poll(s, event))
  {
    hide ProcOk, Distinct, Poll, RingOk;
    PollTree(s, event);
    SameTreeGood(s, Poll(s, event));
  }

  // Rewriting the active process without touching its place in the tree.
  lemma SetCurGood(s: Sys, q: Proc)
    requires Good(s) && q.pid == Cur(s).pid && q.father == Cur(s).father && BlockOk(q)
    requires q.state.Zombie? ==> Cur(s).state.Zombie?
    ensures Good(SetCur(s, q))
  {
    hide BlockOk, FatherOk;
    var t := SetCur(s, q);
    forall i | 0 <= i < 9 && t.slots[i].Some? ensures ProcOk(t, i) {
      assert ProcOk(s, i);
      if i != 1 { StillFather(s, t, s.slots[i].value.father); }
    }
    forall i, j | 0 <= i < 9 && 0 <= j < 9 ensures Distinct(t, i, j) {
      assert Distinct(s, i, j);
    }
  }

  lemma StillFather(s: Sys, t: Sys, f: nat)
    requires FatherOk(s, f) && |s.slots| == |t.slots|
    requires forall j | 0 <= j < |s.slots| && Alive(s, j) && s.slots[j].value.pid == f :: Alive(t, j) && t.slots[j].value.pid == f
    ensures FatherOk(t, f)
  {
    if f != 1 {
      var j :| 0 <= j < |s.slots| && Alive(s, j) && s.slots[j].value.pid == f;
      assert Alive(t, j) && t.slots[j].value.pid == f;
    }
  }

  lemma ExitGood(s: Sys, status: nat)
    requires Good(s)
    ensures Good(Exit(SetCur(s, Cur(s).(blocked := NotBlocked)), status))
  {
    hide FatherOk;
    var me := Cur(s).pid;
    var t := Exit(SetCur(s, Cur(s).(blocked := NotBlocked)), status);
    assert ProcOk(s, s.active);
    forall i | 0 <= i < 9 && t.slots[i].Some? ensures ProcOk(t, i) {
      assert ProcOk(s, i);
      var f := s.slots[i].value.father;
      if i != 1 && f == me {
        assert FatherOk(t, 1) by { InitIsFather(t); }
      } else if i != 1 {
        forall j | 0 <= j < 9 && Alive(s, j) && s.slots[j].value.pid == f ensures Alive(t, j) && t.slots[j].value.pid == f {
        }
        StillFather(s, t, f);
      }
    }
    forall i, j | 0 <= i < 9 && 0 <= j < 9 ensures Distinct(t, i, j) {
      assert Distinct(s, i, j);
    }
  }

  lemma InitIsFather(s: Sys)
    ensures FatherOk(s, 1)
  {
  }

  lemma SameCur(s: Sys)
    requires Shaped(s)
    ensures SetCur(s, Cur(s)) == s
  {
    assert s.slots[s.active := s.slots[s.active]] == s.slots;
  }

  lemma ForkGood(s: Sys)
    requires Good(s) && Alive(s, s.active)
    ensures Good(Fork(s).0)
  {
    hide FatherOk;
    var (t, r) := Fork(s);
    var k := FreeSlot(s, 1);
    if t != s {
      assert ProcOk(s, s.active);
      assert Alive(t, s.active);
      forall i | 0 <= i < 9 && t.slots[i].Some? ensures ProcOk(t, i) {
        if i == k {
          FatherHere(t, s.active);
        } else {
          assert ProcOk(s, i);
          if i != 1 { StillFather(s, t, s.slots[i].value.father); }
        }
      }
      forall i, j | 0 <= i < 9 && 0 <= j < 9 ensures Distinct(t, i, j) {
        assert Distinct(s, i, j);
        if s.slots[i].Some? { assert ProcOk(s, i); }
        if s.slots[j].Some? { assert ProcOk(s, j); }
      }
    }
  }

  lemma FatherHere(s: Sys, j: nat)
    requires j < |s.slots| && Alive(s, j)
    ensures FatherOk(s, s.slots[j].value.pid)
  {
  }

  lemma WaitGood(s: Sys, pid: int, status: Word, options: Word)
    requires Good(s) && (status != 0 ==> UserRange(status, 4))
    ensures Good(Wait(s, pid, status, options).0)
  {
    hide FatherOk, Stored, StoredWord;
    var me := Cur(s).pid;
    var z := DeadChild(s, me, pid, 1);
    var (t, r) := Wait(s, pid, status, options);
    if t != s {
      assert ProcOk(s, z) && ProcOk(s, s.active);
      forall i | 0 <= i < 9 && t.slots[i].Some? ensures ProcOk(t, i) {
        assert ProcOk(s, i);
        if i != 1 { StillFather(s, t, s.slots[i].value.father); }
      }
      forall i, j | 0 <= i < 9 && 0 <= j < 9 ensures Distinct(t, i, j) {
        assert Distinct(s, i, j);
      }
    }
  }

  lemma TtyReadGood(s: Sys, buf: Word, count: Word)
    requires Good(s) && UserRange(buf, count)
    ensures Good(TtyRead(s, buf, count).0) && SameTree(s, TtyRead(s, buf, count).0)
  {
    hide ProcOk, Distinct;
    TtyReadTakes(s, buf, count);
    SameTreeGood(s, TtyRead(s, buf, count).0);
  }

  lemma ForegroundGood(s: Sys, a: Word)
    requires Good(s)
    ensures Good(SetForeground(s, a).0) && SameTree(s, SetForeground(s, a).0)
  {
    hide ProcOk, Distinct, Walk;
    SameTreeGood(s, SetForeground(s, a).0);
  }

  predicate Simple(nr: Word) {
    nr !in {1, 2, 3, 7, 103}
  }

  lemma SimpleGood(s: Sys, nr: Word, a: Word, b: Word, c: Word, v: Service)
    requires Good(s) && Simple(nr)
    ensures Good(Perform(s, nr, a, b, c, v).0) && SameTree(s, Perform(s, nr, a, b, c, v).0)
  {
    hide ProcOk, Distinct, RingOk;
    SameTreeGood(s, Perform(s, nr, a, b, c, v).0);
  }

  lemma PerformGood(s: Sys, nr: Word, a: Word, b: Word, c: Word, v: Service)
    requires Good(s) && Cur(s).state.Running?
    ensures Good(Perform(s, nr, a, b, c, v).0)
  {
    hide ProcOk, Distinct, RingOk, Exit, Fork, TtyRead, Wait, SetForeground;
    if Simple(nr) {
      SimpleGood(s, nr, a, b, c, v);
    } else if nr == 1 {
      RunningFree(s);
      SameCur(s);
      ExitGood(s, a % 256 * 256);
    } else if nr == 2 {
      ForkGood(s);
    } else if nr == 3 {
      if UserRange(b, c) {
        TtyReadGood(s, b, c);
        SameTreeGood(s, s.(window := v.image));
      }
    } else if nr == 7 {
      if b == 0 || UserRange(b, 4) { WaitGood(s, Signed(a), b, c); }
    } else {
      ForegroundGood(s, a);
    }
  }

  lemma RunningFree(s: Sys)
    requires Good(s) && Cur(s).state.Running?
    ensures Cur(s).blocked.NotBlocked? && Cur(s).(blocked := NotBlocked) == Cur(s)
  {
    assert ProcOk(s, s.active);
  }

  // A call asks for a retry only for reasons that can pass.
  lemma RetryMeans(s: Sys, nr: Word, a: Word, b: Word, c: Word, v: Service)
    requires Good(s) && Cur(s).state.Running? && Answers(v)
    requires Perform(s, nr, a, b, c, v).1 == -EAGAIN
    ensures nr == 3 ==> c > 0 && UserRange(b, c) && Perform(s, nr, a, b, c, v).0 == s
    ensures nr == 7 ==> (Signed(a) == -1 || Signed(a) > 0) && (b != 0 ==> UserRange(b, 4)) && c == 0 && Perform(s, nr, a, b, c, v).0 == s
  {
    hide Walk, Distinct, FatherOk;
    if nr == 3 && UserRange(b, c) { TtyReadTakes(s, b, c); }
    if nr == 7 && (b == 0 || UserRange(b, 4)) { WaitBlocks(s, Signed(a), b, c); }
  }

  lemma WaitBlocks(s: Sys, pid: int, status: Word, options: Word)
    requires Good(s) && (status != 0 ==> UserRange(status, 4))
    ensures Wait(s, pid, status, options).1 == -EAGAIN ==>
              (pid == -1 || pid > 0) && options == 0 && Wait(s, pid, status, options).0 == s
  {
    hide StoredWord, Distinct, FatherOk;
    var z := DeadChild(s, Cur(s).pid, pid, 1);
    if z < 9 { assert ProcOk(s, z); }
  }

  // Only exit changes the caller's state.
  lemma CallerAfter(s: Sys, nr: Word, a: Word, b: Word, c: Word, v: Service)
    requires Good(s) && Cur(s).state.Running?
    ensures var t := Perform(s, nr, a, b, c, v).0;
            Cur(t).pid == Cur(s).pid && Cur(t).blocked.NotBlocked? && (Cur(t).state.Zombie? <==> nr == 1) && !Cur(t).state.Interruptible?
  {
    hide Walk, Stored, StoredWord, Unread, Distinct, ProcOk, SlotOf, FreeSlot;
    RunningFree(s);
  }

  lemma ServeGood(s: Sys, v: Service)
    requires Good(s) && Cur(s).state.Running? && Answers(v)
    ensures Good(Serve(s, v))
  {
    hide ProcOk, Distinct, RingOk, Perform, Exit, UserRange;
    var p := Cur(s);
    var x := p.context.regs;
    var nr, a, b, c := x[1], x[2], x[3], x[4];
    RunningFree(s);
    if p.interrupted && !p.deferred {
      SameCur(s);
      ExitGood(s, 2);
      var t := Exit(s, 2);
      ExitLeaves(s, 2);
      SetCurGood(t, Result(Cur(t), 0));
    } else {
      var (t, r) := Perform(s, nr, a, b, c, v);
      PerformGood(s, nr, a, b, c, v);
      CallerAfter(s, nr, a, b, c, v);
      if r == -EAGAIN && (nr == 3 || nr == 7) {
        RetryMeans(s, nr, a, b, c, v);
        SetCurGood(t, if nr == 3 then Cur(t).(blocked := OnRead(b, c), state := Interruptible)
                      else Cur(t).(blocked := OnWait(Signed(a), b), state := Interruptible));
      } else if r != REPLACED {
        SetCurGood(t, Result(Cur(t), r));
      }
    }
  }

  lemma ExitLeaves(s: Sys, status: nat)
    requires Shaped(s) && Cur(s).blocked.NotBlocked?
    ensures BlockOk(Cur(Exit(s, status))) && Cur(Exit(s, status)).state.Zombie? && Cur(Exit(s, status)).pid == Cur(s).pid
  {
  }

  lemma KillGood(s: Sys, k: nat)
    requires Good(s) && 1 <= k <= 8 && s.slots[k].Some?
    ensures Good(Kill(s, k))
  {
    hide ProcOk, Distinct, RingOk, Activate, Exit;
    ActivateTree(s, k);
    SameTreeGood(s, Activate(s, k));
    ExitGood(Activate(s, k), 2);
  }

  lemma {:induction false} KillFromGood(s: Sys, k: nat)
    requires Good(s) && 1 <= k <= 9
    ensures Good(KillFrom(s, k))
    decreases 9 - k
  {
    hide ProcOk, Distinct, RingOk, Kill;
    if k < 9 {
      if Doomed(s, k) {
        KillGood(s, k);
        KillFromGood(Kill(s, k), k + 1);
      } else {
        KillFromGood(s, k + 1);
      }
    }
  }

  lemma ReplayGood(s: Sys, k: nat)
    requires Good(s) && 1 <= k <= 8 && s.slots[k].Some? && s.slots[k].value.state.Interruptible?
    ensures Good(Replay(s, k))
  {
    hide Distinct, RingOk, Activate, TtyRead, Wait, FatherOk, UserRange;
    ActivateTree(s, k);
    var u := Activate(s, k);
    SameTreeGood(s, u);
    assert SameProc(s.slots[k], u.slots[k]) && ProcOk(u, k);
    match Cur(u).blocked
    case OnRead(buf, count) =>
      TtyReadGood(u, buf, count);
      var (t, r) := TtyRead(u, buf, count);
      assert SameProc(u.slots[k], t.slots[k]);
      if r != -EAGAIN { SetCurGood(t, Result(Cur(t), r).(blocked := NotBlocked, state := Running)); }
    case OnWait(child, status) =>
      WaitGood(u, child, status, 0);
      var (t, r) := Wait(u, child, status, 0);
      WaitCaller(u, child, status, 0);
      if r != -EAGAIN { SetCurGood(t, Result(Cur(t), r).(blocked := NotBlocked, state := Running)); }
  }

  lemma WaitCaller(s: Sys, pid: int, status: Word, options: Word)
    requires Shaped(s) && (status != 0 ==> UserRange(status, 4))
    ensures Cur(Wait(s, pid, status, options).0) == Cur(s)
  {
    hide StoredWord;
  }

  lemma {:induction false} ReplayFromGood(s: Sys, k: nat)
    requires Good(s) && 1 <= k <= 9
    ensures Good(ReplayFrom(s, k))
    decreases 9 - k
  {
    hide Distinct, RingOk, Replay, FatherOk, WaitReady, LineReady;
    if k < 9 {
      if s.slots[k].Some? && Ready(s, k) {
        assert ProcOk(s, k);
        ReplayGood(s, k);
        ReplayFromGood(Replay(s, k), k + 1);
      } else {
        ReplayFromGood(s, k + 1);
      }
    }
  }

  lemma {:induction false} LoopGood(s: Sys, nr: Word, events: seq<Word>)
    requires Good(s) && Loop(s, nr, events).Some?
    ensures Good(Loop(s, nr, events).value) && Runnable(Loop(s, nr, events).value, Loop(s, nr, events).value.active)
    decreases |events|
  {
    hide ProcOk, Distinct, RingOk, KillFrom, ReplayFrom, Activate, Poll, NextRunnable;
    var t := ReplayFrom(KillFrom(s, 1), 1);
    KillFromGood(s, 1);
    ReplayFromGood(KillFrom(s, 1), 1);
    var k := Choose(t, nr);
    if k > 0 {
      ActivateTree(t, k);
      SameTreeGood(t, Activate(t, k));
      assert SameProc(t.slots[k], Activate(t, k).slots[k]);
    } else if events != [] {
      PollGood(t, events[0]);
      LoopGood(Poll(t, events[0]), nr, events[1..]);
    }
  }

  // One trip through the dispatcher keeps the invariant and returns to a
  // running process.
  lemma DispatchGood(s: Sys, saved: Context, event: Word, v: Service, events: seq<Word>)
    requires Good(s) && Runnable(s, s.active) && Answers(v) && Dispatch(s, saved, event, v, events).Some?
    ensures var t := Dispatch(s, saved, event, v, events).value;
            Good(t) && Runnable(t, t.active)
  {
    hide ProcOk, Distinct, RingOk, Loop, Poll, Serve;
    var u := SetCur(s, Cur(s).(context := saved));
    SameTreeGood(s, u);
    PollGood(u, event);
    assert SameProc(u.slots[s.active], Poll(u, event).slots[s.active]);
    ServeGood(Poll(u, event), v);
    LoopGood(Serve(Poll(u, event), v), saved.regs[1], events);
  }

  // ---- blocked calls ----

  // A blocked call is replayed exactly when replaying it no longer blocks.
  lemma ReadyExact(s: Sys, k: nat)
    requires Good(s) && 1 <= k <= 8 && s.slots[k].Some? && s.slots[k].value.state.Interruptible?
    ensures Ready(s, k) <==> Cur(Replay(s, k)).state.Running?
    ensures !Ready(s, k) ==> Replay(s, k) == Activate(s, k)
  {
    hide Distinct, FatherOk, StoredWord, Stored, Unread;
    ActivateTree(s, k);
    var u := Activate(s, k);
    SameTreeGood(s, u);
    assert SameProc(s.slots[k], u.slots[k]) && ProcOk(u, k) && ProcOk(s, k);
    match Cur(u).blocked
    case OnRead(buf, count) =>
      TtyReadTakes(u, buf, count);
      ActivateFlags(s, k);
    case OnWait(child, status) => WaitReadyExact(s, u, k, child, status);
  }

  lemma ActivateFlags(s: Sys, k: nat)
    requires Shaped(s) && 1 <= k <= 8 && s.slots[k].Some?
    ensures Cur(Activate(s, k)).cancelled == s.slots[k].value.cancelled && Cur(Activate(s, k)).context == s.slots[k].value.context
  {
  }

  // wait_ready holds exactly when the wait would not block.
  lemma WaitReadyExact(s: Sys, u: Sys, k: nat, child: int, status: Word)
    requires Good(s) && Good(u) && SameTree(s, u) && u.active == k && k < 9 && s.slots[k].Some?
    requires (child == -1 || child > 0) && (status != 0 ==> UserRange(status, 4))
    ensures WaitReady(s, k, child) <==> Wait(u, child, status, 0).1 != -EAGAIN
    ensures !WaitReady(s, k, child) ==> Wait(u, child, status, 0).0 == u
  {
    hide Distinct, FatherOk, StoredWord, BlockOk;
    var me := Cur(u).pid;
    forall i | 1 <= i < 9 ensures ChildAt(s, i, me, child) == ChildAt(u, i, me, child) && DeadChildAt(s, i, me, child) == DeadChildAt(u, i, me, child) {
      assert SameProc(s.slots[i], u.slots[i]);
    }
    assert SameProc(s.slots[k], u.slots[k]);
    assert ProcOk(u, k) && !ChildAt(u, k, me, child);
    var z := DeadChild(u, me, child, 1);
    if z < 9 { assert ProcOk(u, z); }
  }
}
