// Processes do not disturb each other: memory, registers, exit statuses and
// pids over whole runs of the dispatcher.
module Isolation {
  import opened Words
  import opened Process
  import opened Tree

  // ---- what stays of a process ----

  // Slot i holds the same process with the same registers, memory and pending call.
  predicate Untouched(s: Sys, t: Sys, i: nat) {
    && i < |s.slots| && i < |t.slots| && s.slots[i].Some? && t.slots[i].Some?
    && t.slots[i].value.pid == s.slots[i].value.pid
    && t.slots[i].value.context == s.slots[i].value.context
    && t.slots[i].value.blocked == s.slots[i].value.blocked
    && Memory(t, i) == Memory(s, i)
  }

  // The part of memory a blocked call writes to.
  predicate InBuffer(b: Blocked, addr: int) {
    match b
    case OnRead(buf, count) => buf <= addr < buf + count
    case OnWait(_, status) => status != 0 && status <= addr < status + 4
    case NotBlocked => false
  }

  predicate OnlyR1(c: Context, d: Context) {
    d == c.(regs := c.regs[1 := d.regs[1]])
  }

  // Slot i's own pending call finished: its result is in r1 and its buffer.
  ghost predicate Resumed(s: Sys, t: Sys, i: nat) {
    && i < |s.slots| && i < |t.slots| && s.slots[i].Some? && t.slots[i].Some?
    && t.slots[i].value.pid == s.slots[i].value.pid
    && t.slots[i].value.blocked.NotBlocked? && !s.slots[i].value.blocked.NotBlocked?
    && OnlyR1(s.slots[i].value.context, t.slots[i].value.context)
    && (forall x | 0 <= x < SP_USER_SIZE && !InBuffer(s.slots[i].value.blocked, SP_USER_BASE + x) :: Memory(t, i)[x] == Memory(s, i)[x])
  }

  // Nothing but its own pending call has happened to the process in slot i, as
  // long as it lives.
  ghost predicate Isolated(s: Sys, t: Sys, i: nat) {
    Alive(t, i) ==> Alive(s, i) && (Untouched(s, t, i) || Resumed(s, t, i))
  }

  lemma IsolatedThen(s: Sys, t: Sys, u: Sys, i: nat)
    requires Isolated(s, t, i) && Isolated(t, u, i)
    ensures Isolated(s, u, i)
  {
  }

  lemma ActivateUntouched(s: Sys, k: nat, i: nat)
    requires Shaped(s) && 1 <= k <= 8 && s.slots[k].Some? && Alive(s, i)
    ensures Untouched(s, Activate(s, k), i) && Alive(Activate(s, k), i)
  {
  }

  lemma ActivateIsolated(s: Sys, k: nat, i: nat)
    requires Shaped(s) && 1 <= k <= 8 && s.slots[k].Some?
    ensures Isolated(s, Activate(s, k), i)
  {
    if Alive(s, i) { ActivateUntouched(s, k, i); }
  }

  // The window a process wakes up in holds its own memory.
  lemma ActivateBrings(s: Sys, k: nat)
    requires Shaped(s) && 1 <= k <= 8 && s.slots[k].Some?
    ensures Activate(s, k).window == Memory(s, k)
  {
  }

  lemma ExitUntouched(s: Sys, status: nat, i: nat)
    requires Shaped(s) && i != s.active && Alive(s, i)
    ensures Untouched(s, Exit(s, status), i) && Alive(Exit(s, status), i)
  {
  }

  lemma PollUntouched(s: Sys, event: Word, i: nat)
    requires Shaped(s) && Alive(s, i)
    ensures Untouched(s, Poll(s, event), i) && Alive(Poll(s, event), i)
  {
    hide Walk, Typed, CharOf;
  }

  lemma PollIsolated(s: Sys, event: Word, i: nat)
    requires Shaped(s)
    ensures Isolated(s, Poll(s, event), i)
  {
    hide Walk, Typed, CharOf;
  }

  // A system call changes no other process.
  lemma PerformUntouched(s: Sys, nr: Word, a: Word, b: Word, c: Word, v: Service, i: nat)
    requires Shaped(s) && i != s.active && Alive(s, i)
    ensures var t := Perform(s, nr, a, b, c, v).0; Untouched(s, t, i) && Alive(t, i)
  {
    hide Walk, Exit, Stored, StoredWord, Unread;
    if nr == 1 { ExitUntouched(s, a % 256 * 256, i); }
  }

  lemma ServeUntouched(s: Sys, v: Service, i: nat)
    requires Shaped(s) && i != s.active && Alive(s, i)
    ensures Untouched(s, Serve(s, v), i) && Alive(Serve(s, v), i)
  {
    hide Perform, Exit;
    var x := Cur(s).context.regs;
    PerformUntouched(s, x[1], x[2], x[3], x[4], v, i);
    ExitUntouched(s, 2, i);
  }

  lemma KillIsolated(s: Sys, k: nat, i: nat)
    requires Shaped(s) && 1 <= k <= 8 && s.slots[k].Some?
    ensures Isolated(s, Kill(s, k), i)
    ensures i != k && Alive(s, i) ==> Untouched(s, Kill(s, k), i) && Alive(Kill(s, k), i)
    ensures i == k ==> !Alive(Kill(s, k), i)
  {
    hide Activate, Exit;
    var u := SetCur(Activate(s, k), Cur(Activate(s, k)).(blocked := NotBlocked));
    ActivateIsolated(s, k, i);
    if i != k && Alive(s, i) {
      ActivateUntouched(s, k, i);
      ExitUntouched(u, 2, i);
    } else if i != k {
      ExitDead(u, 2, i);
    } else {
      ExitSelf(u, 2);
    }
  }

  lemma ExitDead(s: Sys, status: nat, i: nat)
    requires Shaped(s) && !Alive(s, i)
    ensures !Alive(Exit(s, status), i)
  {
  }

  lemma ExitSelf(s: Sys, status: nat)
    requires Shaped(s)
    ensures !Alive(Exit(s, status), s.active)
  {
  }

  lemma {:induction false} KillFromIsolated(s: Sys, k: nat, i: nat)
    requires Shaped(s) && 1 <= k <= 9
    ensures Isolated(s, KillFrom(s, k), i)
    decreases 9 - k
  {
    hide Kill, Untouched, Resumed;
    if k < 9 {
      if Doomed(s, k) {
        KillIsolated(s, k, i);
        KillFromIsolated(Kill(s, k), k + 1, i);
        IsolatedThen(s, Kill(s, k), KillFrom(s, k), i);
      } else {
        KillFromIsolated(s, k + 1, i);
      }
    } else {
      Same(s, i);
    }
  }

  lemma Same(s: Sys, i: nat)
    ensures Isolated(s, s, i)
  {
  }

  lemma ReplayOther(s: Sys, k: nat, i: nat)
    requires Good(s) && 1 <= k <= 8 && s.slots[k].Some? && s.slots[k].value.state.Interruptible? && i != k
    ensures Isolated(s, Replay(s, k), i)
  {
    hide Activate, Unread, Stored, StoredWord, LineReady, ChildAt, DeadChildAt, Resumed, ProcOk, Distinct;
    ActivateIsolated(s, k, i);
    if Alive(s, i) { ActivateUntouched(s, k, i); }
  }

  // A replay writes its own process's buffer and r1 only.
  lemma ReplayOwn(s: Sys, k: nat)
    requires Good(s) && 1 <= k <= 8 && s.slots[k].Some? && s.slots[k].value.state.Interruptible?
    ensures Alive(Replay(s, k), k) && (Untouched(s, Replay(s, k), k) || Resumed(s, Replay(s, k), k))
  {
    hide Activate, Unread, Stored, LineReady, ChildAt, DeadChildAt, Distinct, FatherOk, Result, StoredWord;
    var u := Activate(s, k);
    ActivateUntouched(s, k, k);
    ActivateTree(s, k);
    SameTreeGood(s, u);
    assert ProcOk(s, k) && SameProc(s.slots[k], u.slots[k]);
    match Cur(u).blocked
    case OnRead(buf, count) =>
      TtyReadTouches(u, buf, count);
      var (t, r) := TtyRead(u, buf, count);
      if r != -EAGAIN { ReplayResumes(s, u, t, k, r); }
    case OnWait(child, status) =>
      WaitTouches(u, child, status, 0);
      var (t, r) := Wait(u, child, status, 0);
      if r != -EAGAIN { ReplayResumes(s, u, t, k, r); }
  }

  ghost predicate OnlyBuffer(b: Blocked, m: Image, n: Image) {
    forall x | 0 <= x < SP_USER_SIZE && !InBuffer(b, SP_USER_BASE + x) :: n[x] == m[x]
  }

  lemma TtyReadTouches(s: Sys, buf: Word, count: Word)
    requires Shaped(s) && UserRange(buf, count)
    ensures var t := TtyRead(s, buf, count).0;
            && OnlyBuffer(OnRead(buf, count), s.window, t.window) && t.active == s.active
            && Cur(t) == Cur(s).(cancelled := Cur(t).cancelled)
    ensures TtyRead(s, buf, count).1 == -EAGAIN ==> TtyRead(s, buf, count).0 == s
  {
    hide Unread, LineReady;
  }

  lemma WaitTouches(s: Sys, child: int, status: Word, options: Word)
    requires Good(s) && (status != 0 ==> UserRange(status, 4))
    ensures var t := Wait(s, child, status, options).0;
            OnlyBuffer(OnWait(child, status), s.window, t.window) && t.active == s.active && Cur(t) == Cur(s)
    ensures Wait(s, child, status, options).1 == -EAGAIN ==> Wait(s, child, status, options).0 == s
  {
    hide ChildAt, DeadChildAt, ProcOk, Distinct;
    WaitBlocks(s, child, status, options);
  }

  lemma ReplayResumes(s: Sys, u: Sys, t: Sys, k: nat, r: int)
    requires Shaped(s) && Shaped(u) && Shaped(t) && 1 <= k <= 8 && u.active == k && t.active == k && Alive(s, k) && Untouched(s, u, k)
    requires OnlyBuffer(Cur(u).blocked, u.window, t.window) && !Cur(u).blocked.NotBlocked?
    requires Cur(t) == Cur(u).(cancelled := Cur(t).cancelled)
    ensures Resumed(s, SetCur(t, Result(Cur(t), r).(blocked := NotBlocked, state := Running)), k)
  {
    var f := SetCur(t, Result(Cur(t), r).(blocked := NotBlocked, state := Running));
    assert f.slots[k].value.context == Result(s.slots[k].value, r).context;
  }

  lemma {:induction false} ReplayFromIsolated(s: Sys, k: nat, i: nat)
    requires Good(s) && 1 <= k <= 9
    ensures Isolated(s, ReplayFrom(s, k), i)
    decreases 9 - k
  {
    hide Replay, Untouched, Resumed, Distinct, FatherOk, WaitReady, LineReady, Alive;
    if k < 9 {
      if s.slots[k].Some? && Ready(s, k) {
        assert ProcOk(s, k);
        ReplayGood(s, k);
        if i == k { AliveBlocked(s, k); ReplayOwn(s, k); } else { ReplayOther(s, k, i); }
        ReplayFromIsolated(Replay(s, k), k + 1, i);
        IsolatedThen(s, Replay(s, k), ReplayFrom(s, k), i);
      } else {
        ReplayFromIsolated(s, k + 1, i);
      }
    } else {
      Same(s, i);
    }
  }

  lemma AliveBlocked(s: Sys, k: nat)
    requires k < |s.slots| && s.slots[k].Some? && s.slots[k].value.state.Interruptible?
    ensures Alive(s, k)
  {
  }

  lemma {:induction false} LoopIsolated(s: Sys, nr: Word, events: seq<Word>, i: nat)
    requires Good(s) && Loop(s, nr, events).Some?
    ensures Isolated(s, Loop(s, nr, events).value, i)
    decreases |events|
  {
    hide KillFrom, ReplayFrom, Activate, Poll, NextRunnable, Isolated, ProcOk, Distinct;
    var r := KillFrom(s, 1);
    var t := ReplayFrom(r, 1);
    KillFromGood(s, 1);
    ReplayFromGood(r, 1);
    KillFromIsolated(s, 1, i);
    ReplayFromIsolated(r, 1, i);
    IsolatedThen(s, r, t, i);
    var k := Choose(t, nr);
    if k > 0 {
      ActivateIsolated(t, k, i);
      IsolatedThen(s, t, Activate(t, k), i);
    } else if events != [] {
      PollGood(t, events[0]);
      PollIsolated(t, events[0], i);
      IsolatedThen(s, t, Poll(t, events[0]), i);
      LoopIsolated(Poll(t, events[0]), nr, events[1..], i);
      IsolatedThen(s, Poll(t, events[0]), Loop(s, nr, events).value, i);
    }
  }

  // While one process is served, nothing happens to any other except the
  // completion of its own blocked call.
  lemma DispatchIsolates(s: Sys, saved: Context, event: Word, v: Service, events: seq<Word>, i: nat)
    requires Good(s) && Runnable(s, s.active) && Answers(v) && Dispatch(s, saved, event, v, events).Some?
    requires i != s.active && Alive(s, i)
    ensures Isolated(s, Dispatch(s, saved, event, v, events).value, i)
  {
    hide Loop, Poll, Serve, ProcOk, Distinct, Resumed;
    var a := SetCur(s, Cur(s).(context := saved));
    SameTreeGood(s, a);
    PollGood(a, event);
    var b := Poll(a, event);
    assert SameProc(a.slots[s.active], b.slots[s.active]);
    PollUntouched(a, event, i);
    ServeUntouched(b, v, i);
    ServeGood(b, v);
    LoopIsolated(Serve(b, v), saved.regs[1], events, i);
    IsolatedThen(s, Serve(b, v), Loop(Serve(b, v), saved.regs[1], events).value, i);
  }

  // ---- the caller ----

  // The part of memory the call in these registers may write to.
  function Declared(x: Regs): Blocked {
    if x[1] == 3 then OnRead(x[3], x[4]) else if x[1] == 7 then OnWait(Signed(x[2]), x[3]) else NotBlocked
  }

  // Calls the file system answers, or that replace the program.
  predicate ByFiles(nr: Word, v: Service) {
    (nr == 3 && v.file.Other?) || nr in {4, 5, 6, 10, 11, 12, 15, 18, 19, 28, 36, 38, 39, 40, 41, 63}
  }

  lemma PerformCaller(s: Sys, nr: Word, a: Word, b: Word, c: Word, v: Service)
    requires Good(s) && Runnable(s, s.active) && !ByFiles(nr, v)
    ensures var t := Perform(s, nr, a, b, c, v).0;
            && t.active == s.active && Cur(t).pid == Cur(s).pid && Cur(t).context == Cur(s).context && Cur(t).blocked == Cur(s).blocked
            && (nr == 3 ==> OnlyBuffer(OnRead(b, c), s.window, t.window))
            && (nr == 7 ==> OnlyBuffer(OnWait(Signed(a), b), s.window, t.window))
            && (nr != 3 && nr != 7 ==> t.window == s.window)
    ensures (nr == 3 || nr == 7) && Perform(s, nr, a, b, c, v).1 == -EAGAIN ==> Perform(s, nr, a, b, c, v).0 == s
  {
    hide TtyRead, Wait, Walk, ProcOk, Distinct, RingOk, ChildAt, DeadChildAt;
    if nr == 3 && UserRange(b, c) {
      TtyReadTouches(s, b, c);
    } else if nr == 7 && (b == 0 || UserRange(b, 4)) {
      WaitTouches(s, Signed(a), b, c);
    }
  }

  // The caller after its call: finished, with r1 and the declared buffer
  // changed, or blocked in it with nothing changed.
  lemma ServeCaller(s: Sys, v: Service)
    requires Good(s) && Runnable(s, s.active) && !ByFiles(Cur(s).context.regs[1], v)
    ensures var t := Serve(s, v);
            && t.active == s.active && Cur(t).pid == Cur(s).pid
            && OnlyR1(Cur(s).context, Cur(t).context) && OnlyBuffer(Declared(Cur(s).context.regs), s.window, t.window)
            && (Cur(t).blocked.NotBlocked? || Cur(t).blocked == Declared(Cur(s).context.regs))
  {
    hide Perform, ProcOk, Distinct, RingOk, OnlyBuffer;
    var x := Cur(s).context.regs;
    RunnableUnblocked(s);
    PerformCaller(s, x[1], x[2], x[3], x[4], v);
    SameImage(Declared(x), s.window);
    ExitKeeps(s, 2);
  }

  lemma RunnableUnblocked(s: Sys)
    requires Good(s) && Runnable(s, s.active)
    ensures Cur(s).blocked.NotBlocked?
  {
    hide Distinct, RingOk, FatherOk;
    assert ProcOk(s, s.active);
  }

  lemma SameImage(b: Blocked, m: Image)
    ensures OnlyBuffer(b, m, m)
  {
  }

  lemma ExitKeeps(s: Sys, status: nat)
    requires Shaped(s)
    ensures var t := Exit(s, status);
            t.window == s.window && Cur(t).pid == Cur(s).pid && Cur(t).context == Cur(s).context && Cur(t).blocked == Cur(s).blocked
  {
  }

  // Of the process that traps, a call the dispatcher answers itself changes no
  // register but r1 and no memory but the buffer the call names, whatever else
  // runs before the process does again.
  lemma DispatchCaller(s: Sys, saved: Context, event: Word, v: Service, events: seq<Word>)
    requires Good(s) && Runnable(s, s.active) && Answers(v) && Dispatch(s, saved, event, v, events).Some?
    ensures var t, i := Dispatch(s, saved, event, v, events).value, s.active;
            Alive(t, i) && !ByFiles(saved.regs[1], v) ==>
              && t.slots[i].value.pid == s.slots[i].value.pid
              && OnlyR1(saved, t.slots[i].value.context) && OnlyBuffer(Declared(saved.regs), s.window, Memory(t, i))
  {
    hide Loop, Poll, Serve, ProcOk, Distinct, RingOk;
    var a := SetCur(s, Cur(s).(context := saved));
    SameTreeGood(s, a);
    PollGood(a, event);
    var b := Poll(a, event);
    assert SameProc(a.slots[s.active], b.slots[s.active]);
    PollUntouched(a, event, s.active);
    ServeGood(b, v);
    LoopIsolated(Serve(b, v), saved.regs[1], events, s.active);
    if !ByFiles(saved.regs[1], v) {
      ServeCaller(b, v);
    }
  }

  // And whichever call it was, the slot holds the same process or none alive.
  lemma DispatchCallerPid(s: Sys, saved: Context, event: Word, v: Service, events: seq<Word>)
    requires Good(s) && Runnable(s, s.active) && Answers(v) && Dispatch(s, saved, event, v, events).Some?
    ensures var t, i := Dispatch(s, saved, event, v, events).value, s.active;
            Alive(t, i) ==> t.slots[i].value.pid == s.slots[i].value.pid
  {
    hide Loop, Poll, Perform, ProcOk, Distinct, RingOk;
    var a := SetCur(s, Cur(s).(context := saved));
    SameTreeGood(s, a);
    PollGood(a, event);
    var b := Poll(a, event);
    assert SameProc(a.slots[s.active], b.slots[s.active]);
    PollUntouched(a, event, s.active);
    ServeGood(b, v);
    LoopIsolated(Serve(b, v), saved.regs[1], events, s.active);
    var x := Cur(b).context.regs;
    PerformPids(b, x[1], x[2], x[3], x[4], v);
    ExitKeeps(b, 2);
  }

  lemma Woken(s: Sys, t: Sys, k: nat)
    requires Isolated(s, t, k) && Alive(s, k) && Alive(t, k) && k == t.active != s.active
    ensures var p, q := s.slots[k].value, t.slots[k].value;
            && (p.blocked.NotBlocked? || q.blocked == p.blocked ==> t.window == p.saved && q.context == p.context)
            && OnlyR1(p.context, q.context) && OnlyBuffer(p.blocked, p.saved, t.window)
  {
    var p := s.slots[k].value;
    assert Memory(t, k) == t.window && Memory(s, k) == p.saved;
    forall x | 0 <= x < SP_USER_SIZE && !InBuffer(p.blocked, SP_USER_BASE + x) ensures t.window[x] == p.saved[x] {
      assert Memory(t, k)[x] == Memory(s, k)[x];
    }
  }

  // The process that runs next wakes up with the window holding what it left
  // there, its registers as it left them, unless its own blocked call finished.
  lemma DispatchBrings(s: Sys, saved: Context, event: Word, v: Service, events: seq<Word>)
    requires Good(s) && Runnable(s, s.active) && Answers(v) && Dispatch(s, saved, event, v, events).Some?
    ensures var t := Dispatch(s, saved, event, v, events).value;
            var k := t.active;
            k != s.active && Alive(s, k) ==>
              var p, q := s.slots[k].value, t.slots[k].value;
              && (p.blocked.NotBlocked? || q.blocked == p.blocked ==> t.window == p.saved && q.context == p.context)
              && OnlyR1(p.context, q.context) && OnlyBuffer(p.blocked, p.saved, t.window)
  {
    hide Dispatch, ProcOk, Distinct, RingOk;
    var t := Dispatch(s, saved, event, v, events).value;
    if t.active != s.active && Alive(s, t.active) {
      DispatchGood(s, saved, event, v, events);
      DispatchIsolates(s, saved, event, v, events, t.active);
      Woken(s, t, t.active);
    }
  }

  // ---- fork ----

  // The parent's break and limits, and nothing pending against it.
  predicate Fresh(p: Proc, q: Proc) {
    && p.brk == q.brk && p.endData == q.endData && p.startStack == q.startStack
    && !p.interrupted && !p.deferred && !p.cancelled
  }

  // The child starts with its parent's memory and registers, r1 being 0, under
  // a pid never used before; the parent learns the pid.
  lemma ForkCopies(s: Sys)
    requires Good(s) && Alive(s, s.active)
    ensures var (t, r) := Fork(s);
            r > 0 ==>
              var k := FreeSlot(s, 1);
              && 1 <= k <= 8 && Alive(t, k) && t.slots[k].value.pid == r == t.nextPid && r > s.nextPid
              && t.slots[k].value.father == Cur(s).pid && t.slots[k].value.context == Result(Cur(s), 0).context
              && Memory(t, k) == s.window == Memory(t, s.active) && t.slots[k].value.blocked.NotBlocked? && Runnable(t, k)
              && Fresh(t.slots[k].value, Cur(s))
              && t.slots == s.slots[k := t.slots[k]]
    ensures Fork(s).1 <= 0 ==> Fork(s).0 == s
    ensures Fork(s).1 == -EINTR <==> Cur(s).deferred && Cur(s).interrupted
    ensures Fork(s).1 == -EAGAIN <==> !(Cur(s).deferred && Cur(s).interrupted) && forall i | 1 <= i <= 8 :: s.slots[i].Some?
  {
  }

  // Asked for its pid, the child of a fork answers what the fork told its
  // parent; asked for its father's, what the parent answers for its own.
  lemma ForkIdentities(s: Sys, a: Word, b: Word, c: Word, v: Service)
    requires Good(s) && Alive(s, s.active) && Fork(s).1 > 0
    ensures var t := Fork(s).0;
            var u := Activate(t, FreeSlot(s, 1));
            && Perform(u, 20, a, b, c, v) == (u, Fork(s).1)
            && Perform(u, 64, a, b, c, v) == (u, Perform(t, 20, a, b, c, v).1)
            && Perform(t, 20, a, b, c, v) == (t, Perform(s, 20, a, b, c, v).1)
  {
    hide Exit, TtyRead, Wait, SetForeground, FreeSlot, Walk, ProcOk, Distinct, RingOk;
    ForkCopies(s);
  }

  // ---- wait ----

  // A wait that returns a pid has collected that zombie child of the caller,
  // stored its exit status and freed its slot; nobody else is affected.
  lemma WaitCollects(s: Sys, pid: int, status: Word, options: Word)
    requires Good(s) && (status != 0 ==> UserRange(status, 4))
    ensures var (t, r) := Wait(s, pid, status, options);
            r > 0 ==>
              var z := DeadChild(s, Cur(s).pid, pid, 1);
              && z < 9 && s.slots[z].Some? && s.slots[z].value.pid == r && s.slots[z].value.state.Zombie?
              && s.slots[z].value.father == Cur(s).pid && (pid == -1 || pid == r)
              && t.slots == s.slots[z := None]
              && t.window == (if status != 0 then StoredWord(s.window, status, Wrap(s.slots[z].value.exitCode)) else s.window)
    ensures Wait(s, pid, status, options).1 <= 0 ==> Wait(s, pid, status, options).0 == s
    ensures Wait(s, pid, status, options).1 == -ECHILD ==> forall i | 1 <= i < 9 :: !ChildAt(s, i, Cur(s).pid, pid)
  {
    hide StoredWord, Distinct, FatherOk;
    assert ProcOk(s, s.active);
    var z := DeadChild(s, Cur(s).pid, pid, 1);
    if z < 9 { assert ProcOk(s, z); }
  }

  // A child of `me` in slot i that a wait for pid means, pid -1 meaning any.
  predicate Awaited(s: Sys, me: nat, pid: int, i: nat) {
    i < |s.slots| && s.slots[i].Some? && s.slots[i].value.father == me && (pid == -1 || s.slots[i].value.pid == pid)
  }

  // What a wait returns, in every case: a pid when such a child is dead, else an
  // error when there is no such child, else nothing yet, to the caller itself
  // when it asked not to wait.
  lemma WaitReturns(s: Sys, pid: int, status: Word, options: Word)
    requires Good(s) && (status != 0 ==> UserRange(status, 4))
    ensures var r := Wait(s, pid, status, options).1;
            var some := exists i | 1 <= i < 9 :: Awaited(s, Cur(s).pid, pid, i);
            var dead := exists i | 1 <= i < 9 :: Awaited(s, Cur(s).pid, pid, i) && s.slots[i].value.state.Zombie?;
            if (pid != -1 && pid <= 0) || options > 1 then r == -EINVAL
            else if dead then r > 0
            else if !some then r == -ECHILD
            else r == if options == 1 then 0 else -EAGAIN
  {
    hide StoredWord, Distinct, FatherOk, BlockOk;
    var me := Cur(s).pid;
    assert ProcOk(s, s.active);
    forall i | 1 <= i < 9 ensures Awaited(s, me, pid, i) == ChildAt(s, i, me, pid) && (ChildAt(s, i, me, pid) ==> i != s.active) {
    }
    var z := DeadChild(s, me, pid, 1);
    if z < 9 {
      assert ProcOk(s, z) && Awaited(s, me, pid, z);
    } else {
      forall i | 1 <= i < 9 && Awaited(s, me, pid, i) ensures !s.slots[i].value.state.Zombie? {
        assert !(DeadChildAt(s, i, me, pid) && i != s.active);
      }
    }
  }

  // ---- Ctrl+C ----

  predicate SameFlags(a: Option<Proc>, b: Option<Proc>) {
    (a.Some? <==> b.Some?) && (a.Some? ==> a.value.pid == b.value.pid && a.value.interrupted == b.value.interrupted && a.value.deferred == b.value.deferred)
  }

  lemma KillFlags(s: Sys, k: nat, i: nat)
    requires Shaped(s) && 1 <= k <= 8 && s.slots[k].Some? && i < 9
    ensures SameFlags(s.slots[i], Kill(s, k).slots[i])
    ensures i != k ==> (Alive(Kill(s, k), i) <==> Alive(s, i))
    ensures !Alive(Kill(s, k), k) && Kill(s, k).slots[k].Some?
  {
  }

  // The kill pass makes zombies of exactly the marked processes that have not
  // asked for a delay.
  lemma {:induction false} KillExact(s: Sys, k: nat, i: nat)
    requires Shaped(s) && 1 <= k <= 9 && i < 9
    ensures SameFlags(s.slots[i], KillFrom(s, k).slots[i])
    ensures Alive(KillFrom(s, k), i) <==> Alive(s, i) && !(i >= k && Doomed(s, i))
    decreases 9 - k
  {
    hide Kill;
    if k < 9 {
      if Doomed(s, k) {
        KillFlags(s, k, i);
        KillExact(Kill(s, k), k + 1, i);
      } else {
        KillExact(s, k + 1, i);
      }
    }
  }

  // Ctrl+C kills the foreground process with its whole tree, however deep, and
  // nobody else.
  lemma TreeDies(s: Sys, i: nat)
    requires Good(s) && s.fgPid != 0 && Alive(s, i)
    ensures var t := KillFrom(TerminalInterrupt(s), 1);
            var p := s.slots[i].value;
            Alive(t, i) <==> p.deferred || !(p.interrupted || Under(s, p.pid, s.fgPid))
  {
    hide Walk, Under, KillFrom, ProcOk, Distinct;
    DescendantExact(s, i, s.fgPid);
    KillExact(TerminalInterrupt(s), 1, i);
  }

  // ---- whole runs ----

  // Between two traps the active process runs: it may leave anything in the
  // window and in its registers.
  datatype Move = Move(window: Image, saved: Context, event: Word, service: Service, events: seq<Word>)

  function Run(s: Sys, moves: seq<Move>): (r: Option<Sys>)
    requires Shaped(s)
    ensures r.Some? ==> Shaped(r.value)
    decreases |moves|
  {
    if moves == [] then Some(s)
    else
      var m := moves[0];
      match Dispatch(s.(window := m.window), m.saved, m.event, m.service, m.events)
      case None => None
      case Some(t) => Run(t, moves[1..])
  }

  // After boot there is init alone.
  function Booted(p: Proc, tty: Tty): Sys {
    Sys([None, Some(p), None, None, None, None, None, None, None], 1, 1, p.saved, tty, 0, 0)
  }

  lemma BootGood(p: Proc, tty: Tty)
    requires p.pid == 1 && p.father == 0 && p.state.Running? && p.blocked.NotBlocked? && RingOk(tty)
    ensures Good(Booted(p, tty)) && Runnable(Booted(p, tty), 1)
  {
  }

  // In every run from boot the invariant holds and a running process is active.
  lemma {:induction false} RunGood(s: Sys, moves: seq<Move>)
    requires Good(s) && Runnable(s, s.active) && Run(s, moves).Some?
    requires forall m | m in moves :: Answers(m.service)
    ensures Good(Run(s, moves).value) && Runnable(Run(s, moves).value, Run(s, moves).value.active)
    decreases |moves|
  {
    hide Dispatch, ProcOk, Distinct, RingOk;
    if moves != [] {
      var m := moves[0];
      var u := s.(window := m.window);
      SameTreeGood(s, u);
      DispatchGood(u, m.saved, m.event, m.service, m.events);
      RunGood(Dispatch(u, m.saved, m.event, m.service, m.events).value, moves[1..]);
    }
  }

  // Process p is not, or no longer, alive in slot i.
  ghost predicate Gone(s: Sys, i: nat, p: nat) {
    Alive(s, i) ==> s.slots[i].value.pid != p
  }

  // Who was not alive before a call is a new child.
  predicate Newborn(s: Sys, t: Sys, i: nat) {
    Alive(t, i) ==> t.slots[i].value.pid > s.nextPid && t.slots[i].value.blocked.NotBlocked?
  }

  lemma WaitGone(s: Sys, pid: int, status: Word, options: Word, i: nat)
    requires Shaped(s) && (status != 0 ==> UserRange(status, 4)) && !Alive(s, i)
    ensures !Alive(Wait(s, pid, status, options).0, i)
  {
    hide StoredWord, ChildAt, DeadChildAt;
  }

  lemma TtyReadGone(s: Sys, buf: Word, count: Word, i: nat)
    requires Shaped(s) && UserRange(buf, count) && i != s.active && !Alive(s, i)
    ensures !Alive(TtyRead(s, buf, count).0, i)
  {
    hide Unread, Stored, LineReady, FirstLine;
  }

  lemma PerformGone(s: Sys, nr: Word, a: Word, b: Word, c: Word, v: Service, i: nat)
    requires Shaped(s) && i != s.active && !Alive(s, i)
    ensures Newborn(s, Perform(s, nr, a, b, c, v).0, i)
  {
    hide Walk, Exit, TtyRead, Wait;
    if nr == 1 {
      ExitDead(s, a % 256 * 256, i);
    } else if nr == 3 && UserRange(b, c) {
      TtyReadGone(s, b, c, i);
    } else if nr == 7 && (b == 0 || UserRange(b, 4)) {
      WaitGone(s, Signed(a), b, c, i);
    }
  }

  lemma ServeGone(s: Sys, v: Service, i: nat)
    requires Shaped(s) && i != s.active && !Alive(s, i)
    ensures Newborn(s, Serve(s, v), i)
  {
    hide Perform, Exit;
    var x := Cur(s).context.regs;
    PerformGone(s, x[1], x[2], x[3], x[4], v, i);
    ExitDead(s, 2, i);
  }

  lemma DispatchGone(s: Sys, saved: Context, event: Word, v: Service, events: seq<Word>, i: nat, p: nat)
    requires Good(s) && Runnable(s, s.active) && Answers(v) && Dispatch(s, saved, event, v, events).Some?
    requires Gone(s, i, p) && p <= s.nextPid
    ensures Gone(Dispatch(s, saved, event, v, events).value, i, p)
  {
    hide Loop, Poll, Serve, ProcOk, Distinct, RingOk, Resumed;
    if i == s.active {
      DispatchCallerPid(s, saved, event, v, events);
    } else if Alive(s, i) {
      DispatchIsolates(s, saved, event, v, events, i);
      IsolatedPid(s, Dispatch(s, saved, event, v, events).value, i);
    } else {
      var a := SetCur(s, Cur(s).(context := saved));
      SameTreeGood(s, a);
      PollGood(a, event);
      var b := Poll(a, event);
      assert SameProc(a.slots[s.active], b.slots[s.active]);
      PollIsolated(a, event, i);
      ServeGood(b, v);
      LoopIsolated(Serve(b, v), saved.regs[1], events, i);
      IsolatedPid(Serve(b, v), Loop(Serve(b, v), saved.regs[1], events).value, i);
      if !Alive(b, i) { ServeGone(b, v, i); }
    }
  }

  lemma IsolatedPid(s: Sys, t: Sys, i: nat)
    requires Isolated(s, t, i)
    ensures Alive(t, i) ==> Alive(s, i) && t.slots[i].value.pid == s.slots[i].value.pid
  {
  }

  lemma {:induction false} RunGone(s: Sys, moves: seq<Move>, i: nat, p: nat)
    requires Good(s) && Runnable(s, s.active) && Run(s, moves).Some?
    requires forall m | m in moves :: Answers(m.service)
    requires Gone(s, i, p) && p <= s.nextPid
    ensures Gone(Run(s, moves).value, i, p)
    decreases |moves|
  {
    hide Dispatch, ProcOk, Distinct, RingOk, Has;
    if moves != [] {
      var m := moves[0];
      var u := s.(window := m.window);
      SameTreeGood(s, u);
      DispatchGood(u, m.saved, m.event, m.service, m.events);
      DispatchGone(u, m.saved, m.event, m.service, m.events, i, p);
      DispatchPids(u, m.saved, m.event, m.service, m.events);
      RunGone(Dispatch(u, m.saved, m.event, m.service, m.events).value, moves[1..], i, p);
    }
  }

  // Slot i does not run: it is not active at any trap of the run.
  predicate Idle(s: Sys, moves: seq<Move>, i: nat)
    requires Shaped(s)
    decreases |moves|
  {
    moves == [] ||
    (s.active != i &&
     var m := moves[0];
     match Dispatch(s.(window := m.window), m.saved, m.event, m.service, m.events)
     case None => true
     case Some(t) => Idle(t, moves[1..], i))
  }

  // Over any run in which a process does not itself run, however many others
  // do, its memory and registers stay as they are, but for the completion of
  // its own blocked call, as long as it lives.
  lemma {:induction false} RunIsolates(s: Sys, moves: seq<Move>, i: nat)
    requires Good(s) && Runnable(s, s.active) && Run(s, moves).Some? && Idle(s, moves, i) && Alive(s, i)
    requires forall m | m in moves :: Answers(m.service)
    ensures var t := Run(s, moves).value;
            Alive(t, i) && t.slots[i].value.pid == s.slots[i].value.pid ==> Untouched(s, t, i) || Resumed(s, t, i)
    decreases |moves|
  {
    hide Dispatch, ProcOk, Distinct, RingOk, Resumed;
    if moves != [] {
      var m := moves[0];
      var u := s.(window := m.window);
      SameTreeGood(s, u);
      var t := Dispatch(u, m.saved, m.event, m.service, m.events).value;
      DispatchGood(u, m.saved, m.event, m.service, m.events);
      DispatchIsolates(u, m.saved, m.event, m.service, m.events, i);
      DispatchPids(u, m.saved, m.event, m.service, m.events);
      RunStart(s, u, t, i);
      if Alive(t, i) {
        RunIsolates(t, moves[1..], i);
        RunJoin(s, t, Run(t, moves[1..]).value, i);
      } else {
        PidsOld(s, i);
        RunGone(t, moves[1..], i, s.slots[i].value.pid);
      }
    }
  }

  lemma RunStart(s: Sys, u: Sys, t: Sys, i: nat)
    requires u == s.(window := u.window) && i != s.active && Isolated(u, t, i)
    ensures Isolated(s, t, i)
  {
  }

  lemma RunJoin(s: Sys, t: Sys, u: Sys, i: nat)
    requires Alive(s, i) && Alive(t, i) && Isolated(s, t, i)
    requires Alive(u, i) && u.slots[i].value.pid == t.slots[i].value.pid ==> Untouched(t, u, i) || Resumed(t, u, i)
    ensures Alive(u, i) && u.slots[i].value.pid == s.slots[i].value.pid ==> Untouched(s, u, i) || Resumed(s, u, i)
  {
  }

  lemma PidsOld(s: Sys, i: nat)
    requires Good(s) && Alive(s, i)
    ensures s.slots[i].value.pid <= s.nextPid
  {
    hide Distinct, RingOk, FatherOk;
    assert ProcOk(s, i);
  }

  predicate Has(s: Sys, pid: nat) {
    exists j | 0 <= j < |s.slots| :: s.slots[j].Some? && s.slots[j].value.pid == pid
  }

  // No pid up to s's newest appears in t unless it was there already.
  ghost predicate NoReturn(s: Sys, t: Sys) {
    s.nextPid <= t.nextPid && forall p: nat | p <= s.nextPid && Has(t, p) :: Has(s, p)
  }

  lemma SameTreePids(s: Sys, t: Sys)
    requires SameTree(s, t)
    ensures NoReturn(s, t)
  {
    forall p: nat | Has(t, p) ensures Has(s, p) {
      var j :| 0 <= j < |t.slots| && t.slots[j].Some? && t.slots[j].value.pid == p;
      assert SameProc(s.slots[j], t.slots[j]);
    }
  }

  // Slot by slot, the same pid or nothing.
  lemma FewerPids(s: Sys, t: Sys)
    requires |s.slots| == |t.slots| && s.nextPid == t.nextPid
    requires forall j | 0 <= j < |t.slots| && t.slots[j].Some? :: s.slots[j].Some? && s.slots[j].value.pid == t.slots[j].value.pid
    ensures NoReturn(s, t)
  {
    forall p: nat | Has(t, p) ensures Has(s, p) {
      var j :| 0 <= j < |t.slots| && t.slots[j].Some? && t.slots[j].value.pid == p;
      assert s.slots[j].value.pid == p;
    }
  }

  // What Serve puts on top of a call keeps every pid where it is.
  lemma PidsUp(s: Sys, t: Sys, p: Proc)
    requires NoReturn(s, t) && Shaped(t) && p.pid == Cur(t).pid
    ensures NoReturn(s, SetCur(t, p))
  {
    hide Has;
    FewerPids(t, SetCur(t, p));
  }

  lemma PerformPids(s: Sys, nr: Word, a: Word, b: Word, c: Word, v: Service)
    requires Shaped(s)
    ensures NoReturn(s, Perform(s, nr, a, b, c, v).0) && Cur(Perform(s, nr, a, b, c, v).0).pid == Cur(s).pid
  {
    hide Walk, Stored, StoredWord, Unread, Has, Result, LineReady, ChildAt, DeadChildAt;
    var t := Perform(s, nr, a, b, c, v).0;
    if nr == 2 { ForkPids(s); } else { FewerPids(s, t); }
  }

  lemma ForkPids(s: Sys)
    requires Shaped(s)
    ensures NoReturn(s, Fork(s).0)
  {
    hide Has;
    var t := Fork(s).0;
    if t == s { FewerPids(s, t); } else { NewPid(s, t); }
  }

  lemma ExitPids(s: Sys, status: nat)
    requires Shaped(s)
    ensures NoReturn(s, Exit(s, status)) && Cur(Exit(s, status)).pid == Cur(s).pid
  {
    hide Has;
    FewerPids(s, Exit(s, status));
  }

  lemma ServePids(s: Sys, v: Service)
    requires Shaped(s)
    ensures NoReturn(s, Serve(s, v))
  {
    hide Perform, Exit, NoReturn;
    var x := Cur(s).context.regs;
    var t := Perform(s, x[1], x[2], x[3], x[4], v).0;
    PerformPids(s, x[1], x[2], x[3], x[4], v);
    ExitPids(s, 2);
    var u := Serve(s, v);
    if Cur(s).interrupted && !Cur(s).deferred {
      PidsUp(s, Exit(s, 2), Cur(u));
    } else if u != t {
      PidsUp(s, t, Cur(u));
    }
  }

  lemma NewPid(s: Sys, t: Sys)
    requires Shaped(s) && Shaped(t) && t.nextPid > s.nextPid
    requires forall j | 0 <= j < 9 && t.slots[j].Some? && t.slots[j].value.pid <= s.nextPid ::
               s.slots[j].Some? && s.slots[j].value.pid == t.slots[j].value.pid
    ensures NoReturn(s, t)
  {
    forall p: nat | p <= s.nextPid && Has(t, p) ensures Has(s, p) {
      var j :| 0 <= j < |t.slots| && t.slots[j].Some? && t.slots[j].value.pid == p;
      assert s.slots[j].value.pid == p;
    }
  }

  lemma KillPids(s: Sys, k: nat)
    requires Shaped(s) && 1 <= k <= 8 && s.slots[k].Some?
    ensures NoReturn(s, Kill(s, k))
  {
    FewerPids(s, Kill(s, k));
  }

  lemma {:induction false} KillFromPids(s: Sys, k: nat)
    requires Shaped(s) && 1 <= k <= 9
    ensures NoReturn(s, KillFrom(s, k))
    decreases 9 - k
  {
    hide Kill, Has;
    if k < 9 {
      if Doomed(s, k) {
        KillPids(s, k);
        KillFromPids(Kill(s, k), k + 1);
      } else {
        KillFromPids(s, k + 1);
      }
    }
  }

  lemma ReplayPids(s: Sys, k: nat)
    requires Shaped(s) && 1 <= k <= 8 && s.slots[k].Some?
    ensures NoReturn(s, Replay(s, k))
  {
    hide Unread, Stored, StoredWord;
    FewerPids(s, Replay(s, k));
  }

  lemma {:induction false} ReplayFromPids(s: Sys, k: nat)
    requires Shaped(s) && 1 <= k <= 9
    ensures NoReturn(s, ReplayFrom(s, k))
    decreases 9 - k
  {
    hide Replay, Has, Ready;
    if k < 9 {
      if s.slots[k].Some? && Ready(s, k) {
        ReplayPids(s, k);
        ReplayFromPids(Replay(s, k), k + 1);
      } else {
        ReplayFromPids(s, k + 1);
      }
    }
  }

  lemma {:induction false} LoopPids(s: Sys, nr: Word, events: seq<Word>)
    requires Good(s) && Loop(s, nr, events).Some?
    ensures NoReturn(s, Loop(s, nr, events).value)
    decreases |events|
  {
    hide KillFrom, ReplayFrom, Activate, Poll, NextRunnable, ProcOk, Distinct, Has;
    var t := ReplayFrom(KillFrom(s, 1), 1);
    KillFromGood(s, 1);
    ReplayFromGood(KillFrom(s, 1), 1);
    KillFromPids(s, 1);
    ReplayFromPids(KillFrom(s, 1), 1);
    var k := Choose(t, nr);
    if k > 0 {
      ActivateTree(t, k);
      SameTreePids(t, Activate(t, k));
    } else if events != [] {
      PollGood(t, events[0]);
      SameTreePids(t, Poll(t, events[0]));
      LoopPids(Poll(t, events[0]), nr, events[1..]);
    }
  }

  lemma DispatchPids(s: Sys, saved: Context, event: Word, v: Service, events: seq<Word>)
    requires Good(s) && Runnable(s, s.active) && Answers(v) && Dispatch(s, saved, event, v, events).Some?
    ensures NoReturn(s, Dispatch(s, saved, event, v, events).value)
  {
    hide Loop, Poll, Serve, ProcOk, Distinct, Has;
    var a := SetCur(s, Cur(s).(context := saved));
    SameTreeGood(s, a);
    SameTreePids(s, a);
    PollGood(a, event);
    var b := Poll(a, event);
    SameTreePids(a, b);
    assert SameProc(a.slots[s.active], b.slots[s.active]);
    ServeGood(b, v);
    ServePids(b, v);
    LoopPids(Serve(b, v), saved.regs[1], events);
  }

  // A collected process never comes back, so its status is collected once.
  lemma {:induction false} GoneForGood(s: Sys, moves: seq<Move>)
    requires Good(s) && Runnable(s, s.active) && Run(s, moves).Some?
    requires forall m | m in moves :: Answers(m.service)
    ensures NoReturn(s, Run(s, moves).value)
    decreases |moves|
  {
    hide Dispatch, ProcOk, Distinct, RingOk, Has;
    if moves != [] {
      var m := moves[0];
      var u := s.(window := m.window);
      SameTreeGood(s, u);
      SameTreePids(s, u);
      DispatchGood(u, m.saved, m.event, m.service, m.events);
      DispatchPids(u, m.saved, m.event, m.service, m.events);
      GoneForGood(Dispatch(u, m.saved, m.event, m.service, m.events).value, moves[1..]);
    }
  }
}
