// What keys do to processes, and what holds of each process's break over runs.
module Interrupts {
  import opened Words
  import opened Process
  import opened Tree
  import opened Isolation

  // ---- keys ----

  // A letter key gives the small letter, and the capital with shift held.
  lemma LetterKeys(i: nat, key: Byte, shift: bool)
    requires i < 26 && (key == 65 + i || key == 97 + i)
    ensures CharOf(key, shift) == if shift then 'A' as int + i else 'a' as int + i
  {
  }

  const PRESS: Word := 256

  predicate Modifier(key: Byte) {
    key in {16, 17, 20, 21}
  }

  // Each shift and control key is down from its press to its release.
  lemma ModifiersHeld(s: Sys, key: Byte, press: bool)
    requires Shaped(s) && Modifier(key)
    ensures var t := Poll(s, key + if press then PRESS else 0);
            && t == s.(tty := s.tty.(shifts := t.tty.shifts, controls := t.tty.controls))
            && t.tty.shifts.0 == (if key == 16 then press else s.tty.shifts.0) && t.tty.shifts.1 == (if key == 20 then press else s.tty.shifts.1)
            && t.tty.controls.0 == (if key == 17 then press else s.tty.controls.0) && t.tty.controls.1 == (if key == 21 then press else s.tty.controls.1)
  {
  }

  lemma EventParts(key: Byte)
    ensures (PRESS + key) % 256 == key && (PRESS + key) / 256 % 2 == 1 && key % 256 == key && key / 256 % 2 == 0
  {
  }

  // Any other key types its character when pressed with no control key down, and
  // nothing when released.
  lemma KeyTypes(s: Sys, key: Byte)
    requires Good(s) && !Modifier(key) && key != 3
    ensures Poll(s, key) == s
    ensures var t := Poll(s, PRESS + key);
            !s.tty.controls.0 && !s.tty.controls.1 ==>
              t.slots == s.slots && t.window == s.window && Unread(t.tty) == Edited(Unread(s.tty), CharOf(key, s.tty.shifts.0 || s.tty.shifts.1))
  {
    hide Typed, CharOf, Edited, Unread, TerminalInterrupt, ProcOk, Distinct;
    EventParts(key);
    TypedQueue(s.tty, CharOf(key, s.tty.shifts.0 || s.tty.shifts.1));
  }

  // ---- Ctrl+C ----

  // C pressed while a control key is down interrupts, and so does the key that
  // stands for both.
  lemma ControlC(s: Sys, control: Byte, c: Byte)
    requires Shaped(s) && control in {17, 21} && c in {67, 99}
    ensures var t := Poll(s, PRESS + control);
            t.slots == s.slots && Poll(t, PRESS + c) == TerminalInterrupt(t)
    ensures Poll(s, PRESS + 3) == TerminalInterrupt(s)
  {
    hide TerminalInterrupt, Typed, CharOf;
  }

  // With nobody in the foreground Ctrl+C marks no process to be killed: it makes
  // the next terminal read of the terminal's owner fail, once, and what was
  // typed is gone.
  lemma OwnerCancelled(s: Sys, i: nat, buf: Word, count: Word)
    requires Good(s) && s.fgPid == 0 && 1 <= i <= 8 && s.slots[i].Some? && s.slots[i].value.pid == s.fgOwner && UserRange(buf, count)
    ensures var t := TerminalInterrupt(s);
            && Unread(t.tty) == [] && (forall j | 0 <= j < 9 && s.slots[j].Some? :: t.slots[j].Some? && t.slots[j].value.interrupted == s.slots[j].value.interrupted)
            && var u := Activate(t, i);
               && TtyRead(u, buf, count) == (SetCur(u, Cur(u).(cancelled := false)), -EINTR)
               && !Cur(TtyRead(u, buf, count).0).cancelled
  {
    hide ProcOk, Distinct, Walk, FatherOk;
    var t := TerminalInterrupt(s);
    assert t.slots[i] == Marked(s, i);
    ActivateFlags(t, i);
  }

  // A Ctrl+C that came before the shell could name its child in the foreground
  // reaches the child's whole tree when it does, and nobody else.
  lemma LateInterrupt(s: Sys, a: Word, i: nat)
    requires Good(s) && a != 0 && i < 9 && s.slots[i].Some?
    ensures var (t, r) := SetForeground(s, a);
            var child := exists j | 1 <= j < 9 :: s.slots[j].Some? && s.slots[j].value.pid == a && s.slots[j].value.father == Cur(s).pid;
            && r == (if child then 0 else -ECHILD) && (!child ==> t == s) && t.slots[i].Some?
            && (t.slots[i].value.interrupted <==> s.slots[i].value.interrupted || (child && Cur(s).cancelled && Under(s, s.slots[i].value.pid, a)))
            && (child ==> t.fgPid == a && t.fgOwner == Cur(s).pid && !Cur(t).cancelled)
  {
    hide ProcOk, Distinct, RingOk, Walk, Under;
    var u := SetCur(s.(fgOwner := Cur(s).pid, fgPid := a), Cur(s).(cancelled := false));
    assert SameProc(s.slots[i], u.slots[i]);
    SameTreeGood(s, u);
    DescendantExact(u, i, a);
    UnderSame(s, u, s.slots[i].value.pid, a);
  }

  lemma SlotSame(s: Sys, t: Sys, pid: nat, from: nat)
    requires |s.slots| == 9 && SameTree(s, t) && from <= 9
    ensures SlotOf(s, pid, from) == SlotOf(t, pid, from)
    decreases 9 - from
  {
    if from < 9 {
      assert SameProc(s.slots[from], t.slots[from]);
      SlotSame(s, t, pid, from + 1);
    }
  }

  lemma {:induction false} UnderSame(s: Sys, t: Sys, pid: nat, root: nat)
    requires |s.slots| == 9 && SameTree(s, t)
    ensures Under(s, pid, root) == Under(t, pid, root)
    decreases pid
  {
    SlotSame(s, t, pid, 1);
    if pid > 1 && pid != root {
      var i := SlotOf(s, pid, 1);
      if i < 9 {
        assert SameProc(s.slots[i], t.slots[i]);
        if s.slots[i].value.father < pid { UnderSame(s, t, s.slots[i].value.father, root); }
      }
    }
  }

  // A process that has asked for a delay learns of the interrupt and is not
  // killed, but can neither fork nor publish a file from then on.
  lemma Deferred(s: Sys, a: Word, b: Word, c: Word, v: Service)
    requires Good(s) && Runnable(s, s.active) && a != 0
    ensures var (t, r) := Perform(s, 104, a, b, c, v);
            && r == (if Cur(s).interrupted then 1 else 0) && !Doomed(t, t.active) && SameTree(s, t)
            && (Cur(t).interrupted ==> Perform(t, 2, a, b, c, v) == (t, -EINTR) && Perform(t, 38, a, b, c, v) == (t, -EINTR))
  {
    hide ProcOk, Distinct, RingOk, Exit, TtyRead, Wait, SetForeground;
  }

  // ---- breaks ----

  // The break lies between the end of the data and the stack's reserve.
  predicate Bounded(p: Proc) {
    p.endData <= p.brk <= p.startStack
  }

  predicate SlotBounded(s: Sys, j: nat) {
    j < |s.slots| && s.slots[j].Some? ==> Bounded(s.slots[j].value)
  }

  ghost predicate AllBounded(s: Sys) {
    forall j | 0 <= j < 9 :: SlotBounded(s, j)
  }

  predicate Reserved(v: Service) {
    v.program.Some? ==> v.program.value.endData <= v.program.value.startStack
  }

  lemma ActivateBounded(s: Sys, k: nat)
    requires Shaped(s) && 1 <= k <= 8 && s.slots[k].Some? && AllBounded(s)
    ensures AllBounded(Activate(s, k))
  {
    forall j | 0 <= j < 9 ensures SlotBounded(Activate(s, k), j) { assert SlotBounded(s, j); }
  }

  lemma SetCurBounded(s: Sys, p: Proc)
    requires Shaped(s) && AllBounded(s) && Bounded(p)
    ensures AllBounded(SetCur(s, p))
  {
    forall j | 0 <= j < 9 ensures SlotBounded(SetCur(s, p), j) { assert SlotBounded(s, j); }
  }

  lemma CurBounded(s: Sys)
    requires Shaped(s) && AllBounded(s)
    ensures Bounded(Cur(s))
  {
    assert SlotBounded(s, s.active);
  }

  lemma ExitBounded(s: Sys, status: nat)
    requires Shaped(s) && AllBounded(s)
    ensures AllBounded(Exit(s, status))
  {
    forall j | 0 <= j < 9 ensures SlotBounded(Exit(s, status), j) { assert SlotBounded(s, j); }
  }

  lemma PollBounded(s: Sys, event: Word)
    requires Shaped(s) && AllBounded(s)
    ensures AllBounded(Poll(s, event))
  {
    hide Walk, Typed, CharOf;
    forall j | 0 <= j < 9 ensures SlotBounded(Poll(s, event), j) { assert SlotBounded(s, j); }
  }

  lemma {:induction false} KillFromBounded(s: Sys, k: nat)
    requires Shaped(s) && 1 <= k <= 9 && AllBounded(s)
    ensures AllBounded(KillFrom(s, k))
    decreases 9 - k
  {
    hide Activate, Exit, AllBounded;
    if k < 9 {
      if Doomed(s, k) {
        ActivateBounded(s, k);
        var t := Activate(s, k);
        CurBounded(t);
        SetCurBounded(t, Cur(t).(blocked := NotBlocked));
        ExitBounded(SetCur(t, Cur(t).(blocked := NotBlocked)), 2);
        KillFromBounded(Kill(s, k), k + 1);
      } else {
        KillFromBounded(s, k + 1);
      }
    }
  }

  lemma TtyReadBounded(s: Sys, buf: Word, count: Word)
    requires Shaped(s) && UserRange(buf, count) && AllBounded(s)
    ensures AllBounded(TtyRead(s, buf, count).0)
  {
    hide Unread, Stored, LineReady, FirstLine;
    forall j | 0 <= j < 9 ensures SlotBounded(TtyRead(s, buf, count).0, j) { assert SlotBounded(s, j); }
  }

  lemma WaitBounded(s: Sys, pid: int, status: Word, options: Word)
    requires Shaped(s) && (status != 0 ==> UserRange(status, 4)) && AllBounded(s)
    ensures AllBounded(Wait(s, pid, status, options).0)
  {
    hide StoredWord, ChildAt, DeadChildAt;
    forall j | 0 <= j < 9 ensures SlotBounded(Wait(s, pid, status, options).0, j) { assert SlotBounded(s, j); }
  }

  lemma RetryBounded(s: Sys)
    requires Shaped(s) && AllBounded(s)
    ensures AllBounded(Retry(s).0)
  {
    hide TtyRead, Wait, AllBounded;
    match Cur(s).blocked
    case OnRead(buf, count) => if UserRange(buf, count) { TtyReadBounded(s, buf, count); }
    case OnWait(child, status) => if status == 0 || UserRange(status, 4) { WaitBounded(s, child, status, 0); }
    case NotBlocked =>
  }

  lemma {:induction false} ReplayFromBounded(s: Sys, k: nat)
    requires Shaped(s) && 1 <= k <= 9 && AllBounded(s)
    ensures AllBounded(ReplayFrom(s, k))
    decreases 9 - k
  {
    hide Activate, Retry, AllBounded, Ready;
    if k < 9 {
      if s.slots[k].Some? && Ready(s, k) {
        ActivateBounded(s, k);
        RetryBounded(Activate(s, k));
        var t := Retry(Activate(s, k)).0;
        CurBounded(t);
        SetCurBounded(t, Result(Cur(t), Retry(Activate(s, k)).1).(blocked := NotBlocked, state := Running));
        ReplayFromBounded(Replay(s, k), k + 1);
      } else {
        ReplayFromBounded(s, k + 1);
      }
    }
  }

  lemma {:induction false} LoopBounded(s: Sys, nr: Word, events: seq<Word>)
    requires Shaped(s) && AllBounded(s) && Loop(s, nr, events).Some?
    ensures AllBounded(Loop(s, nr, events).value)
    decreases |events|
  {
    hide KillFrom, ReplayFrom, Activate, Poll, NextRunnable, AllBounded;
    var r := KillFrom(s, 1);
    KillFromBounded(s, 1);
    var t := ReplayFrom(r, 1);
    ReplayFromBounded(r, 1);
    var k := Choose(t, nr);
    if k > 0 {
      ActivateBounded(t, k);
    } else if events != [] {
      PollBounded(t, events[0]);
      LoopBounded(Poll(t, events[0]), nr, events[1..]);
    }
  }

  lemma ForkBounded(s: Sys)
    requires Shaped(s) && AllBounded(s)
    ensures AllBounded(Fork(s).0)
  {
    CurBounded(s);
    forall j | 0 <= j < 9 ensures SlotBounded(Fork(s).0, j) { assert SlotBounded(s, j); }
  }

  lemma PerformBounded(s: Sys, nr: Word, a: Word, b: Word, c: Word, v: Service)
    requires Shaped(s) && AllBounded(s) && Reserved(v)
    ensures AllBounded(Perform(s, nr, a, b, c, v).0)
  {
    hide Exit, Fork, TtyRead, Wait, Walk;
    CurBounded(s);
    var t := Perform(s, nr, a, b, c, v).0;
    if nr == 1 {
      ExitBounded(s, a % 256 * 256);
    } else if nr == 2 {
      ForkBounded(s);
    } else if nr == 3 && UserRange(b, c) && v.file.Console? {
      TtyReadBounded(s, b, c);
    } else if nr == 7 && (b == 0 || UserRange(b, 4)) {
      WaitBounded(s, Signed(a), b, c);
    } else {
      forall j | 0 <= j < 9 ensures SlotBounded(t, j) { assert SlotBounded(s, j); }
    }
  }

  lemma ServeBounded(s: Sys, v: Service)
    requires Shaped(s) && AllBounded(s) && Reserved(v)
    ensures AllBounded(Serve(s, v))
  {
    hide Perform, Exit, AllBounded;
    var x := Cur(s).context.regs;
    PerformBounded(s, x[1], x[2], x[3], x[4], v);
    ExitBounded(s, 2);
    var t := Perform(s, x[1], x[2], x[3], x[4], v).0;
    CurBounded(t);
    CurBounded(Exit(s, 2));
    var u := Serve(s, v);
    if Cur(s).interrupted && !Cur(s).deferred {
      SetCurBounded(Exit(s, 2), Cur(u));
    } else if u != t {
      SetCurBounded(t, Cur(u));
    }
  }

  // Over every run the break of every process stays between the end of its data
  // and its stack, if that is so of the programs exec starts.
  lemma {:induction false} RunBounded(s: Sys, moves: seq<Move>)
    requires Shaped(s) && AllBounded(s) && Run(s, moves).Some?
    requires forall m | m in moves :: Reserved(m.service)
    ensures AllBounded(Run(s, moves).value)
    decreases |moves|
  {
    hide Serve, Poll, Loop, Reserved;
    if moves != [] {
      var m := moves[0];
      var u := s.(window := m.window);
      forall j | 0 <= j < 9 ensures SlotBounded(u, j) { assert SlotBounded(s, j); }
      var a := SetCur(u, Cur(u).(context := m.saved));
      CurBounded(u);
      SetCurBounded(u, Cur(u).(context := m.saved));
      PollBounded(a, m.event);
      ServeBounded(Poll(a, m.event), m.service);
      LoopBounded(Serve(Poll(a, m.event), m.service), m.saved.regs[1], m.events);
      RunBounded(Dispatch(u, m.saved, m.event, m.service, m.events).value, moves[1..]);
    }
  }
}
