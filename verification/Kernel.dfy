// The dispatcher's operations as they run: the slot table is an array updated
// in place, the loops scan it slot by slot.  Every method does exactly what
// the function of module Process with its name says.
module Kernel {
  import opened Words
  import P = Process
  import opened Tree
  import opened Isolation

  // ---- the walk depends on pids and fathers only ----

  predicate SameKin(a: Option<P.Proc>, b: Option<P.Proc>) {
    (a.Some? <==> b.Some?) && (a.Some? ==> a.value.pid == b.value.pid && a.value.father == b.value.father)
  }

  ghost predicate SameKins(s: P.Sys, t: P.Sys) {
    |s.slots| == 9 == |t.slots| && forall i | 0 <= i < 9 :: SameKin(s.slots[i], t.slots[i])
  }

  lemma {:induction false} SlotSame(s: P.Sys, t: P.Sys, pid: nat, from: nat)
    requires SameKins(s, t) && from <= 9
    ensures P.SlotOf(s, pid, from) == P.SlotOf(t, pid, from)
    decreases 9 - from
  {
    if from < 9 {
      assert SameKin(s.slots[from], t.slots[from]);
      SlotSame(s, t, pid, from + 1);
    }
  }

  lemma {:induction false} WalkSame(s: P.Sys, t: P.Sys, pid: nat, root: nat, depth: nat)
    requires SameKins(s, t)
    ensures P.Walk(s, pid, root, depth) == P.Walk(t, pid, root, depth)
    decreases depth
  {
    if depth > 0 && pid > 1 && pid != root {
      SlotSame(s, t, pid, 1);
      var i := P.SlotOf(s, pid, 1);
      if i < 9 {
        assert SameKin(s.slots[i], t.slots[i]);
        WalkSame(s, t, s.slots[i].value.father, root, depth - 1);
      }
    }
  }

  // ---- storing one byte after another ----

  lemma StoredNext(m: P.Image, addr: Word, bytes: seq<Byte>, c: Byte)
    requires P.UserRange(addr, |bytes| + 1)
    ensures P.Stored(P.Stored(m, addr, bytes), addr + |bytes|, [c]) == P.Stored(m, addr, bytes + [c])
  {
  }

  lemma {:induction false} FirstLineSplit(a: seq<Byte>, q: seq<Byte>)
    requires P.NEWLINE !in a
    ensures P.FirstLine(a + q) == a + P.FirstLine(q)
  {
    if a == [] {
      assert a + q == q;
    } else {
      assert (a + q)[1..] == a[1..] + q;
      FirstLineSplit(a[1..], q);
    }
  }

  class Kernel {
    const slots: array<Option<P.Proc>>
    var active: nat
    var nextPid: nat
    var window: P.Image
    var tty: P.Tty
    var fgPid: nat
    var fgOwner: nat

    ghost function View(): P.Sys
      reads this, slots
    {
      P.Sys(slots[..], active, nextPid, window, tty, fgPid, fgOwner)
    }

    ghost predicate Valid()
      reads this, slots
    {
      slots.Length == 9 && P.Shaped(View())
    }

    constructor (init: P.Proc, tty: P.Tty)
      requires init.pid == 1
      ensures Valid() && View() == Booted(init, tty)
    {
      slots := new Option<P.Proc>[9](i => if i == 1 then Some(init) else None);
      active, nextPid, window, fgPid, fgOwner := 1, 1, init.saved, 0, 0;
      this.tty := tty;
    }

    function Current(): P.Proc
      requires Valid()
      reads this, slots
    {
      slots[active].value
    }

    method SetCurrent(p: P.Proc)
      requires Valid()
      modifies slots
      ensures Valid() && View() == P.SetCur(old(View()), p)
    {
      slots[active] := Some(p);
    }

    method Activate(k: nat)
      requires Valid() && 1 <= k <= 8 && slots[k].Some?
      modifies this, slots
      ensures Valid() && View() == P.Activate(old(View()), k)
    {
      if k == active { return; }
      if !Current().state.Zombie? {
        slots[active] := Some(Current().(saved := window));
      }
      window := slots[k].value.saved;
      active := k;
    }

    // ---- the tree ----

    method FindPid(pid: nat) returns (i: nat)
      requires Valid()
      ensures i == P.SlotOf(View(), pid, 1)
    {
      i := 1;
      while i < 9
        invariant 1 <= i <= 9 && P.SlotOf(View(), pid, i) == P.SlotOf(View(), pid, 1)
      {
        if slots[i].Some? && slots[i].value.pid == pid { return; }
        i := i + 1;
      }
    }

    method Descendant(i: nat, root: nat) returns (yes: bool)
      requires Valid() && i < 9 && slots[i].Some?
      ensures yes == P.Descendant(View(), i, root)
    {
      var pid := slots[i].value.pid;
      var depth := 0;
      while depth < 9 && pid > 1
        invariant 0 <= depth <= 9
        invariant P.Walk(View(), pid, root, 9 - depth) == P.Walk(View(), slots[i].value.pid, root, 9)
        decreases 9 - depth
      {
        if pid == root { return true; }
        var j := FindPid(pid);
        if j == 9 { return false; }
        pid := slots[j].value.father;
        depth := depth + 1;
      }
      yes := false;
    }

    method ExitCurrent(status: nat)
      requires Valid()
      modifies slots
      ensures Valid() && View() == P.Exit(old(View()), status)
    {
      var me := Current();
      slots[active] := Some(me.(state := P.Zombie, exitCode := status));
      var i := 1;
      ghost var t := P.Exit(old(View()), status);
      while i < 9
        invariant 1 <= i <= 9 && slots[0].None?
        invariant forall j | 1 <= j < i :: slots[j] == t.slots[j]
        invariant forall j | i <= j < 9 :: slots[j] == (if j == active then Some(me.(state := P.Zombie, exitCode := status)) else old(slots[j]))
      {
        if slots[i].Some? && slots[i].value.father == me.pid {
          slots[i] := Some(slots[i].value.(father := 1));
        }
        i := i + 1;
      }
      assert slots[..] == t.slots;
    }

    method ForkCurrent() returns (r: int)
      requires Valid()
      modifies this, slots
      ensures Valid() && (View(), r) == P.Fork(old(View()))
    {
      var p := Current();
      if p.deferred && p.interrupted { return -P.EINTR; }
      var k := 1;
      while k < 9 && slots[k].Some?
        invariant 1 <= k <= 9 && P.FreeSlot(View(), k) == P.FreeSlot(View(), 1)
      {
        k := k + 1;
      }
      if k == 9 { return -P.EAGAIN; }
      nextPid := nextPid + 1;
      slots[k] := Some(P.Result(p, 0).(pid := nextPid, father := p.pid, state := P.Running, exitCode := 0, saved := window,
                                       blocked := P.NotBlocked, interrupted := false, deferred := false, cancelled := false));
      r := nextPid;
    }

    method WaitCurrent(pid: int, status: Word, options: Word) returns (r: int)
      requires Valid() && (status != 0 ==> P.UserRange(status, 4))
      modifies this, slots
      ensures Valid() && (View(), r) == P.Wait(old(View()), pid, status, options)
    {
      hide P.Stored, P.StoredWord;
      if pid != -1 && pid <= 0 { return -P.EINVAL; }
      if options > 1 { return -P.EINVAL; }
      var me := Current().pid;
      var found, i := false, 1;
      ghost var s := View();
      while i < 9
        invariant 1 <= i <= 9 && P.DeadChild(s, me, pid, i) == P.DeadChild(s, me, pid, 1)
        invariant found <==> exists j | 1 <= j < i :: j != s.active && P.ChildAt(s, j, me, pid)
      {
        if slots[i].Some? && i != active && slots[i].value.father == me && (pid == -1 || pid == slots[i].value.pid) {
          assert P.ChildAt(s, i, me, pid);
          found := true;
          if slots[i].value.state.Zombie? {
            assert P.DeadChild(s, me, pid, 1) == i;
            if status != 0 { window := P.StoredWord(window, status, Wrap(slots[i].value.exitCode)); }
            r := slots[i].value.pid;
            slots[i] := None;
            return;
          }
        }
        i := i + 1;
      }
      r := if !found then -P.ECHILD else if options == 1 then 0 else -P.EAGAIN;
    }

    method WaitReady(k: nat, pid: int) returns (yes: bool)
      requires Valid() && k < 9 && slots[k].Some?
      ensures yes == P.WaitReady(View(), k, pid)
    {
      var me := slots[k].value.pid;
      var found, i := false, 1;
      while i < 9
        invariant 1 <= i <= 9
        invariant found <==> exists j | 1 <= j < i :: P.ChildAt(View(), j, me, pid)
        invariant !exists j | 1 <= j < i :: P.DeadChildAt(View(), j, me, pid)
      {
        if slots[i].Some? && slots[i].value.father == me && (pid == -1 || pid == slots[i].value.pid) {
          assert P.ChildAt(View(), i, me, pid);
          found := true;
          if slots[i].value.state.Zombie? {
            assert P.DeadChildAt(View(), i, me, pid);
            return true;
          }
        }
        i := i + 1;
      }
      yes := !found;
    }

    // ---- the terminal ----

    method LineReady() returns (yes: bool)
      ensures yes == P.LineReady(tty)
    {
      var i := tty.tail;
      while i < tty.head
        invariant tty.tail <= i && (i <= tty.head || tty.head < tty.tail)
        invariant forall j | tty.tail <= j < i :: tty.ring[j % 1024] != P.NEWLINE
        decreases tty.head - i
      {
        if tty.ring[i % 1024] == P.NEWLINE {
          assert P.Unread(tty)[i - tty.tail] == P.NEWLINE;
          return true;
        }
        i := i + 1;
      }
      yes := false;
    }

    method TtyRead(buf: Word, count: Word) returns (r: int)
      requires Valid() && P.UserRange(buf, count) && P.RingOk(tty)
      modifies this, slots
      ensures Valid() && (View(), r) == P.TtyRead(old(View()), buf, count)
    {
      hide P.Unread, P.Stored, P.FirstLine, P.LineReady;
      if Current().cancelled {
        SetCurrent(Current().(cancelled := false));
        return -P.EINTR;
      }
      if count == 0 { return 0; }
      var ready := LineReady();
      if !ready { return -P.EAGAIN; }
      r := TakeLine(buf, count);
    }

    // Copy out of the ring until the buffer is full or a newline is copied.
    method TakeLine(buf: Word, count: Word) returns (n: nat)
      requires P.UserRange(buf, count) && P.RingOk(tty)
      modifies this`window, this`tty
      ensures var line := P.FirstLine(P.Unread(old(tty)));
              var got := if |line| <= count then line else line[..count];
              n == |got| && tty == old(tty).(tail := old(tty).tail + n) && window == P.Stored(old(window), buf, got)
    {
      hide P.Unread, P.Stored, P.FirstLine;
      n := 0;
      ghost var rd: seq<Byte> := [];
      ghost var q := P.Unread(tty);
      StoredNone(window, buf);
      var done := false;
      while n < count && tty.tail < tty.head && !done
        invariant n == |rd| <= count && P.RingOk(tty) && tty == old(tty).(tail := old(tty).tail + n)
        invariant q == rd + P.Unread(tty) && window == P.Stored(old(window), buf, rd)
        invariant !done ==> P.NEWLINE !in rd
        invariant done ==> P.FirstLine(q) == rd
        decreases count - n
      {
        var c := tty.ring[tty.tail % 1024];
        ByteTaken(q, rd, tty, old(window), buf);
        window := P.Stored(window, buf + n, [c]);
        tty := tty.(tail := tty.tail + 1);
        n := n + 1;
        rd := rd + [c];
        if c == P.NEWLINE { done := true; }
      }
      LineTaken(q, rd, P.Unread(tty), done, count) by { if tty.tail >= tty.head { EmptyLine(tty); } }
    }

    // Ctrl+C as slot i sees it; s is the table before any slot was marked.
    method MarkSlot(i: nat, ghost s: P.Sys)
      requires Valid() && 1 <= i < 9 && P.Shaped(s) && SameKins(s, View()) && s.fgPid == fgPid && s.fgOwner == fgOwner && slots[i] == s.slots[i]
      modifies slots
      ensures slots[i] == P.Marked(s, i) && forall j | 0 <= j < 9 && j != i :: slots[j] == old(slots[j])
    {
      hide P.Walk;
      if slots[i].Some? {
        if fgPid != 0 {
          var yes := Descendant(i, fgPid);
          WalkSame(s, View(), slots[i].value.pid, fgPid, 9);
          if yes { slots[i] := Some(slots[i].value.(interrupted := true)); }
        } else if slots[i].value.pid == fgOwner {
          slots[i] := Some(slots[i].value.(cancelled := true));
        }
      }
    }

    method TerminalInterrupt()
      requires Valid()
      modifies this, slots
      ensures Valid() && View() == P.TerminalInterrupt(old(View()))
    {
      hide P.Walk, P.Marked, SameKins;
      tty := tty.(tail := tty.head);
      ghost var s := old(View());
      NoneMarked(s);
      var i := 1;
      while i < 9
        invariant 1 <= i <= 9 && slots.Length == 9 && active == old(active) && fgPid == s.fgPid && fgOwner == s.fgOwner
        invariant forall j | 0 <= j < i :: slots[j] == P.Marked(s, j)
        invariant forall j | i <= j < 9 :: slots[j] == s.slots[j]
        modifies slots
      {
        MarkedKin(s, View(), i);
        MarkSlot(i, s);
        i := i + 1;
      }
      MarkedKin(s, View(), 9);
      assert slots[..] == P.TerminalInterrupt(s).slots;
    }

    method Shifted(key: Byte) returns (c: Byte)
      ensures c == P.Lookup(key, 0)
    {
      var i := 0;
      while i < |P.PLAIN|
        invariant 0 <= i <= |P.PLAIN| && P.Lookup(key, i) == P.Lookup(key, 0)
      {
        if key == P.PLAIN[i] { return P.SHIFTED[i]; }
        i := i + 1;
      }
      c := key;
    }

    method Translate(key: Byte, shift: bool) returns (c: Byte)
      ensures c == P.CharOf(key, shift)
    {
      c := key;
      if key == 13 {
        c := 8;
      } else if 65 <= key <= 90 {
        c := if shift then key else key + 32;
      } else if 97 <= key <= 122 {
        c := if shift then key - 32 else key;
      } else if shift {
        c := Shifted(key);
      }
    }

    // Erase, append, or ignore.
    method TypeChar(c: Byte)
      modifies this`tty
      ensures tty == P.Typed(old(tty), c)
    {
      if c == 8 || c == 127 {
        if tty.head > tty.tail && tty.ring[(tty.head - 1) % 1024] != P.NEWLINE {
          tty := tty.(head := tty.head - 1);
        }
      } else if c == P.NEWLINE || 32 <= c < 127 {
        if tty.head - tty.tail < 1022 || (c == P.NEWLINE && tty.head - tty.tail < 1023) {
          tty := tty.(ring := tty.ring[tty.head % 1024 := c], head := tty.head + 1);
        }
      }
    }

    method PollIo(event: Word)
      requires Valid()
      modifies this, slots
      ensures Valid() && View() == P.Poll(old(View()), event)
    {
      hide P.Walk, P.Marked, P.TerminalInterrupt, P.Typed, P.CharOf;
      var key, press := event % 256, event / 256 % 2 == 1;
      var control, shift := tty.controls.0 || tty.controls.1, tty.shifts.0 || tty.shifts.1;
      if key == 17 {
        tty := tty.(controls := (press, tty.controls.1));
      } else if key == 21 {
        tty := tty.(controls := (tty.controls.0, press));
      } else if key == 16 {
        tty := tty.(shifts := (press, tty.shifts.1));
      } else if key == 20 {
        tty := tty.(shifts := (tty.shifts.0, press));
      } else if press && (key == 3 || (control && (key == 67 || key == 99))) {
        TerminalInterrupt();
      } else if press && !control {
        var c := Translate(key, shift);
        TypeChar(c);
      }
    }

    // ---- system calls ----

    method SetForeground(a: Word) returns (r: int)
      requires Valid()
      modifies this, slots
      ensures Valid() && (View(), r) == P.SetForeground(old(View()), a)
    {
      hide P.MarkTree;
      var me := Current();
      ghost var s := View();
      if a != 0 {
        var i := 1;
        while i < 9 && !(slots[i].Some? && slots[i].value.pid == a && slots[i].value.father == me.pid)
          invariant 1 <= i <= 9
          invariant forall j | 1 <= j < i :: !(s.slots[j].Some? && s.slots[j].value.pid == a && s.slots[j].value.father == me.pid)
        {
          i := i + 1;
        }
        if i == 9 { return -P.ECHILD; }
        assert s.slots[i].Some? && s.slots[i].value.pid == a;
      }
      fgOwner, fgPid := me.pid, a;
      r := 0;
      if a != 0 && me.cancelled {
        SetCurrent(me.(cancelled := false));
        MarkTree(a);
      }
    }

    method NoteSlot(i: nat, root: nat, ghost s: P.Sys)
      requires Valid() && 1 <= i < 9 && P.Shaped(s) && SameKins(s, View()) && slots[i] == s.slots[i]
      modifies slots
      ensures slots[i] == P.Noted(s, i, root) && forall j | 0 <= j < 9 && j != i :: slots[j] == old(slots[j])
    {
      hide P.Walk;
      if slots[i].Some? {
        var yes := Descendant(i, root);
        WalkSame(s, View(), slots[i].value.pid, root, 9);
        if yes { slots[i] := Some(slots[i].value.(interrupted := true)); }
      }
    }

    method MarkTree(root: nat)
      requires Valid()
      modifies slots
      ensures Valid() && View() == P.MarkTree(old(View()), root)
    {
      hide P.Noted, SameKins;
      ghost var s := View();
      NoneNoted(s, root);
      var i := 1;
      while i < 9
        invariant 1 <= i <= 9
        invariant forall j | 0 <= j < i :: slots[j] == P.Noted(s, j, root)
        invariant forall j | i <= j < 9 :: slots[j] == s.slots[j]
      {
        NotedKin(s, View(), root, i);
        NoteSlot(i, root, s);
        i := i + 1;
      }
      NotedKin(s, View(), root, 9);
      assert slots[..] == P.MarkTree(s, root).slots;
    }

    method Perform(nr: Word, a: Word, b: Word, c: Word, v: P.Service) returns (r: int)
      requires Valid() && P.RingOk(tty)
      modifies this, slots
      ensures Valid() && (View(), r) == P.Perform(old(View()), nr, a, b, c, v)
    {
      hide P.Walk, P.Exit, P.Fork, P.Wait, P.TtyRead, P.SetForeground, P.UserRange;
      var p := Current();
      r := 0;
      match nr
      case 1 => ExitCurrent(a % 256 * 256);
      case 2 => r := ForkCurrent();
      case 3 =>
        if !P.UserRange(b, c) { return -P.EFAULT; }
        if v.file.NoFile? { return -P.EBADF; }
        if v.file.Console? {
          r := TtyRead(b, c);
        } else {
          window, r := v.image, v.result;
        }
      case 7 =>
        if b != 0 && !P.UserRange(b, 4) { return -P.EFAULT; }
        r := WaitCurrent(Signed(a), b, c);
      case 11 =>
        if v.program.None? { return v.result; }
        var g := v.program.value;
        window := g.image;
        SetCurrent(p.(context := g.context, endData := g.endData, brk := g.endData, startStack := g.startStack));
        r := P.REPLACED;
      case 20 => r := p.pid;
      case 45 =>
        if p.endData <= a <= p.startStack { SetCurrent(p.(brk := a)); }
        r := Current().brk;
      case 64 => r := p.father;
      case 103 => r := SetForeground(a);
      case 104 =>
        if a != 0 { SetCurrent(p.(deferred := true)); }
        SameHere();
        r := if p.interrupted then 1 else 0;
      case 105 =>
        SetCurrent(p.(cancelled := false));
        r := if p.cancelled then 1 else 0;
      case _ =>
        if nr == 38 && p.deferred && p.interrupted { return -P.EINTR; }
        if nr in {4, 5, 6, 10, 12, 15, 18, 19, 28, 36, 38, 39, 40, 41, 63} {
          window, r := v.image, v.result;
        } else if nr != 100 && nr != 101 && nr != 102 {
          r := -P.ENOSYS;
        }
    }

    lemma SameHere()
      requires Valid()
      ensures P.SetCur(View(), P.Cur(View())) == View()
    {
      SameCur(View());
    }

    // ---- the dispatcher ----

    // Kill every marked process that has not asked for a delay.
    method KillMarked()
      requires Valid()
      modifies this, slots
      ensures Valid() && View() == P.KillFrom(old(View()), 1)
    {
      hide P.Activate, P.Exit;
      var k := 1;
      while k < 9
        invariant 1 <= k <= 9 && Valid() && P.KillFrom(View(), k) == P.KillFrom(old(View()), 1)
      {
        if slots[k].Some? && slots[k].value.interrupted && !slots[k].value.deferred && !slots[k].value.state.Zombie? {
          Activate(k);
          SetCurrent(Current().(blocked := P.NotBlocked));
          ExitCurrent(2);
        }
        k := k + 1;
      }
    }

    // Replay one blocked call.
    method Replay(k: nat)
      requires Valid() && P.RingOk(tty) && 1 <= k <= 8 && slots[k].Some?
      modifies this, slots
      ensures Valid() && View() == P.Replay(old(View()), k)
    {
      hide P.Activate, P.Wait, P.TtyRead, P.UserRange;
      ActivateTree(View(), k);
      Activate(k);
      ghost var u := View();
      var r := -P.EAGAIN;
      match Current().blocked {
        case NotBlocked =>
        case OnRead(buf, count) =>
          if P.UserRange(buf, count) { r := TtyRead(buf, count); } else { r := -P.EFAULT; }
        case OnWait(child, status) =>
          if status != 0 && !P.UserRange(status, 4) { r := -P.EFAULT; } else { r := WaitCurrent(child, status, 0); }
      }
      assert (View(), r) == P.Retry(u);
      if r != -P.EAGAIN {
        SetCurrent(P.Result(Current(), r).(blocked := P.NotBlocked, state := P.Running));
      }
    }

    method Ready(k: nat) returns (yes: bool)
      requires Valid() && 1 <= k <= 8 && slots[k].Some?
      ensures yes == P.Ready(View(), k)
    {
      match slots[k].value.blocked
      case NotBlocked => yes := false;
      case OnRead(_, _) =>
        yes := LineReady();
        yes := yes || slots[k].value.cancelled;
      case OnWait(child, _) => yes := WaitReady(k, child);
    }

    method ReplayReady()
      requires Good(View()) && Valid()
      modifies this, slots
      ensures Valid() && View() == P.ReplayFrom(old(View()), 1) && Good(View())
    {
      hide P.Replay, P.Ready, ProcOk, Distinct;
      var k := 1;
      while k < 9
        invariant 1 <= k <= 9 && Valid() && Good(View()) && P.ReplayFrom(View(), k) == P.ReplayFrom(old(View()), 1)
      {
        if slots[k].Some? {
          var yes := Ready(k);
          if yes {
            ReadyBlocked(View(), k);
            ReplayGood(View(), k);
            Replay(k);
          }
        }
        k := k + 1;
      }
    }

    method Choose(nr: Word) returns (k: nat)
      requires Valid()
      ensures k == P.Choose(View(), nr)
    {
      if nr != 101 && slots[active].Some? && slots[active].value.state.Running? { return active; }
      var n := 1;
      while n < 9
        invariant 1 <= n <= 9 && P.NextRunnable(View(), n) == P.NextRunnable(View(), 1)
      {
        k := (active - 1 + n) % 8 + 1;
        if slots[k].Some? && slots[k].value.state.Running? { return; }
        n := n + 1;
      }
      k := 0;
    }

    method Serve(v: P.Service)
      requires Valid() && P.RingOk(tty)
      modifies this, slots
      ensures Valid() && View() == P.Serve(old(View()), v)
    {
      hide P.Perform, P.Exit;
      var p := Current();
      var nr, a, b, c := p.context.regs[1], p.context.regs[2], p.context.regs[3], p.context.regs[4];
      if p.interrupted && !p.deferred {
        ExitCurrent(2);
        SetCurrent(P.Result(Current(), 0));
        return;
      }
      var r := Perform(nr, a, b, c, v);
      if r == -P.EAGAIN && nr == 3 {
        SetCurrent(Current().(blocked := P.OnRead(b, c), state := P.Interruptible));
      } else if r == -P.EAGAIN && nr == 7 {
        SetCurrent(Current().(blocked := P.OnWait(Signed(a), b), state := P.Interruptible));
      } else if r != P.REPLACED {
        SetCurrent(P.Result(Current(), r));
      }
    }

    // sp_dispatch; ok is false while every process still waits after the last
    // of the given events.
    method Dispatch(saved: P.Context, event: Word, v: P.Service, events: seq<Word>) returns (ok: bool)
      requires Valid() && Good(View()) && P.Runnable(View(), active) && P.Answers(v)
      modifies this, slots
      ensures Valid() && Good(View())
      ensures ok == P.Dispatch(old(View()), saved, event, v, events).Some?
      ensures ok ==> View() == P.Dispatch(old(View()), saved, event, v, events).value && P.Runnable(View(), active)
    {
      hide P.Poll, P.Serve, P.KillFrom, P.ReplayFrom, P.Activate, P.Choose, ProcOk, Distinct, P.Loop;
      var nr := saved.regs[1];
      ghost var s := View();
      SetCurrent(Current().(context := saved));
      SameTreeGood(s, View());
      PollGood(View(), event);
      ghost var a := View();
      PollIo(event);
      assert SameProc(a.slots[active], View().slots[active]);
      ServeGood(View(), v);
      Serve(v);
      ghost var start := View();
      var i := 0;
      while true
        invariant 0 <= i <= |events| && Valid() && Good(View())
        invariant P.Loop(View(), nr, events[i..]) == P.Loop(start, nr, events)
        decreases |events| - i
      {
        LoopStep(View(), nr, events[i..]);
        KillFromGood(View(), 1);
        KillMarked();
        ReplayReady();
        var k := Choose(nr);
        if k > 0 {
          ChosenRuns(View(), nr);
          ActivateTree(View(), k);
          ghost var b := View();
          Activate(k);
          SameTreeGood(b, View());
          assert SameProc(b.slots[k], View().slots[k]);
          return true;
        }
        if i == |events| { return false; }
        PollGood(View(), events[i]);
        PollIo(events[i]);
        i := i + 1;
      }
    }
  }

  lemma ChosenRuns(s: P.Sys, nr: Word)
    requires P.Shaped(s)
    ensures P.Choose(s, nr) > 0 ==> P.Choose(s, nr) <= 8 && P.Runnable(s, P.Choose(s, nr))
  {
  }

  // One turn of the loop.
  lemma LoopStep(s: P.Sys, nr: Word, events: seq<Word>)
    requires P.Shaped(s)
    ensures var t := P.ReplayFrom(P.KillFrom(s, 1), 1);
            var k := P.Choose(t, nr);
            P.Loop(s, nr, events) ==
            if k > 0 then Some(P.Activate(t, k)) else if events == [] then None else P.Loop(P.Poll(t, events[0]), nr, events[1..])
  {
  }

  lemma ReadyBlocked(s: P.Sys, k: nat)
    requires Good(s) && 1 <= k <= 8 && s.slots[k].Some? && P.Ready(s, k)
    ensures s.slots[k].value.state.Interruptible?
  {
    assert ProcOk(s, k);
  }

  lemma StoredNone(m: P.Image, addr: Word)
    requires P.UserRange(addr, 0)
    ensures P.Stored(m, addr, []) == m
  {
  }

  lemma FirstOf(q: seq<Byte>)
    requires q != []
    ensures P.FirstLine(q) == if q[0] == P.NEWLINE then [q[0]] else [q[0]] + P.FirstLine(q[1..])
  {
  }

  // The ring's next byte moves from the queue to the buffer.
  lemma ByteTaken(q: seq<Byte>, rd: seq<Byte>, t: P.Tty, m: P.Image, buf: Word)
    requires P.RingOk(t) && t.tail < t.head && q == rd + P.Unread(t) && P.UserRange(buf, |rd| + 1) && P.NEWLINE !in rd
    ensures var c := t.ring[t.tail % 1024];
            && P.RingOk(t.(tail := t.tail + 1)) && q == (rd + [c]) + P.Unread(t.(tail := t.tail + 1))
            && P.Stored(P.Stored(m, buf, rd), buf + |rd|, [c]) == P.Stored(m, buf, rd + [c])
            && (c == P.NEWLINE ==> P.FirstLine(q) == rd + [c])
  {
    hide P.Unread, P.Stored, P.FirstLine;
    var c := t.ring[t.tail % 1024];
    UnreadAt(t, 0);
    DropUnread(t, 1);
    var rest := P.Unread(t);
    StoredNext(m, buf, rd, c);
    FirstLineSplit(rd, rest);
    FirstOf(rest);
    assert rd + rest == (rd + [c]) + rest[1..];
  }

  lemma LineTaken(q: seq<Byte>, rd: seq<Byte>, rest: seq<Byte>, done: bool, count: nat)
    requires q == rd + rest && |rd| <= count && (if done then P.FirstLine(q) == rd else P.NEWLINE !in rd && (|rd| == count || P.FirstLine(rest) == []))
    ensures rd == if |P.FirstLine(q)| <= count then P.FirstLine(q) else P.FirstLine(q)[..count]
  {
    if !done { FirstLineSplit(rd, rest); }
  }

  lemma EmptyLine(t: P.Tty)
    requires t.tail >= t.head
    ensures P.FirstLine(P.Unread(t)) == []
  {
  }

  lemma NoneNoted(s: P.Sys, root: nat)
    requires P.Shaped(s)
    ensures P.Noted(s, 0, root) == s.slots[0]
  {
    hide P.Walk;
  }

  lemma NotedKin(s: P.Sys, t: P.Sys, root: nat, i: nat)
    requires P.Shaped(s) && |t.slots| == 9 && i <= 9 && t.active == s.active
    requires forall j | 0 <= j < i :: t.slots[j] == P.Noted(s, j, root)
    requires forall j | i <= j < 9 :: t.slots[j] == s.slots[j]
    ensures SameKins(s, t) && P.Shaped(t)
  {
    hide P.Walk;
    forall j | 0 <= j < 9 ensures SameKin(s.slots[j], t.slots[j]) {
    }
  }

  lemma NoneMarked(s: P.Sys)
    requires P.Shaped(s)
    ensures P.Marked(s, 0) == s.slots[0]
  {
    hide P.Walk;
  }

  lemma MarkedKin(s: P.Sys, t: P.Sys, i: nat)
    requires P.Shaped(s) && |t.slots| == 9 && i <= 9 && t.active == s.active
    requires forall j | 0 <= j < i :: t.slots[j] == P.Marked(s, j)
    requires forall j | i <= j < 9 :: t.slots[j] == s.slots[j]
    ensures SameKins(s, t) && P.Shaped(t)
  {
    hide P.Walk;
    forall j | 0 <= j < 9 ensures SameKin(s.slots[j], t.slots[j]) {
    }
  }
}
