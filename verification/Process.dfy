// The cooperative process dispatcher: eight slots sharing one execution
// window, blocked system calls replayed, Ctrl+C killing a whole tree
// (kernel/symplus/process.c).  This module says what each operation does to
// the state; Kernel has the operations themselves.
module Process {
  import opened Words

  const SP_USER_BASE: Word := 0x20_0000
  const SP_USER_SIZE: Word := 0x20_0000

  const EINTR := 4
  const EBADF := 9
  const ECHILD := 10
  const EAGAIN := 11
  const EFAULT := 14
  const EINVAL := 22
  const ENOSYS := 38
  // what a successful exec returns instead of a result
  const REPLACED := 0x7000_0000

  type Regs = r: seq<Word> | |r| == 16 witness seq(16, _ => 0)
  type Image = m: seq<Byte> | |m| == SP_USER_SIZE witness seq(SP_USER_SIZE, _ => 0)
  datatype Context = Context(regs: Regs, pc: Word)

  datatype State = Running | Interruptible | Zombie
  // The call a process is blocked in, to be replayed.
  datatype Blocked = NotBlocked | OnRead(buf: Word, count: Word) | OnWait(child: int, status: Word)

  datatype Proc = Proc(
    pid: nat, father: nat, state: State, exitCode: nat,
    brk: Word, endData: Word, startStack: Word,
    blocked: Blocked, context: Context, saved: Image,
    interrupted: bool, deferred: bool, cancelled: bool)

  // The line discipline: a ring of 1024 bytes between two running counters.
  type Ring = r: seq<Byte> | |r| == 1024 witness seq(1024, _ => 0)
  datatype Tty = Tty(ring: Ring, head: nat, tail: nat, shifts: (bool, bool), controls: (bool, bool))

  // slots[1..8] are the process slots; slots[0] is never used.
  datatype Sys = Sys(slots: seq<Option<Proc>>, active: nat, nextPid: nat, window: Image, tty: Tty, fgPid: nat, fgOwner: nat)

  // A process table whose active slot is in use.
  predicate Shaped(s: Sys) {
    |s.slots| == 9 && s.slots[0].None? && 1 <= s.active <= 8 && s.slots[s.active].Some?
  }

  function Cur(s: Sys): Proc
    requires Shaped(s)
  {
    s.slots[s.active].value
  }

  function SetCur(s: Sys, p: Proc): (t: Sys)
    requires Shaped(s)
    ensures Shaped(t) && t.active == s.active && Cur(t) == p
  {
    s.(slots := s.slots[s.active := Some(p)])
  }

  // A process's memory: the window when it is active, its snapshot otherwise.
  function Memory(s: Sys, i: nat): Image
    requires i < |s.slots| && s.slots[i].Some?
  {
    if i == s.active then s.window else s.slots[i].value.saved
  }

  predicate Alive(s: Sys, i: nat) {
    i < |s.slots| && s.slots[i].Some? && !s.slots[i].value.state.Zombie?
  }

  function Result(p: Proc, r: int): Proc {
    p.(context := p.context.(regs := p.context.regs[1 := Wrap(r)]))
  }

  // ---- memory ----

  predicate UserRange(addr: Word, len: nat) {
    addr >= SP_USER_BASE && addr <= SP_USER_BASE + SP_USER_SIZE && len <= SP_USER_BASE + SP_USER_SIZE - addr
  }

  // bytes stored at a user address
  function Stored(m: Image, addr: Word, bytes: seq<Byte>): (r: Image)
    requires UserRange(addr, |bytes|)
    ensures forall x | 0 <= x < |m| && !(addr <= SP_USER_BASE + x < addr + |bytes|) :: r[x] == m[x]
  {
    var a := addr - SP_USER_BASE;
    m[..a] + bytes + m[a + |bytes|..]
  }

  function StoredWord(m: Image, addr: Word, v: Word): Image
    requires UserRange(addr, 4)
  {
    Stored(m, addr, [ByteAt(v, 0), ByteAt(v, 1), ByteAt(v, 2), ByteAt(v, 3)])
  }

  // activate: swap the window.  A zombie's memory is not worth saving.
  function Activate(s: Sys, k: nat): (t: Sys)
    requires Shaped(s) && 1 <= k <= 8 && s.slots[k].Some?
    ensures Shaped(t) && t.active == k
  {
    if k == s.active then s
    else
      var slots := if Cur(s).state.Zombie? then s.slots else s.slots[s.active := Some(Cur(s).(saved := s.window))];
      s.(slots := slots, window := slots[k].value.saved, active := k)
  }

  // ---- the process tree ----

  // The slot holding a pid; 9 when none does.
  function SlotOf(s: Sys, pid: nat, from: nat): (i: nat)
    requires |s.slots| == 9 && from <= 9
    ensures from <= i <= 9
    ensures i < 9 ==> s.slots[i].Some? && s.slots[i].value.pid == pid
    ensures forall j | from <= j < i :: !(s.slots[j].Some? && s.slots[j].value.pid == pid)
    decreases 9 - from
  {
    if from == 9 then 9
    else if s.slots[from].Some? && s.slots[from].value.pid == pid then from
    else SlotOf(s, pid, from + 1)
  }

  // descendant's walk up the fathers, at most `depth` steps.
  function Walk(s: Sys, pid: nat, root: nat, depth: nat): bool
    requires |s.slots| == 9
    decreases depth
  {
    if depth == 0 || pid <= 1 then false
    else if pid == root then true
    else
      var i := SlotOf(s, pid, 1);
      if i == 9 then false else Walk(s, s.slots[i].value.father, root, depth - 1)
  }

  predicate Descendant(s: Sys, i: nat, root: nat)
    requires |s.slots| == 9 && i < 9 && s.slots[i].Some?
  {
    Walk(s, s.slots[i].value.pid, root, 9)
  }

  // exit_current: the children go to init.
  function Orphaned(p: Proc, father: nat): Proc {
    if p.father == father then p.(father := 1) else p
  }

  function Exit(s: Sys, status: nat): (t: Sys)
    requires Shaped(s)
    ensures Shaped(t) && t.active == s.active
  {
    var me := Cur(s);
    var dead := me.(state := Zombie, exitCode := status);
    s.(slots := seq(9, i requires 0 <= i < 9 =>
      if i == s.active then Some(Orphaned(dead, me.pid))
      else if s.slots[i].Some? then Some(Orphaned(s.slots[i].value, me.pid)) else None))
  }

  function FreeSlot(s: Sys, from: nat): (i: nat)
    requires |s.slots| == 9 && 1 <= from <= 9
    ensures from <= i <= 9 && (i < 9 ==> s.slots[i].None?)
    ensures forall j | from <= j < i :: s.slots[j].Some?
    decreases 9 - from
  {
    if from == 9 || s.slots[from].None? then from else FreeSlot(s, from + 1)
  }

  // fork_current: an equal image whose r1 is zero.
  function Fork(s: Sys): (r: (Sys, int))
    requires Shaped(s)
    ensures Shaped(r.0) && r.0.active == s.active
  {
    var p := Cur(s);
    var k := FreeSlot(s, 1);
    if p.deferred && p.interrupted then (s, -EINTR)
    else if k == 9 then (s, -EAGAIN)
    else
      var child := Result(p, 0).(pid := s.nextPid + 1, father := p.pid, state := Running, exitCode := 0, saved := s.window,
                                 blocked := NotBlocked, interrupted := false, deferred := false, cancelled := false);
      (s.(slots := s.slots[k := Some(child)], nextPid := s.nextPid + 1), s.nextPid + 1)
  }

  // A child of process `me` that a wait for `pid` may collect.
  predicate ChildAt(s: Sys, i: nat, me: nat, pid: int)
    requires |s.slots| == 9 && i < 9
  {
    s.slots[i].Some? && s.slots[i].value.father == me && (pid == -1 || pid == s.slots[i].value.pid)
  }

  predicate DeadChildAt(s: Sys, i: nat, me: nat, pid: int)
    requires |s.slots| == 9 && i < 9
  {
    ChildAt(s, i, me, pid) && s.slots[i].value.state.Zombie?
  }

  // The first zombie child other than the caller; 9 when there is none.
  function DeadChild(s: Sys, me: nat, pid: int, from: nat): (i: nat)
    requires Shaped(s) && from <= 9
    ensures from <= i <= 9 && (i < 9 ==> DeadChildAt(s, i, me, pid) && i != s.active)
    ensures forall j | from <= j < i :: !(DeadChildAt(s, j, me, pid) && j != s.active)
    decreases 9 - from
  {
    if from == 9 then 9
    else if DeadChildAt(s, from, me, pid) && from != s.active then from
    else DeadChild(s, me, pid, from + 1)
  }

  // wait_current: collect a zombie child, report none, or block.
  function Wait(s: Sys, pid: int, status: Word, options: Word): (r: (Sys, int))
    requires Shaped(s) && (status != 0 ==> UserRange(status, 4))
    ensures Shaped(r.0) && r.0.active == s.active
  {
    var me := Cur(s).pid;
    var z := DeadChild(s, me, pid, 1);
    if pid != -1 && pid <= 0 then (s, -EINVAL)
    else if options > 1 then (s, -EINVAL)
    else if z < 9 then
      (s.(slots := s.slots[z := None],
          window := if status != 0 then StoredWord(s.window, status, Wrap(s.slots[z].value.exitCode)) else s.window),
       s.slots[z].value.pid)
    else if exists i | 1 <= i < 9 :: i != s.active && ChildAt(s, i, me, pid) then (s, if options == 1 then 0 else -EAGAIN)
    else (s, -ECHILD)
  }

  predicate WaitReady(s: Sys, k: nat, pid: int)
    requires |s.slots| == 9 && k < 9 && s.slots[k].Some?
  {
    var me := s.slots[k].value.pid;
    (exists i | 1 <= i < 9 :: DeadChildAt(s, i, me, pid)) || !exists i | 1 <= i < 9 :: ChildAt(s, i, me, pid)
  }

  // ---- the terminal ----

  predicate RingOk(t: Tty) {
    t.tail <= t.head <= t.tail + 1023
  }

  // The bytes typed and not yet read.
  function Unread(t: Tty): (q: seq<Byte>)
    ensures t.tail <= t.head ==> |q| == t.head - t.tail
  {
    if t.head <= t.tail then []
    else seq(t.head - t.tail, i requires 0 <= i < t.head - t.tail => t.ring[(t.tail + i) % 1024])
  }

  const NEWLINE: Byte := 10

  predicate LineReady(t: Tty) {
    NEWLINE in Unread(t)
  }

  // Up to and including the first newline.
  function FirstLine(q: seq<Byte>): (r: seq<Byte>)
    ensures r <= q
  {
    if q == [] then [] else if q[0] == NEWLINE then [q[0]] else [q[0]] + FirstLine(q[1..])
  }

  // tty_read_user: at most count bytes of the first complete line.
  function TtyRead(s: Sys, buf: Word, count: Word): (r: (Sys, int))
    requires Shaped(s) && UserRange(buf, count)
    ensures Shaped(r.0) && r.0.active == s.active
  {
    var p := Cur(s);
    if p.cancelled then (SetCur(s, p.(cancelled := false)), -EINTR)
    else if count == 0 then (s, 0)
    else if !LineReady(s.tty) then (s, -EAGAIN)
    else
      var line := FirstLine(Unread(s.tty));
      var got := if |line| <= count then line else line[..count];
      (s.(tty := s.tty.(tail := s.tty.tail + |got|), window := Stored(s.window, buf, got)), |got|)
  }

  // terminal_interrupt: discard the line, mark the foreground tree, or else
  // cancel the read of the terminal's owner.
  function Marked(s: Sys, i: nat): Option<Proc>
    requires |s.slots| == 9 && i < 9
  {
    match s.slots[i]
    case None => None
    case Some(p) =>
      if s.fgPid != 0 then Some(if Descendant(s, i, s.fgPid) then p.(interrupted := true) else p)
      else Some(if p.pid == s.fgOwner then p.(cancelled := true) else p)
  }

  function TerminalInterrupt(s: Sys): (t: Sys)
    requires Shaped(s)
    ensures Shaped(t) && t.active == s.active
  {
    s.(slots := seq(9, i requires 0 <= i < 9 => Marked(s, i)), tty := s.tty.(tail := s.tty.head))
  }

  const PLAIN: seq<Byte> := [96, 49, 50, 51, 52, 53, 54, 55, 56, 57, 48, 45, 61, 91, 93, 92, 59, 39, 44, 46, 47]
  const SHIFTED: seq<Byte> := [126, 33, 64, 35, 36, 37, 94, 38, 42, 40, 41, 95, 43, 123, 125, 124, 58, 34, 60, 62, 63]

  function Lookup(key: Byte, i: nat): Byte
    requires i <= |PLAIN|
    decreases |PLAIN| - i
  {
    if i == |PLAIN| then key else if PLAIN[i] == key then SHIFTED[i] else Lookup(key, i + 1)
  }

  // The character a key stands for.
  function CharOf(key: Byte, shift: bool): Byte {
    if key == 13 then 8
    else if 65 <= key <= 90 then if shift then key else key + 32
    else if 97 <= key <= 122 then if shift then key - 32 else key
    else if shift then Lookup(key, 0) else key
  }

  function Typed(t: Tty, c: Byte): Tty {
    if c == 8 || c == 127 then
      if t.head > t.tail && t.ring[(t.head - 1) % 1024] != NEWLINE then t.(head := t.head - 1) else t
    else if c == NEWLINE || 32 <= c < 127 then
      if t.head - t.tail < 1022 || (c == NEWLINE && t.head - t.tail < 1023)
      then t.(ring := t.ring[t.head % 1024 := c], head := t.head + 1) else t
    else t
  }

  // One keyboard event: the key in the low byte, pressed in bit 8.
  function Poll(s: Sys, event: Word): (t: Sys)
    requires Shaped(s)
    ensures Shaped(t) && t.active == s.active
  {
    var key, press := event % 256, event / 256 % 2 == 1;
    var t := s.tty;
    var control := t.controls.0 || t.controls.1;
    if key == 17 then s.(tty := t.(controls := (press, t.controls.1)))
    else if key == 21 then s.(tty := t.(controls := (t.controls.0, press)))
    else if key == 16 then s.(tty := t.(shifts := (press, t.shifts.1)))
    else if key == 20 then s.(tty := t.(shifts := (t.shifts.0, press)))
    else if press && (key == 3 || (control && (key == 67 || key == 99))) then TerminalInterrupt(s)
    else if press && !control then s.(tty := Typed(t, CharOf(key, t.shifts.0 || t.shifts.1)))
    else s
  }

  // ---- system calls ----

  datatype File = NoFile | Console | Other
  datatype Program = Program(image: Image, context: Context, endData: Word, startStack: Word)

  // What the file system answers: the kind of file a read names, the result
  // and window contents of a call it serves, and the program an exec finds.
  datatype Service = Service(file: File, result: int, image: Image, program: Option<Program>)

  // The file system itself never asks for a retry.
  predicate Answers(v: Service) {
    v.result != -EAGAIN && v.result != REPLACED
  }

  function Noted(s: Sys, i: nat, root: nat): Option<Proc>
    requires |s.slots| == 9 && i < 9
  {
    if s.slots[i].Some? && Descendant(s, i, root) then Some(s.slots[i].value.(interrupted := true)) else s.slots[i]
  }

  // Every process under `root` marked to be killed.
  function MarkTree(s: Sys, root: nat): (t: Sys)
    requires Shaped(s)
    ensures Shaped(t) && t.active == s.active
  {
    s.(slots := seq(9, i requires 0 <= i < 9 => Noted(s, i, root)))
  }

  function SetForeground(s: Sys, a: Word): (r: (Sys, int))
    requires Shaped(s)
    ensures Shaped(r.0) && r.0.active == s.active
  {
    var me := Cur(s);
    if a != 0 && !exists i | 1 <= i < 9 :: s.slots[i].Some? && s.slots[i].value.pid == a && s.slots[i].value.father == me.pid
    then (s, -ECHILD)
    else
      var t := s.(fgOwner := me.pid, fgPid := a);
      if a != 0 && me.cancelled then
        (MarkTree(SetCur(t, me.(cancelled := false)), a), 0)
      else (t, 0)
  }

  // perform
  function Perform(s: Sys, nr: Word, a: Word, b: Word, c: Word, v: Service): (r: (Sys, int))
    requires Shaped(s)
    ensures Shaped(r.0) && r.0.active == s.active
  {
    var p := Cur(s);
    if nr == 1 then (Exit(s, a % 256 * 256), 0)
    else if nr == 2 then Fork(s)
    else if nr == 3 then
      if !UserRange(b, c) then (s, -EFAULT)
      else if v.file.NoFile? then (s, -EBADF)
      else if v.file.Console? then TtyRead(s, b, c)
      else (s.(window := v.image), v.result)
    else if nr == 7 then
      if b != 0 && !UserRange(b, 4) then (s, -EFAULT) else Wait(s, Signed(a), b, c)
    else if nr == 11 then
      (match v.program
       case None => (s, v.result)
       case Some(g) =>
         (SetCur(s.(window := g.image), p.(context := g.context, endData := g.endData, brk := g.endData, startStack := g.startStack)), REPLACED))
    else if nr == 20 then (s, p.pid)
    else if nr == 45 then
      if p.endData <= a <= p.startStack then (SetCur(s, p.(brk := a)), a) else (s, p.brk)
    else if nr == 64 then (s, p.father)
    else if nr == 100 || nr == 101 || nr == 102 then (s, 0)
    else if nr == 103 then SetForeground(s, a)
    else if nr == 104 then
      (SetCur(s, p.(deferred := p.deferred || a != 0)), if p.interrupted then 1 else 0)
    else if nr == 105 then (SetCur(s, p.(cancelled := false)), if p.cancelled then 1 else 0)
    else if nr == 38 && p.deferred && p.interrupted then (s, -EINTR)
    else if nr in {4, 5, 6, 10, 12, 15, 18, 19, 28, 36, 38, 39, 40, 41, 63} then (s.(window := v.image), v.result)
    else (s, -ENOSYS)
  }

  // ---- the dispatcher ----

  // Kill a slot's process: activate it, drop its pending call, exit.
  function Kill(s: Sys, k: nat): (t: Sys)
    requires Shaped(s) && 1 <= k <= 8 && s.slots[k].Some?
    ensures Shaped(t)
  {
    var t := Activate(s, k);
    Exit(SetCur(t, Cur(t).(blocked := NotBlocked)), 2)
  }

  predicate Doomed(s: Sys, i: nat) {
    Alive(s, i) && s.slots[i].value.interrupted && !s.slots[i].value.deferred
  }

  function KillFrom(s: Sys, k: nat): (t: Sys)
    requires Shaped(s) && 1 <= k <= 9
    ensures Shaped(t)
    decreases 9 - k
  {
    if k == 9 then s
    else if Doomed(s, k) then KillFrom(Kill(s, k), k + 1) else KillFrom(s, k + 1)
  }

  // The active process's pending call made again.
  function Retry(s: Sys): (r: (Sys, int))
    requires Shaped(s)
    ensures Shaped(r.0) && r.0.active == s.active
  {
    match Cur(s).blocked
    case OnRead(buf, count) => if UserRange(buf, count) then TtyRead(s, buf, count) else (s, -EFAULT)
    case OnWait(child, status) => if status != 0 && !UserRange(status, 4) then (s, -EFAULT) else Wait(s, child, status, 0)
    case NotBlocked => (s, -EAGAIN)
  }

  // Replay a blocked call.
  function Replay(s: Sys, k: nat): (t: Sys)
    requires Shaped(s) && 1 <= k <= 8 && s.slots[k].Some?
    ensures Shaped(t)
  {
    var u := Activate(s, k);
    var t := Retry(u).0;
    if Retry(u).1 == -EAGAIN then t
    else SetCur(t, Result(Cur(t), Retry(u).1).(blocked := NotBlocked, state := Running))
  }

  predicate Ready(s: Sys, k: nat)
    requires |s.slots| == 9 && 1 <= k <= 8 && s.slots[k].Some?
  {
    match s.slots[k].value.blocked
    case OnRead(_, _) => LineReady(s.tty) || s.slots[k].value.cancelled
    case OnWait(child, _) => WaitReady(s, k, child)
    case NotBlocked => false
  }

  function ReplayFrom(s: Sys, k: nat): (t: Sys)
    requires Shaped(s) && 1 <= k <= 9
    ensures Shaped(t)
    decreases 9 - k
  {
    if k == 9 then s
    else if s.slots[k].Some? && Ready(s, k) then
      ReplayFrom(Replay(s, k), k + 1)
    else ReplayFrom(s, k + 1)
  }

  predicate Runnable(s: Sys, i: nat) {
    i < |s.slots| && s.slots[i].Some? && s.slots[i].value.state.Running?
  }

  // Round robin from the slot after the active one; 0 when nothing can run.
  function NextRunnable(s: Sys, n: nat): (k: nat)
    requires Shaped(s) && 1 <= n <= 9
    ensures k <= 8 && (k > 0 ==> Runnable(s, k))
    decreases 9 - n
  {
    if n == 9 then 0
    else
      var k := (s.active - 1 + n) % 8 + 1;
      if Runnable(s, k) then k else NextRunnable(s, n + 1)
  }

  function Choose(s: Sys, nr: Word): (k: nat)
    requires Shaped(s)
    ensures k <= 8 && (k > 0 ==> Runnable(s, k))
  {
    if nr != 101 && Runnable(s, s.active) then s.active else NextRunnable(s, 1)
  }

  // The loop: kill, replay, choose; poll again while nothing can run.
  function Loop(s: Sys, nr: Word, events: seq<Word>): (r: Option<Sys>)
    requires Shaped(s)
    ensures r.Some? ==> Shaped(r.value)
    decreases |events|
  {
    var t := ReplayFrom(KillFrom(s, 1), 1);
    var k := Choose(t, nr);
    if k > 0 then Some(Activate(t, k))
    else if events == [] then None
    else
      Loop(Poll(t, events[0]), nr, events[1..])
  }

  // The call itself: killed instead if Ctrl+C came first, blocked if it must
  // wait, otherwise its result in r1.
  function Serve(s: Sys, v: Service): (t: Sys)
    requires Shaped(s)
    ensures Shaped(t) && t.active == s.active
  {
    var p := Cur(s);
    var x := p.context.regs;
    var nr, a, b, c := x[1], x[2], x[3], x[4];
    if p.interrupted && !p.deferred then
      var t := Exit(s, 2);
      SetCur(t, Result(Cur(t), 0))
    else
      var (t, r) := Perform(s, nr, a, b, c, v);
      if r == -EAGAIN && nr == 3 then SetCur(t, Cur(t).(blocked := OnRead(b, c), state := Interruptible))
      else if r == -EAGAIN && nr == 7 then SetCur(t, Cur(t).(blocked := OnWait(Signed(a), b), state := Interruptible))
      else if r != REPLACED then SetCur(t, Result(Cur(t), r))
      else t
  }

  // sp_dispatch: the active process traps with its registers saved.
  function Dispatch(s: Sys, saved: Context, event: Word, v: Service, events: seq<Word>): (r: Option<Sys>)
    requires Shaped(s)
    ensures r.Some? ==> Shaped(r.value)
  {
    var t := Poll(SetCur(s, Cur(s).(context := saved)), event);
    Loop(Serve(t, v), saved.regs[1], events)
  }

}
