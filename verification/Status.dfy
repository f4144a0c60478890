// Exit statuses over whole runs: what a process leaves when it exits or is
// killed is what its father finds when it waits, however much later.
module Status {
  import opened Words
  import opened Process
  import opened Tree
  import opened Isolation

  // The word at a user address, high byte first.
  function WordAt(m: Image, p: Word): int
    requires UserRange(p, 4)
  {
    var a := p - SP_USER_BASE;
    ((m[a] * 256 + m[a + 1] as int) * 256 + m[a + 2] as int) * 256 + m[a + 3] as int
  }

  // Process c lies dead in slot i with this status.
  predicate Corpse(s: Sys, i: nat, c: nat, code: nat) {
    && i < |s.slots| && s.slots[i].Some? && s.slots[i].value.state.Zombie?
    && s.slots[i].value.pid == c && s.slots[i].value.exitCode == code
  }

  predicate Living(s: Sys, i: nat, c: nat) {
    Alive(s, i) && s.slots[i].value.pid == c
  }

  // As long as process q lives in slot j, its wait has returned c, and the word
  // at p, if p is given, is the status.  (A pid equal to the private result of
  // exec is not put in r1 when the wait does not block.)
  predicate Told(t: Sys, j: nat, q: nat, c: nat, p: Word, code: nat) {
    Living(t, j, q) ==>
      && t.slots[j].value.blocked.NotBlocked? && (c == REPLACED || t.slots[j].value.context.regs[1] == Wrap(c))
      && (p != 0 ==> UserRange(p, 4) && WordAt(Memory(t, j), p) == code)
  }

  // Process j waits with status pointer p: blocked in the wait, or trapping with it.
  predicate Waits(s: Sys, saved: Context, j: nat, p: Word)
    requires j < |s.slots| && s.slots[j].Some?
  {
    || (s.slots[j].value.blocked.OnWait? && s.slots[j].value.blocked.status == p)
    || (j == s.active && saved.regs[1] == 7 && saved.regs[3] == p)
  }

  // Slot j holds the recorded father of the process in slot i, or init, which
  // takes over when the father ends.
  predicate FatherOf(s: Sys, j: nat, i: nat)
    requires i < |s.slots| && s.slots[i].Some? && j < |s.slots| && s.slots[j].Some?
  {
    s.slots[j].value.pid == s.slots[i].value.father || s.slots[j].value.pid == 1
  }

  // Between s and t the process in slot i of s was collected: a wait of its
  // father has returned its pid and stored its status.
  predicate CollectedBy(s: Sys, saved: Context, t: Sys, i: nat, c: nat, code: nat, j: nat, p: Word) {
    && i < |s.slots| && s.slots[i].Some? && j < |s.slots| && s.slots[j].Some?
    && Waits(s, saved, j, p) && FatherOf(s, j, i) && Told(t, j, s.slots[j].value.pid, c, p, code)
  }

  ghost predicate Collected(s: Sys, saved: Context, t: Sys, i: nat, c: nat, code: nat) {
    exists j: nat, p: Word :: CollectedBy(s, saved, t, i, c, code, j, p)
  }

  // ---- one step after another ----

  // The process in slot i has the father it had at b, or init.
  predicate SameFatherOrInit(b: Sys, t: Sys, i: nat) {
    && i < |b.slots| && b.slots[i].Some? && i < |t.slots| && t.slots[i].Some?
    && (t.slots[i].value.father == b.slots[i].value.father || t.slots[i].value.father == 1)
  }

  // What has become by t of process c, in slot i at b: alive, if it is one that
  // only a kill ends; dead; or collected.
  ghost predicate Fate(b: Sys, saved: Context, t: Sys, i: nat, c: nat, code: nat) {
    || (code == 2 && Living(t, i, c) && SameFatherOrInit(b, t, i))
    || (Corpse(t, i, c, code) && SameFatherOrInit(b, t, i))
    || Collected(b, saved, t, i, c, code)
  }

  ghost predicate AllIsolated(s: Sys, t: Sys) {
    forall j | 0 <= j < 9 :: Isolated(s, t, j)
  }

  lemma AllThen(s: Sys, t: Sys, u: Sys)
    requires AllIsolated(s, t) && AllIsolated(t, u)
    ensures AllIsolated(s, u)
  {
    hide Untouched, Resumed, Isolated;
    forall j | 0 <= j < 9 ensures Isolated(s, u, j) {
      IsolatedThen(s, t, u, j);
    }
  }

  lemma ToldStays(t: Sys, u: Sys, j: nat, q: nat, c: nat, p: Word, code: nat)
    requires Told(t, j, q, c, p, code) && Isolated(t, u, j)
    ensures Told(u, j, q, c, p, code)
  {
  }

  // Once collected, always collected.
  lemma CollectedStays(b: Sys, saved: Context, t: Sys, u: Sys, i: nat, c: nat, code: nat)
    requires Collected(b, saved, t, i, c, code) && |b.slots| == 9 && AllIsolated(t, u)
    ensures Collected(b, saved, u, i, c, code)
  {
    hide Untouched, Resumed, Isolated, Told, Waits;
    var j: nat, p: Word :| CollectedBy(b, saved, t, i, c, code, j, p);
    ToldStays(t, u, j, b.slots[j].value.pid, c, p, code);
    assert CollectedBy(b, saved, u, i, c, code, j, p);
  }

  // A step that leaves process i where it is.
  predicate Stays(t: Sys, u: Sys, i: nat) {
    && i < |t.slots| && i < |u.slots| && t.slots[i].Some? && u.slots[i].Some?
    && u.slots[i].value.pid == t.slots[i].value.pid && u.slots[i].value.state.Zombie? == t.slots[i].value.state.Zombie?
    && u.slots[i].value.exitCode == t.slots[i].value.exitCode
    && (u.slots[i].value.father == t.slots[i].value.father || u.slots[i].value.father == 1)
  }

  lemma FateStays(b: Sys, saved: Context, t: Sys, u: Sys, i: nat, c: nat, code: nat)
    requires Fate(b, saved, t, i, c, code) && |b.slots| == 9 && AllIsolated(t, u)
    requires Living(t, i, c) || Corpse(t, i, c, code) ==> Stays(t, u, i)
    ensures Fate(b, saved, u, i, c, code)
  {
    hide Collected, Isolated;
    if Collected(b, saved, t, i, c, code) {
      CollectedStays(b, saved, t, u, i, c, code);
    }
  }

  // ---- the kill pass ----

  lemma KillStays(s: Sys, k: nat, i: nat)
    requires Shaped(s) && 1 <= k <= 8 && s.slots[k].Some? && i < 9 && i != k && s.slots[i].Some?
    ensures Stays(s, Kill(s, k), i)
  {
  }

  lemma KillEnds(s: Sys, k: nat)
    requires Good(s) && 1 <= k <= 8 && s.slots[k].Some?
    ensures Corpse(Kill(s, k), k, s.slots[k].value.pid, 2) && Kill(s, k).slots[k].value.father == s.slots[k].value.father
  {
    hide Distinct, RingOk, FatherOk, BlockOk;
    assert ProcOk(s, k);
  }

  lemma KillAllIsolated(s: Sys, k: nat)
    requires Shaped(s) && 1 <= k <= 8 && s.slots[k].Some?
    ensures AllIsolated(s, Kill(s, k))
  {
    hide Kill, Isolated;
    forall j | 0 <= j < 9 ensures Isolated(s, Kill(s, k), j) {
      KillIsolated(s, k, j);
    }
  }

  lemma KillFate(b: Sys, saved: Context, t: Sys, k: nat, i: nat, c: nat, code: nat)
    requires Fate(b, saved, t, i, c, code) && |b.slots| == 9 && i < 9 && Good(t) && 1 <= k <= 8 && Doomed(t, k)
    ensures Fate(b, saved, Kill(t, k), i, c, code)
  {
    hide Kill, Collected, AllIsolated, ProcOk, Distinct, RingOk;
    KillAllIsolated(t, k);
    if i != k {
      if t.slots[i].Some? { KillStays(t, k, i); }
      FateStays(b, saved, t, Kill(t, k), i, c, code);
    } else {
      KillEnds(t, k);
      if Collected(b, saved, t, i, c, code) { CollectedStays(b, saved, t, Kill(t, k), i, c, code); }
    }
  }

  lemma {:induction false} KillFromFate(b: Sys, saved: Context, t: Sys, k: nat, i: nat, c: nat, code: nat)
    requires Fate(b, saved, t, i, c, code) && |b.slots| == 9 && i < 9 && Good(t) && 1 <= k <= 9
    ensures Fate(b, saved, KillFrom(t, k), i, c, code)
    decreases 9 - k
  {
    hide Kill, Fate, ProcOk, Distinct, RingOk;
    if k < 9 {
      if Doomed(t, k) {
        KillFate(b, saved, t, k, i, c, code);
        KillGood(t, k);
        KillFromFate(b, saved, Kill(t, k), k + 1, i, c, code);
      } else {
        KillFromFate(b, saved, t, k + 1, i, c, code);
      }
    }
  }

  // ---- the replay pass ----

  lemma WordStored(m: Image, p: Word, v: Word)
    requires UserRange(p, 4)
    ensures WordAt(StoredWord(m, p, v), p) == v
  {
    var a := p - SP_USER_BASE;
    var r := StoredWord(m, p, v);
    assert r[a] == ByteAt(v, 0) && r[a + 1] == ByteAt(v, 1) && r[a + 2] == ByteAt(v, 2) && r[a + 3] == ByteAt(v, 3);
    BytesJoin(v);
  }

  lemma BytesJoin(v: Word)
    ensures ((ByteAt(v, 0) * 256 + ByteAt(v, 1) as int) * 256 + ByteAt(v, 2) as int) * 256 + ByteAt(v, 3) as int == v
  {
  }

  // What one wait does to a dead process: nothing, or the caller gets it.
  lemma WaitSettles(s: Sys, pid: int, status: Word, options: Word, i: nat, c: nat, code: nat)
    requires Shaped(s) && (status != 0 ==> UserRange(status, 4)) && Corpse(s, i, c, code) && i != s.active && code < W
    ensures var (t, r) := Wait(s, pid, status, options);
            || Stays(s, t, i)
            || (Cur(s).pid == s.slots[i].value.father && r == c && t.active == s.active && Cur(t) == Cur(s)
                && (status != 0 ==> WordAt(t.window, status) == code))
  {
    hide StoredWord, WordAt, ChildAt;
    var z := DeadChild(s, Cur(s).pid, pid, 1);
    if z == i && status != 0 { WordStored(s.window, status, Wrap(code)); }
    if z < 9 { ChildFather(s, z, Cur(s).pid, pid); }
  }

  lemma ChildFather(s: Sys, i: nat, me: nat, pid: int)
    requires |s.slots| == 9 && i < 9 && ChildAt(s, i, me, pid)
    ensures s.slots[i].Some? && s.slots[i].value.father == me
  {
  }

  lemma ActivateStays(s: Sys, k: nat, i: nat)
    requires Shaped(s) && 1 <= k <= 8 && s.slots[k].Some? && i < 9 && s.slots[i].Some?
    ensures Stays(s, Activate(s, k), i) && Activate(s, k).slots[i].value.father == s.slots[i].value.father
    ensures Activate(s, k).slots[i].value.state == s.slots[i].value.state
  {
  }

  lemma TtyStays(s: Sys, buf: Word, count: Word, i: nat)
    requires Shaped(s) && UserRange(buf, count) && i < 9 && s.slots[i].Some?
    ensures Stays(s, TtyRead(s, buf, count).0, i)
  {
    hide Unread, Stored, LineReady, FirstLine;
  }

  lemma SetCurStays(s: Sys, p: Proc, i: nat)
    requires Shaped(s) && i < 9 && s.slots[i].Some?
    requires i == s.active ==> p.pid == Cur(s).pid && p.exitCode == Cur(s).exitCode && p.father == Cur(s).father && p.state.Zombie? == Cur(s).state.Zombie?
    ensures Stays(s, SetCur(s, p), i)
  {
  }

  lemma StaysThen(s: Sys, t: Sys, u: Sys, i: nat)
    requires Stays(s, t, i) && Stays(t, u, i)
    ensures Stays(s, u, i)
  {
  }

  // A replay leaves a dead process alone or hands it to the one replayed.
  lemma ReplaySettles(s: Sys, k: nat, i: nat, c: nat, code: nat)
    requires Good(s) && 1 <= k <= 8 && s.slots[k].Some? && s.slots[k].value.state.Interruptible? && Corpse(s, i, c, code) && code < W
    ensures || Stays(s, Replay(s, k), i)
            || (s.slots[k].value.blocked.OnWait? && s.slots[k].value.pid == s.slots[i].value.father
                && Told(Replay(s, k), k, s.slots[k].value.pid, c, s.slots[k].value.blocked.status, code))
  {
    hide Activate, TtyRead, Wait, Distinct, RingOk, FatherOk, WordAt, UserRange, Stays;
    var u := Activate(s, k);
    ActivateTree(s, k);
    SameTreeGood(s, u);
    assert SameProc(s.slots[k], u.slots[k]) && ProcOk(u, k);
    ActivateStays(s, k, i);
    assert Corpse(u, i, c, code) by { StaysCorpse(s, u, i, c, code); }
    match Cur(u).blocked
    case OnRead(buf, count) =>
      var t := TtyRead(u, buf, count).0;
      TtyStays(u, buf, count, i);
      StaysThen(s, u, t, i);
      AfterCall(s, t, TtyRead(u, buf, count).1, k, i);
    case OnWait(child, status) =>
      var (t, r) := Wait(u, child, status, 0);
      WaitSettles(u, child, status, 0, i, c, code);
      if Stays(u, t, i) {
        StaysThen(s, u, t, i);
        AfterCall(s, t, r, k, i);
      } else {
        HandedOver(t, k, s.slots[k].value.pid, c, status, code);
      }
  }

  // The collector's call finished.
  lemma HandedOver(t: Sys, k: nat, q: nat, c: nat, p: Word, code: nat)
    requires Shaped(t) && t.active == k && Cur(t).pid == q && (p != 0 ==> UserRange(p, 4) && WordAt(t.window, p) == code)
    ensures Told(SetCur(t, Result(Cur(t), c).(blocked := NotBlocked, state := Running)), k, q, c, p, code)
  {
    hide WordAt, UserRange;
  }

  lemma StaysCorpse(s: Sys, u: Sys, i: nat, c: nat, code: nat)
    requires Corpse(s, i, c, code) && Stays(s, u, i)
    ensures Corpse(u, i, c, code)
  {
  }

  lemma AfterCall(s: Sys, t: Sys, r: int, k: nat, i: nat)
    requires Shaped(t) && t.active == k && i != k && i < 9 && Stays(s, t, i)
    ensures Stays(s, SetCur(t, Result(Cur(t), r).(blocked := NotBlocked, state := Running)), i)
  {
  }

  lemma WaitAlive(s: Sys, pid: int, status: Word, options: Word, i: nat)
    requires Shaped(s) && (status != 0 ==> UserRange(status, 4)) && Alive(s, i) && i < 9
    ensures var t := Wait(s, pid, status, options).0; Stays(s, t, i) && Alive(t, i)
  {
    hide StoredWord, ChildAt;
  }

  // A replay ends nobody.
  lemma ReplayAlive(s: Sys, k: nat, i: nat)
    requires Good(s) && 1 <= k <= 8 && s.slots[k].Some? && s.slots[k].value.state.Interruptible? && Alive(s, i)
    ensures Stays(s, Replay(s, k), i) && Alive(Replay(s, k), i)
  {
    hide Activate, TtyRead, Wait, Distinct, RingOk, FatherOk, UserRange, Stays;
    var u := Activate(s, k);
    ActivateTree(s, k);
    SameTreeGood(s, u);
    assert SameProc(s.slots[k], u.slots[k]) && ProcOk(u, k);
    ActivateStays(s, k, i);
    match Cur(u).blocked
    case OnRead(buf, count) =>
      var t := TtyRead(u, buf, count).0;
      TtyStays(u, buf, count, i);
      StaysThen(s, u, t, i);
      AliveStays(s, t, i);
      AfterOwnCall(s, t, TtyRead(u, buf, count).1, k, i);
    case OnWait(child, status) =>
      var (t, r) := Wait(u, child, status, 0);
      AliveStays(s, u, i);
      WaitAlive(u, child, status, 0, i);
      StaysThen(s, u, t, i);
      AfterOwnCall(s, t, r, k, i);
  }

  lemma AliveStays(s: Sys, t: Sys, i: nat)
    requires Alive(s, i) && Stays(s, t, i)
    ensures Alive(t, i)
  {
  }

  lemma AfterOwnCall(s: Sys, t: Sys, r: int, k: nat, i: nat)
    requires Shaped(t) && t.active == k && i < 9 && Stays(s, t, i) && Alive(t, i)
    ensures var u := SetCur(t, Result(Cur(t), r).(blocked := NotBlocked, state := Running)); Stays(s, u, i) && Alive(u, i)
  {
  }

  lemma ReplayAllIsolated(s: Sys, k: nat)
    requires Good(s) && 1 <= k <= 8 && s.slots[k].Some? && s.slots[k].value.state.Interruptible?
    ensures AllIsolated(s, Replay(s, k))
  {
    hide Replay, Isolated, ProcOk, Distinct, RingOk;
    forall j | 0 <= j < 9 ensures Isolated(s, Replay(s, k), j) {
      if j == k {
        AliveBlocked(s, k);
        ReplayOwn(s, k);
        OwnIsolated(s, Replay(s, k), k);
      } else {
        ReplayOther(s, k, j);
      }
    }
  }

  lemma OwnIsolated(s: Sys, t: Sys, k: nat)
    requires Alive(s, k) && (Untouched(s, t, k) || Resumed(s, t, k))
    ensures Isolated(s, t, k)
  {
  }

  // Whoever is blocked in a wait at t has been so since b, or trapped there
  // with it.
  predicate WaiterSince(b: Sys, saved: Context, t: Sys, k: nat) {
    Alive(t, k) && t.slots[k].value.blocked.OnWait? ==>
      && k < |b.slots| && b.slots[k].Some? && b.slots[k].value.pid == t.slots[k].value.pid
      && Waits(b, saved, k, t.slots[k].value.blocked.status)
  }

  ghost predicate Waiters(b: Sys, saved: Context, t: Sys) {
    forall k | 0 <= k < 9 :: WaiterSince(b, saved, t, k)
  }

  lemma WaiterStays(b: Sys, saved: Context, t: Sys, u: Sys, k: nat)
    requires WaiterSince(b, saved, t, k) && Isolated(t, u, k)
    ensures WaiterSince(b, saved, u, k)
  {
    hide Waits;
  }

  lemma WaitersStay(b: Sys, saved: Context, t: Sys, u: Sys)
    requires Waiters(b, saved, t) && AllIsolated(t, u)
    ensures Waiters(b, saved, u)
  {
    hide Isolated, WaiterSince;
    forall k | 0 <= k < 9 ensures WaiterSince(b, saved, u, k) {
      WaiterStays(b, saved, t, u, k);
    }
  }

  lemma ReplayFate(b: Sys, saved: Context, t: Sys, k: nat, i: nat, c: nat, code: nat)
    requires Fate(b, saved, t, i, c, code) && |b.slots| == 9 && i < 9 && Good(t) && 1 <= k <= 8 && code < W && Waiters(b, saved, t)
    requires t.slots[k].Some? && t.slots[k].value.state.Interruptible?
    ensures Fate(b, saved, Replay(t, k), i, c, code)
  {
    hide Replay, AllIsolated, ProcOk, Distinct, RingOk, Waits, Told, Stays, Isolated;
    ReplayAllIsolated(t, k);
    if Collected(b, saved, t, i, c, code) {
      CollectedStays(b, saved, t, Replay(t, k), i, c, code);
    } else if Living(t, i, c) {
      ReplayAlive(t, k, i);
      FateStays(b, saved, t, Replay(t, k), i, c, code);
    } else {
      ReplaySettles(t, k, i, c, code);
      if Stays(t, Replay(t, k), i) {
        FateStays(b, saved, t, Replay(t, k), i, c, code);
      } else {
        AliveBlocked(t, k);
        assert WaiterSince(b, saved, t, k);
        assert CollectedBy(b, saved, Replay(t, k), i, c, code, k, t.slots[k].value.blocked.status);
      }
    }
  }

  lemma {:induction false} ReplayFromFate(b: Sys, saved: Context, t: Sys, k: nat, i: nat, c: nat, code: nat)
    requires Fate(b, saved, t, i, c, code) && |b.slots| == 9 && i < 9 && Good(t) && 1 <= k <= 9 && code < W && Waiters(b, saved, t)
    ensures Fate(b, saved, ReplayFrom(t, k), i, c, code)
    decreases 9 - k
  {
    hide Replay, Fate, Distinct, FatherOk, WaitReady, LineReady, AllIsolated, RingOk, Waiters;
    if k < 9 {
      if t.slots[k].Some? && Ready(t, k) {
        assert ProcOk(t, k);
        ReplayFate(b, saved, t, k, i, c, code);
        ReplayGood(t, k);
        ReplayAllIsolated(t, k);
        WaitersStay(b, saved, t, Replay(t, k));
        ReplayFromFate(b, saved, Replay(t, k), k + 1, i, c, code);
      } else {
        ReplayFromFate(b, saved, t, k + 1, i, c, code);
      }
    }
  }

  // ---- the loop ----

  lemma PollStays(s: Sys, event: Word, i: nat)
    requires Shaped(s) && i < 9 && s.slots[i].Some?
    ensures Stays(s, Poll(s, event), i)
  {
    hide Walk, Typed, CharOf;
  }

  lemma KillFromAll(s: Sys)
    requires Shaped(s)
    ensures AllIsolated(s, KillFrom(s, 1))
  {
    hide KillFrom, Isolated;
    forall j | 0 <= j < 9 ensures Isolated(s, KillFrom(s, 1), j) { KillFromIsolated(s, 1, j); }
  }

  lemma ReplayFromAll(s: Sys)
    requires Good(s)
    ensures AllIsolated(s, ReplayFrom(s, 1))
  {
    hide ReplayFrom, Isolated, ProcOk, Distinct;
    forall j | 0 <= j < 9 ensures Isolated(s, ReplayFrom(s, 1), j) { ReplayFromIsolated(s, 1, j); }
  }

  lemma ActivateAll(s: Sys, k: nat)
    requires Shaped(s) && 1 <= k <= 8 && s.slots[k].Some?
    ensures AllIsolated(s, Activate(s, k))
  {
    hide Activate, Isolated;
    forall j | 0 <= j < 9 ensures Isolated(s, Activate(s, k), j) { ActivateIsolated(s, k, j); }
  }

  lemma PollAll(s: Sys, event: Word)
    requires Shaped(s)
    ensures AllIsolated(s, Poll(s, event))
  {
    hide Poll, Isolated;
    forall j | 0 <= j < 9 ensures Isolated(s, Poll(s, event), j) { PollIsolated(s, event, j); }
  }

  lemma {:induction false} LoopFate(b: Sys, saved: Context, t: Sys, nr: Word, events: seq<Word>, i: nat, c: nat, code: nat)
    requires Fate(b, saved, t, i, c, code) && |b.slots| == 9 && i < 9 && Good(t) && code < W && Waiters(b, saved, t)
    requires Loop(t, nr, events).Some?
    ensures Fate(b, saved, Loop(t, nr, events).value, i, c, code)
    decreases |events|
  {
    hide KillFrom, ReplayFrom, Activate, Poll, NextRunnable, Fate, Waiters, AllIsolated, ProcOk, Distinct, RingOk, Stays;
    KillFromFate(b, saved, t, 1, i, c, code);
    KillFromGood(t, 1);
    KillFromAll(t);
    var r := KillFrom(t, 1);
    WaitersStay(b, saved, t, r);
    ReplayFromFate(b, saved, r, 1, i, c, code);
    ReplayFromGood(r, 1);
    ReplayFromAll(r);
    var u := ReplayFrom(r, 1);
    WaitersStay(b, saved, r, u);
    var k := Choose(u, nr);
    if k > 0 {
      if u.slots[i].Some? { ActivateStays(u, k, i); }
      ActivateAll(u, k);
      FateStays(b, saved, u, Activate(u, k), i, c, code);
    } else if events != [] {
      if u.slots[i].Some? { PollStays(u, events[0], i); }
      PollAll(u, events[0]);
      FateStays(b, saved, u, Poll(u, events[0]), i, c, code);
      PollGood(u, events[0]);
      WaitersStay(b, saved, u, Poll(u, events[0]));
      LoopFate(b, saved, Poll(u, events[0]), nr, events[1..], i, c, code);
    }
  }

  // ---- the call ----

  lemma ExitStays(s: Sys, status: nat, i: nat)
    requires Shaped(s) && i < 9 && i != s.active && s.slots[i].Some?
    ensures Stays(s, Exit(s, status), i)
  {
  }

  // A call other than a wait leaves the other processes where they are.
  lemma PerformStays(s: Sys, nr: Word, a: Word, b: Word, c: Word, v: Service, i: nat)
    requires Shaped(s) && i < 9 && i != s.active && s.slots[i].Some? && nr != 7
    ensures Stays(s, Perform(s, nr, a, b, c, v).0, i)
  {
    hide Walk, Exit, TtyRead, Wait;
    if nr == 1 { ExitStays(s, a % 256 * 256, i); }
    if nr == 3 && UserRange(b, c) { TtyStays(s, b, c, i); }
  }

  // What a call does to a dead process: nothing, or it is the wait that gets it.
  lemma PerformSettles(s: Sys, nr: Word, a: Word, b: Word, c: Word, v: Service, i: nat, d: nat, code: nat)
    requires Good(s) && Corpse(s, i, d, code) && i != s.active && i < 9 && code < W
    ensures var (t, r) := Perform(s, nr, a, b, c, v);
            || Stays(s, t, i)
            || (nr == 7 && Cur(s).pid == s.slots[i].value.father && r == d && t.active == s.active && Cur(t) == Cur(s)
                && (b != 0 ==> UserRange(b, 4) && WordAt(t.window, b) == code))
  {
    hide Wait, WordAt, Distinct, RingOk, ProcOk;
    if nr != 7 {
      PerformStays(s, nr, a, b, c, v, i);
    } else if b == 0 || UserRange(b, 4) {
      WaitSettles(s, Signed(a), b, c, i, d, code);
    }
  }

  lemma PerformAlive(s: Sys, nr: Word, a: Word, b: Word, c: Word, v: Service, i: nat)
    requires Shaped(s) && Alive(s, i) && i != s.active && i < 9
    ensures Stays(s, Perform(s, nr, a, b, c, v).0, i)
  {
    hide Wait;
    if nr != 7 {
      PerformStays(s, nr, a, b, c, v, i);
    } else if b == 0 || UserRange(b, 4) {
      WaitAlive(s, Signed(a), b, c, i);
    }
  }

  // What Serve adds on top of a call concerns the caller alone.
  lemma ServeShape(s: Sys, v: Service)
    requires Shaped(s)
    ensures var x := Cur(s).context.regs;
            var (t, r) := Perform(s, x[1], x[2], x[3], x[4], v);
            !Doomed(s, s.active) && Alive(s, s.active) ==>
              && Serve(s, v) == SetCur(t, Cur(Serve(s, v)))
              && (r != -EAGAIN && r != REPLACED ==> Serve(s, v) == SetCur(t, Result(Cur(t), r)))
              && (r == REPLACED ==> Serve(s, v) == t)
    ensures Doomed(s, s.active) ==> Serve(s, v) == SetCur(Exit(s, 2), Result(Cur(Exit(s, 2)), 0))
  {
    hide Perform, Exit;
    var x := Cur(s).context.regs;
    var t := Perform(s, x[1], x[2], x[3], x[4], v).0;
    SameCur(t);
  }

  lemma OthersStay(t: Sys, p: Proc, i: nat)
    requires Shaped(t) && i < 9 && i != t.active && t.slots[i].Some?
    ensures Stays(t, SetCur(t, p), i)
  {
  }

  lemma ServeAlive(s: Sys, v: Service, i: nat, c: nat)
    requires Good(s) && Runnable(s, s.active) && Living(s, i, c) && i != s.active && i < 9
    ensures Stays(s, Serve(s, v), i) && Living(Serve(s, v), i, c)
  {
    hide Perform, Exit, Serve, Stays, ProcOk, Distinct, RingOk;
    ServeShape(s, v);
    var x := Cur(s).context.regs;
    var t := Perform(s, x[1], x[2], x[3], x[4], v).0;
    if Doomed(s, s.active) {
      ExitStays(s, 2, i);
      t := Exit(s, 2);
    } else {
      PerformAlive(s, x[1], x[2], x[3], x[4], v, i);
    }
    StaysSome(s, t, i);
    OthersStay(t, Cur(Serve(s, v)), i);
    StaysThen(s, t, Serve(s, v), i);
    AliveStays(s, Serve(s, v), i);
    StaysSome(s, Serve(s, v), i);
  }

  lemma StaysSome(s: Sys, t: Sys, i: nat)
    requires Stays(s, t, i)
    ensures i < |t.slots| && t.slots[i].Some? && i < |s.slots| && s.slots[i].Some? && t.slots[i].value.pid == s.slots[i].value.pid
  {
  }

  lemma ServeSettles(s: Sys, v: Service, i: nat, d: nat, code: nat)
    requires Good(s) && Runnable(s, s.active) && Corpse(s, i, d, code) && i < 9 && code < W
    ensures var x, t := Cur(s).context.regs, Serve(s, v);
            || Stays(s, t, i)
            || (x[1] == 7 && Cur(s).pid == s.slots[i].value.father && Told(t, s.active, Cur(s).pid, d, x[3], code))
  {
    hide Perform, Exit, Serve, Stays, ProcOk, Distinct, RingOk, Told;
    ServeShape(s, v);
    var x := Cur(s).context.regs;
    var (t, r) := Perform(s, x[1], x[2], x[3], x[4], v);
    if Doomed(s, s.active) {
      ExitStays(s, 2, i);
      StaysSome(s, Exit(s, 2), i);
      OthersStay(Exit(s, 2), Cur(Serve(s, v)), i);
      StaysThen(s, Exit(s, 2), Serve(s, v), i);
    } else {
      PerformSettles(s, x[1], x[2], x[3], x[4], v, i, d, code);
      if Stays(s, t, i) {
        StaysSome(s, t, i);
        OthersStay(t, Cur(Serve(s, v)), i);
        StaysThen(s, t, Serve(s, v), i);
      } else {
        RunnableUnblocked(s);
        ToldByServe(t, Serve(s, v), r, Cur(s).pid, d, x[3], code);
      }
    }
  }

  lemma ToldByServe(t: Sys, u: Sys, r: int, q: nat, d: nat, p: Word, code: nat)
    requires Shaped(t) && Cur(t).blocked.NotBlocked? && r == d
    requires r != -EAGAIN && r != REPLACED ==> u == SetCur(t, Result(Cur(t), r))
    requires r == REPLACED ==> u == t
    requires p != 0 ==> UserRange(p, 4) && WordAt(t.window, p) == code
    ensures Told(u, t.active, q, d, p, code)
  {
    hide WordAt, UserRange;
  }

  lemma ServeSelf(s: Sys, v: Service)
    requires Good(s) && Runnable(s, s.active)
    ensures var x, t, i, c := Cur(s).context.regs, Serve(s, v), s.active, Cur(s).pid;
            && SameFatherOrInit(s, t, i)
            && (!Doomed(s, i) && x[1] == 1 ==> Corpse(t, i, c, x[2] % 256 * 256))
            && (Doomed(s, i) ==> Corpse(t, i, c, 2))
            && (!Doomed(s, i) && x[1] != 1 ==> Living(t, i, c))
  {
    hide Perform, Exit, ProcOk, Distinct, RingOk;
    var x := Cur(s).context.regs;
    ExitOwn(s, 2);
    if x[1] == 1 {
      PerformExit(s, x[2], x[3], x[4], v);
      ExitOwn(s, x[2] % 256 * 256);
    } else {
      CallerAfter(s, x[1], x[2], x[3], x[4], v);
      CallerFather(s, x[1], x[2], x[3], x[4], v);
    }
  }

  lemma PerformExit(s: Sys, a: Word, b: Word, c: Word, v: Service)
    requires Shaped(s)
    ensures Perform(s, 1, a, b, c, v) == (Exit(s, a % 256 * 256), 0)
  {
    hide Exit;
  }

  lemma ExitOwn(s: Sys, status: nat)
    requires Good(s)
    ensures var t := Exit(s, status);
            && Cur(t).state.Zombie? && Cur(t).exitCode == status && Cur(t).pid == Cur(s).pid && Cur(t).father == Cur(s).father
  {
    assert ProcOk(s, s.active);
  }

  lemma CallerFather(s: Sys, nr: Word, a: Word, b: Word, c: Word, v: Service)
    requires Shaped(s) && nr != 1
    ensures Cur(Perform(s, nr, a, b, c, v).0).father == Cur(s).father
  {
    hide Walk, Stored, StoredWord, Unread, SlotOf, FreeSlot, LineReady, FirstLine;
  }

  // ---- one dispatch ----

  // The state in which the trap is served: registers saved, events polled.
  function Trapped(s: Sys, saved: Context, event: Word): (t: Sys)
    requires Shaped(s)
    ensures Shaped(t) && t.active == s.active
  {
    Poll(SetCur(s, Cur(s).(context := saved)), event)
  }

  // The status the process in slot i leaves when this trap is its end: the low
  // byte of its argument, one byte up, if it asks for exit before a Ctrl+C
  // takes it; 2 if it is killed.
  function LastStatus(s: Sys, saved: Context, event: Word, i: nat): nat
    requires Shaped(s)
  {
    if i == s.active && saved.regs[1] == 1 && !Doomed(Trapped(s, saved, event), i) then saved.regs[2] % 256 * 256 else 2
  }

  lemma TrappedTree(s: Sys, saved: Context, event: Word)
    requires Good(s) && Runnable(s, s.active)
    ensures var b := Trapped(s, saved, event);
            && Good(b) && Runnable(b, b.active) && b.active == s.active && Cur(b).context == saved && Cur(b).pid == Cur(s).pid
            && SameTree(s, b)
  {
    hide ProcOk, Distinct, RingOk, Poll;
    var a := SetCur(s, Cur(s).(context := saved));
    SameTreeGood(s, a);
    PollGood(a, event);
    var b := Poll(a, event);
    assert SameProc(a.slots[s.active], b.slots[s.active]);
    PollUntouched(a, event, s.active);
    forall k | 0 <= k < 9 ensures SameProc(s.slots[k], b.slots[k]) {
      assert SameProc(s.slots[k], a.slots[k]) && SameProc(a.slots[k], b.slots[k]);
    }
  }

  lemma TrappedStays(s: Sys, saved: Context, event: Word, i: nat)
    requires Shaped(s) && i < 9 && s.slots[i].Some?
    ensures Stays(s, Trapped(s, saved, event), i)
  {
    hide Poll, Stays;
    var p := Cur(s).(context := saved);
    SetCurStays(s, p, i);
    PollStays(SetCur(s, p), event, i);
    StaysThen(s, SetCur(s, p), Poll(SetCur(s, p), event), i);
  }

  // Who waits once the call is served: those who waited before, and the caller
  // if its call is a wait.
  lemma ServeBlocks(s: Sys, v: Service)
    requires Good(s) && Runnable(s, s.active)
    ensures var x, t := Cur(s).context.regs, Serve(s, v);
            && Cur(t).pid == Cur(s).pid
            && (Cur(t).blocked.OnWait? ==> x[1] == 7 && Cur(t).blocked.status == x[3])
  {
    hide Perform, Exit, ProcOk, Distinct, RingOk;
    var x := Cur(s).context.regs;
    RunnableUnblocked(s);
    ExitKeeps(s, 2);
    if x[1] == 1 {
      PerformExit(s, x[2], x[3], x[4], v);
      ExitKeeps(s, x[2] % 256 * 256);
    }
    CallerAfter(s, x[1], x[2], x[3], x[4], v);
  }

  lemma ServeWaiter(s: Sys, saved: Context, event: Word, v: Service, k: nat)
    requires Good(s) && Runnable(s, s.active) && k < 9
    ensures WaiterSince(s, saved, Serve(Trapped(s, saved, event), v), k)
  {
    hide Serve, Trapped, ProcOk, Distinct, RingOk, Poll;
    var b := Trapped(s, saved, event);
    TrappedTree(s, saved, event);
    assert SameProc(s.slots[k], b.slots[k]);
    if k == s.active {
      ServeBlocks(b, v);
    } else if Alive(b, k) {
      ServeUntouched(b, v, k);
    } else {
      ServeGone(b, v, k);
    }
  }

  lemma ServeFate(s: Sys, saved: Context, event: Word, v: Service, i: nat, c: nat, code: nat)
    requires Good(s) && Runnable(s, s.active) && i < 9 && code < W
    requires Corpse(s, i, c, code) || (Living(s, i, c) && code == LastStatus(s, saved, event, i))
    ensures Fate(s, saved, Serve(Trapped(s, saved, event), v), i, c, code)
  {
    hide Serve, Trapped, ProcOk, Distinct, RingOk, Collected, Told, Stays;
    var b := Trapped(s, saved, event);
    TrappedTree(s, saved, event);
    TrappedStays(s, saved, event, i);
    assert SameProc(s.slots[i], b.slots[i]);
    if Corpse(s, i, c, code) {
      StaysCorpse(s, b, i, c, code);
      ServeSettles(b, v, i, c, code);
      if Stays(b, Serve(b, v), i) {
        StaysThen(s, b, Serve(b, v), i);
        StaysFate(s, saved, Serve(b, v), i, c, code);
      } else {
        CollectedNow(s, saved, Serve(b, v), i, c, code, s.active, saved.regs[3]);
      }
    } else if i != s.active {
      ServeAlive(b, v, i, c);
      StaysThen(s, b, Serve(b, v), i);
      StaysFather(s, Serve(b, v), i);
    } else {
      ServeSelf(b, v);
    }
  }

  lemma StaysFather(s: Sys, t: Sys, i: nat)
    requires Stays(s, t, i)
    ensures SameFatherOrInit(s, t, i)
  {
  }

  lemma StaysFate(s: Sys, saved: Context, t: Sys, i: nat, c: nat, code: nat)
    requires Corpse(s, i, c, code) && Stays(s, t, i)
    ensures Fate(s, saved, t, i, c, code)
  {
    hide Collected;
  }

  lemma CollectedNow(s: Sys, saved: Context, t: Sys, i: nat, c: nat, code: nat, j: nat, p: Word)
    requires CollectedBy(s, saved, t, i, c, code, j, p)
    ensures Collected(s, saved, t, i, c, code)
  {
    hide CollectedBy;
  }

  // In one dispatch a living process keeps living, or leaves the status this
  // dispatch gives it; a dead one stays dead with its status; or its father
  // collects it.
  lemma DispatchFate(s: Sys, saved: Context, event: Word, v: Service, events: seq<Word>, i: nat, c: nat, code: nat)
    requires Good(s) && Runnable(s, s.active) && Answers(v) && Dispatch(s, saved, event, v, events).Some? && i < 9 && code < W
    requires Corpse(s, i, c, code) || (Living(s, i, c) && code == LastStatus(s, saved, event, i))
    ensures Fate(s, saved, Dispatch(s, saved, event, v, events).value, i, c, code)
  {
    hide Loop, Poll, Serve, ProcOk, Distinct, RingOk, Fate, WaiterSince, LastStatus, Corpse, Living;
    var b := Trapped(s, saved, event);
    TrappedTree(s, saved, event);
    ServeGood(b, v);
    ServeFate(s, saved, event, v, i, c, code);
    forall k | 0 <= k < 9 ensures WaiterSince(s, saved, Serve(b, v), k) { ServeWaiter(s, saved, event, v, k); }
    LoopFate(s, saved, Serve(b, v), saved.regs[1], events, i, c, code);
  }

  // ---- whole runs ----

  // Process c lies dead in slot i with this status, and stays so until, if
  // ever, a wait of its father returns its pid and stores the status.
  ghost predicate Reported(s: Sys, moves: seq<Move>, i: nat, c: nat, code: nat)
    requires Shaped(s)
    decreases |moves|
  {
    Corpse(s, i, c, code) &&
    (moves == [] ||
     var m := moves[0];
     var u := s.(window := m.window);
     match Dispatch(u, m.saved, m.event, m.service, m.events)
     case None => true
     case Some(t) => Collected(u, m.saved, t, i, c, code) || Reported(t, moves[1..], i, c, code))
  }

  lemma CorpsePid(s: Sys, i: nat, c: nat, code: nat)
    requires Good(s) && i < 9 && Corpse(s, i, c, code)
    ensures c <= s.nextPid
  {
    hide Distinct, RingOk, FatherOk;
    assert ProcOk(s, i);
  }

  lemma {:induction false} RunReports(s: Sys, moves: seq<Move>, i: nat, c: nat, code: nat)
    requires Good(s) && Runnable(s, s.active) && Run(s, moves).Some? && i < 9 && code < W && Corpse(s, i, c, code)
    requires forall m | m in moves :: Answers(m.service)
    ensures Reported(s, moves, i, c, code)
    decreases |moves|
  {
    hide Dispatch, ProcOk, Distinct, RingOk, Collected;
    if moves != [] {
      var m := moves[0];
      var u := s.(window := m.window);
      SameTreeGood(s, u);
      DispatchGood(u, m.saved, m.event, m.service, m.events);
      DispatchFate(u, m.saved, m.event, m.service, m.events, i, c, code);
      var t := Dispatch(u, m.saved, m.event, m.service, m.events).value;
      if Living(t, i, c) {
        CorpsePid(s, i, c, code);
        DispatchGone(u, m.saved, m.event, m.service, m.events, i, c);
      }
      if !Collected(u, m.saved, t, i, c, code) {
        RunReports(t, moves[1..], i, c, code);
      }
    }
  }

  // The life of process c in slot i over a run: it lives on, or it ends in one
  // dispatch with the status that dispatch gives it and leaves it to its father.
  ghost predicate Story(s: Sys, moves: seq<Move>, i: nat, c: nat)
    requires Shaped(s)
    decreases |moves|
  {
    Living(s, i, c) &&
    (moves == [] ||
     var m := moves[0];
     var u := s.(window := m.window);
     var code := LastStatus(u, m.saved, m.event, i);
     match Dispatch(u, m.saved, m.event, m.service, m.events)
     case None => true
     case Some(t) =>
       || Collected(u, m.saved, t, i, c, code)
       || Reported(t, moves[1..], i, c, code)
       || (code == 2 && Story(t, moves[1..], i, c)))
  }

  lemma {:induction false} StatusReported(s: Sys, moves: seq<Move>, i: nat, c: nat)
    requires Good(s) && Runnable(s, s.active) && Run(s, moves).Some? && i < 9 && Living(s, i, c)
    requires forall m | m in moves :: Answers(m.service)
    ensures Story(s, moves, i, c)
    decreases |moves|
  {
    hide Dispatch, ProcOk, Distinct, RingOk, Collected, Reported, Trapped;
    if moves != [] {
      var m := moves[0];
      var u := s.(window := m.window);
      var code := LastStatus(u, m.saved, m.event, i);
      SameTreeGood(s, u);
      DispatchGood(u, m.saved, m.event, m.service, m.events);
      DispatchFate(u, m.saved, m.event, m.service, m.events, i, c, code);
      var t := Dispatch(u, m.saved, m.event, m.service, m.events).value;
      if Corpse(t, i, c, code) {
        RunReports(t, moves[1..], i, c, code);
      } else if Living(t, i, c) && code == 2 {
        StatusReported(t, moves[1..], i, c);
      }
    }
  }

  // A process that exits with status a is found dead with the low byte of a,
  // one byte up, however many dispatches later its father waits for it.
  lemma ExitReported(s: Sys, moves: seq<Move>)
    requires Good(s) && Runnable(s, s.active) && Run(s, moves).Some? && moves != []
    requires forall m | m in moves :: Answers(m.service)
    requires moves[0].saved.regs[1] == 1 && !Doomed(Trapped(s.(window := moves[0].window), moves[0].saved, moves[0].event), s.active)
    ensures var m, i, c := moves[0], s.active, Cur(s).pid;
            var u, code := s.(window := m.window), m.saved.regs[2] % 256 * 256;
            var t := Dispatch(u, m.saved, m.event, m.service, m.events).value;
            Collected(u, m.saved, t, i, c, code) || Reported(t, moves[1..], i, c, code)
  {
    hide Dispatch, ProcOk, Distinct, RingOk, Collected, Reported, Trapped;
    StatusReported(s, moves, s.active, Cur(s).pid);
  }
}
