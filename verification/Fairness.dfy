// Round robin over whole runs: how long a process that can run may have to
// wait while the others yield to one another.
module Fairness {
  import opened Words
  import opened Process
  import opened Tree
  import opened Isolation

  const YIELD: Word := 101

  // How many slots after the active one, less one, slot i comes.
  function Distance(active: nat, i: nat): (d: nat)
    requires 1 <= active <= 8 && 1 <= i <= 8
    ensures d < 8
  {
    if i > active then i - active - 1 else i + 7 - active
  }

  // What a process can still undergo without running: a blocked one its
  // replay and a kill, a running one a kill.
  function Due(p: Option<Proc>): nat {
    match p
    case None => 0
    case Some(q) => match q.state case Interruptible => 2 case Running => 1 case Zombie => 0
  }

  function Weight(s: Sys, n: nat): nat
    requires n <= |s.slots|
  {
    if n == 0 then 0 else Weight(s, n - 1) + Due(s.slots[n - 1])
  }

  lemma {:induction false} WeightBound(s: Sys, n: nat)
    requires n <= |s.slots|
    ensures Weight(s, n) <= 2 * n
  {
    if n > 0 { WeightBound(s, n - 1); }
  }

  // Slot by slot no more.
  ghost predicate NoMoreDue(s: Sys, t: Sys) {
    |s.slots| == 9 == |t.slots| && forall j | 0 <= j < 9 :: Due(t.slots[j]) <= Due(s.slots[j])
  }

  lemma {:induction false} WeightLess(s: Sys, t: Sys, k: nat, n: nat)
    requires NoMoreDue(s, t) && n <= 9 && k < 9
    ensures Weight(t, n) <= Weight(s, n)
    ensures k < n && Due(t.slots[k]) < Due(s.slots[k]) ==> Weight(t, n) < Weight(s, n)
  {
    hide Due;
    if n > 0 { WeightLess(s, t, k, n - 1); }
  }

  // ---- one pass ----

  // The window moves only if something became due no longer.
  ghost predicate Calm(s: Sys, t: Sys) {
    |s.slots| == 9 == |t.slots| && Weight(t, 9) <= Weight(s, 9) && (t.active == s.active || Weight(t, 9) < Weight(s, 9))
  }

  lemma KillCalm(s: Sys, k: nat)
    requires Shaped(s) && 1 <= k <= 8 && Doomed(s, k)
    ensures Calm(s, Kill(s, k))
  {
    var t := Kill(s, k);
    assert NoMoreDue(s, t);
    WeightLess(s, t, k, 9);
  }

  lemma {:induction false} KillFromCalm(s: Sys, k: nat)
    requires Shaped(s) && 1 <= k <= 9
    ensures Calm(s, KillFrom(s, k))
    decreases 9 - k
  {
    hide Kill, Weight;
    if k < 9 {
      if Doomed(s, k) {
        KillCalm(s, k);
        KillFromCalm(Kill(s, k), k + 1);
      } else {
        KillFromCalm(s, k + 1);
      }
    }
  }

  // A replay unblocks the process and adds nothing for anyone else.
  lemma ReplayDue(s: Sys, k: nat)
    requires Good(s) && 1 <= k <= 8 && s.slots[k].Some? && s.slots[k].value.state.Interruptible? && Ready(s, k)
    ensures NoMoreDue(s, Replay(s, k)) && Due(Replay(s, k).slots[k]) < Due(s.slots[k])
  {
    hide Unread, Stored, StoredWord, LineReady, ChildAt, DeadChildAt, ProcOk, Distinct, FirstLine, WaitReady;
    ReadyExact(s, k);
    ActivateTree(s, k);
    forall j | 0 <= j < 9 ensures Due(Replay(s, k).slots[j]) <= Due(s.slots[j]) {
      assert SameProc(s.slots[j], Activate(s, k).slots[j]);
    }
  }

  lemma {:induction false} ReplayFromCalm(s: Sys, k: nat)
    requires Good(s) && 1 <= k <= 9
    ensures Calm(s, ReplayFrom(s, k))
    decreases 9 - k
  {
    hide Replay, Weight, Due, Distinct, FatherOk, WaitReady, LineReady, RingOk;
    if k < 9 {
      if s.slots[k].Some? && Ready(s, k) {
        assert ProcOk(s, k);
        ReplayDue(s, k);
        WeightLess(s, Replay(s, k), k, 9);
        ReplayGood(s, k);
        ReplayFromCalm(Replay(s, k), k + 1);
      } else {
        ReplayFromCalm(s, k + 1);
      }
    }
  }

  // ---- the choice ----

  lemma Slot(active: nat, n: nat)
    requires 1 <= active <= 8 && 1 <= n <= 8
    ensures (active - 1 + n) % 8 + 1 == if active + n <= 8 then active + n else active + n - 8
  {
  }

  lemma {:induction false} NextIsNearest(s: Sys, n: nat, i: nat)
    requires Shaped(s) && Runnable(s, i) && 1 <= i <= 8
    requires 1 <= n <= Distance(s.active, i) + 1
    ensures 1 <= NextRunnable(s, n) <= 8
    ensures NextRunnable(s, n) == i || Distance(NextRunnable(s, n), i) < Distance(s.active, i)
    decreases 9 - n
  {
    hide Runnable;
    Slot(s.active, n);
    var k := (s.active - 1 + n) % 8 + 1;
    if k != i && !Runnable(s, k) {
      NextIsNearest(s, n + 1, i);
    }
  }

  // ---- one yield ----

  lemma YieldServed(s: Sys, v: Service)
    requires Good(s) && Runnable(s, s.active) && Cur(s).context.regs[1] == YIELD
    ensures Calm(s, Serve(s, v)) && Serve(s, v).active == s.active
    ensures forall j | 0 <= j < 9 && j != s.active && Runnable(s, j) :: Runnable(Serve(s, v), j)
  {
    hide Weight;
    var t := Serve(s, v);
    assert NoMoreDue(s, t);
    WeightLess(s, t, 0, 9);
  }

  lemma SameTreeWeight(s: Sys, t: Sys)
    requires SameTree(s, t) && |s.slots| == 9
    ensures Weight(t, 9) == Weight(s, 9)
  {
    assert NoMoreDue(s, t) && NoMoreDue(t, s);
    WeightLess(s, t, 0, 9);
    WeightLess(t, s, 0, 9);
  }

  lemma KillRuns(s: Sys, k: nat, i: nat)
    requires Shaped(s) && 1 <= k <= 8 && s.slots[k].Some? && i != k && i < 9
    ensures Runnable(s, i) ==> Runnable(Kill(s, k), i)
    ensures !Alive(s, i) ==> !Alive(Kill(s, k), i)
    ensures !Alive(Kill(s, k), k)
  {
  }

  lemma {:induction false} KillFromRuns(s: Sys, k: nat, i: nat)
    requires Shaped(s) && 1 <= k <= 9 && i < 9
    ensures Runnable(s, i) ==> Runnable(KillFrom(s, k), i) || !Alive(KillFrom(s, k), i)
    decreases 9 - k
  {
    hide Kill;
    if k < 9 {
      if Doomed(s, k) {
        KillRuns(s, k, if i == k then 0 else i);
        KillFromRuns(Kill(s, k), k + 1, i);
        KillExact(s, k, i);
      } else {
        KillFromRuns(s, k + 1, i);
      }
    }
  }

  lemma ReplayRuns(s: Sys, k: nat, i: nat)
    requires Good(s) && 1 <= k <= 8 && s.slots[k].Some? && s.slots[k].value.state.Interruptible? && Runnable(s, i) && i < 9
    ensures Runnable(Replay(s, k), i)
  {
    hide Unread, Stored, StoredWord, LineReady, ChildAt, ProcOk, Distinct, FirstLine;
    ActivateTree(s, k);
    assert SameProc(s.slots[i], Activate(s, k).slots[i]);
  }

  lemma {:induction false} ReplayFromRuns(s: Sys, k: nat, i: nat)
    requires Good(s) && 1 <= k <= 9 && Runnable(s, i) && i < 9
    ensures Runnable(ReplayFrom(s, k), i)
    decreases 9 - k
  {
    hide Replay, Distinct, FatherOk, WaitReady, LineReady, RingOk;
    if k < 9 {
      if s.slots[k].Some? && Ready(s, k) {
        assert ProcOk(s, k);
        ReplayRuns(s, k, i);
        ReplayGood(s, k);
        ReplayFromRuns(Replay(s, k), k + 1, i);
      } else {
        ReplayFromRuns(s, k + 1, i);
      }
    }
  }

  lemma LivingSlot(s: Sys, i: nat)
    requires Shaped(s) && Runnable(s, i)
    ensures 1 <= i <= 8 && Alive(s, i)
  {
  }

  // What a yield is worth to slot i: it comes nearer, unless the window moved
  // on the way, and then somebody has less to undergo.
  ghost predicate Nearer(s: Sys, t: Sys, i: nat)
    requires 1 <= i <= 8
  {
    && Shaped(s) && Shaped(t) && Weight(t, 9) <= Weight(s, 9)
    && (Weight(t, 9) < Weight(s, 9) || Distance(t.active, i) < Distance(s.active, i))
  }

  lemma LoopNearer(s: Sys, events: seq<Word>, i: nat)
    requires Good(s) && Runnable(s, i) && Loop(s, YIELD, events).Some?
    requires Alive(KillFrom(s, 1), i)
    ensures var t := Loop(s, YIELD, events).value;
            Runnable(t, i) && 1 <= i <= 8 && (t.active == i || Nearer(s, t, i))
  {
    hide KillFrom, ReplayFrom, Activate, NextRunnable, ProcOk, Distinct, RingOk, Weight, Poll;
    LivingSlot(s, i);
    var r := KillFrom(s, 1);
    KillFromGood(s, 1);
    KillFromCalm(s, 1);
    KillFromRuns(s, 1, i);
    var u := ReplayFrom(r, 1);
    ReplayFromGood(r, 1);
    ReplayFromCalm(r, 1);
    ReplayFromRuns(r, 1, i);
    NextIsNearest(u, 1, i);
    var k := NextRunnable(u, 1);
    ActivateTree(u, k);
    SameTreeWeight(u, Activate(u, k));
    assert SameProc(u.slots[i], Activate(u, k).slots[i]);
  }

  // One yield: the waiting process is killed, resumed or comes nearer.
  lemma YieldNearer(s: Sys, saved: Context, event: Word, v: Service, events: seq<Word>, i: nat)
    requires Good(s) && Runnable(s, s.active) && Answers(v) && Dispatch(s, saved, event, v, events).Some?
    requires saved.regs[1] == YIELD && Runnable(s, i) && i != s.active
    ensures var t := Dispatch(s, saved, event, v, events).value;
            1 <= i <= 8 && (Alive(t, i) ==> Runnable(t, i) && (t.active == i || Nearer(s, t, i)))
  {
    hide Loop, Poll, Serve, ProcOk, Distinct, RingOk, Weight, KillFrom;
    LivingSlot(s, i);
    var a := SetCur(s, Cur(s).(context := saved));
    SameTreeGood(s, a);
    SameTreeWeight(s, a);
    PollGood(a, event);
    var b := Poll(a, event);
    SameTreeWeight(a, b);
    assert SameProc(a.slots[s.active], b.slots[s.active]) && SameProc(a.slots[i], b.slots[i]);
    PollUntouched(a, event, s.active);
    ServeGood(b, v);
    YieldServed(b, v);
    var x := Serve(b, v);
    if Alive(KillFrom(x, 1), i) {
      LoopNearer(x, events, i);
    } else {
      LoopDead(x, events, i);
    }
  }

  // Nobody comes back to life in the loop.
  lemma LoopDead(s: Sys, events: seq<Word>, i: nat)
    requires Good(s) && Loop(s, YIELD, events).Some? && !Alive(KillFrom(s, 1), i)
    ensures !Alive(Loop(s, YIELD, events).value, i)
  {
    hide KillFrom, ReplayFrom, Activate, NextRunnable, ProcOk, Distinct, RingOk, Poll, Untouched, Resumed;
    var r := KillFrom(s, 1);
    KillFromGood(s, 1);
    var u := ReplayFrom(r, 1);
    ReplayFromGood(r, 1);
    ReplayFromIsolated(r, 1, i);
    var k := Choose(u, YIELD);
    if k > 0 {
      ActivateIsolated(u, k, i);
    } else if events != [] {
      PollGood(u, events[0]);
      PollIsolated(u, events[0], i);
      LoopIsolated(Poll(u, events[0]), YIELD, events[1..], i);
    }
  }

  // ---- whole runs ----

  // After every move of the run the process in slot i is alive and another
  // runs.
  predicate Waiting(s: Sys, moves: seq<Move>, i: nat)
    requires Shaped(s)
    decreases |moves|
  {
    Alive(s, i) && s.active != i &&
    (moves == [] ||
     var m := moves[0];
     match Dispatch(s.(window := m.window), m.saved, m.event, m.service, m.events)
     case None => false
     case Some(t) => Waiting(t, moves[1..], i))
  }

  lemma WindowAside(s: Sys, w: Image)
    requires Good(s)
    ensures var u := s.(window := w); Good(u) && Weight(u, 9) == Weight(s, 9)
  {
    hide ProcOk, Distinct, RingOk, Weight;
    var u := s.(window := w);
    SameTreeGood(s, u);
    SameTreeWeight(s, u);
  }

  // A process that can run is resumed within eight yields of the others, and
  // eight more for each process killed or each call finished meanwhile.
  lemma {:induction false} YieldsAreFair(s: Sys, moves: seq<Move>, i: nat)
    requires Good(s) && Runnable(s, s.active) && Runnable(s, i) && Waiting(s, moves, i)
    requires forall m | m in moves :: Answers(m.service) && m.saved.regs[1] == YIELD
    ensures Run(s, moves).Some? && Weight(Run(s, moves).value, 9) <= Weight(s, 9)
    ensures |moves| < 8 + 8 * (Weight(s, 9) - Weight(Run(s, moves).value, 9))
  {
    LivingSlot(s, i);
    WaitingMeasure(s, moves, i);
  }

  lemma {:induction false} WaitingMeasure(s: Sys, moves: seq<Move>, i: nat)
    requires Good(s) && Runnable(s, s.active) && Runnable(s, i) && Waiting(s, moves, i) && 1 <= i <= 8
    requires forall m | m in moves :: Answers(m.service) && m.saved.regs[1] == YIELD
    ensures Run(s, moves).Some? && Weight(Run(s, moves).value, 9) <= Weight(s, 9)
    ensures |moves| <= Distance(s.active, i) + 8 * (Weight(s, 9) - Weight(Run(s, moves).value, 9))
    decreases |moves|
  {
    hide Dispatch, ProcOk, Distinct, RingOk, Weight;
    if moves != [] {
      var m := moves[0];
      var u := s.(window := m.window);
      WindowAside(s, m.window);
      DispatchGood(u, m.saved, m.event, m.service, m.events);
      YieldNearer(u, m.saved, m.event, m.service, m.events, i);
      WaitingMeasure(Dispatch(u, m.saved, m.event, m.service, m.events).value, moves[1..], i);
    }
  }

  // And without a yield nobody else runs: when nobody is to be killed or
  // replayed after the call, the caller keeps the window unless it ended or waits.
  lemma NoSwitch(s: Sys, nr: Word, events: seq<Word>)
    requires Shaped(s) && nr != YIELD && Runnable(s, s.active)
    requires forall k | 1 <= k <= 8 :: !Doomed(s, k) && (s.slots[k].Some? ==> !Ready(s, k))
    ensures Loop(s, nr, events) == Some(s)
  {
    NoKill(s, 1);
    NoReplay(s, 1);
  }

  lemma {:induction false} NoKill(s: Sys, k: nat)
    requires Shaped(s) && 1 <= k <= 9 && forall j | 1 <= j <= 8 :: !Doomed(s, j)
    ensures KillFrom(s, k) == s
    decreases 9 - k
  {
    if k < 9 { NoKill(s, k + 1); }
  }

  lemma {:induction false} NoReplay(s: Sys, k: nat)
    requires Shaped(s) && 1 <= k <= 9 && forall j | 1 <= j <= 8 :: s.slots[j].Some? ==> !Ready(s, j)
    ensures ReplayFrom(s, k) == s
    decreases 9 - k
  {
    hide Ready;
    if k < 9 { NoReplay(s, k + 1); }
  }
}
