/** Nobody who waits for a lock is forgotten: whenever it is free and threads wait for it, somebody is
    on the way into it (thread/sync.c). */
module LockWaiting {
  import opened Util
  import opened Threads
  import opened Locks
  import opened LockSafety

  /** The thread is in the loop of sema_down for lock `l`, and not parked. */
  ghost predicate Trying(st: State, t: nat, l: nat) {
    t in st.pc && t in st.core.status && InLoop(st.pc[t], l) && st.core.status[t] != BLOCKED
  }

  ghost predicate SomeoneTries(st: State, l: nat) {
    exists t :: Trying(st, t, l)
  }

  /** Whenever a free lock has waiters, someone has been woken for it and has yet to look. */
  ghost predicate Remembered(st: State) {
    forall l :: l in st.locks && st.locks[l].waiters != [] && st.locks[l].value == 1 ==> SomeoneTries(st, l)
  }

  /** Values and waiters are as before, but for lock `l`. */
  ghost predicate SemasKept(st: State, st': State, l: nat) {
    forall x :: x in st'.locks && x != l ==> x in st.locks && st'.locks[x].value == st.locks[x].value && st'.locks[x].waiters == st.locks[x].waiters
  }

  /** Who is trying goes on trying, but for thread `t`. */
  ghost predicate TriersKept(st: State, st': State, t: nat) {
    forall x, l :: Trying(st, x, l) && x != t ==> Trying(st', x, l)
  }

  lemma StaysRemembered(st: State, st': State, t: nat, l: nat)
    requires Remembered(st) && SemasKept(st, st', l) && TriersKept(st, st', t)
    requires forall x :: Trying(st, t, x) ==> x == l
    requires l in st'.locks && st'.locks[l].waiters != [] && st'.locks[l].value == 1 ==> SomeoneTries(st', l)
    ensures Remembered(st')
  {
    forall x | x in st'.locks && st'.locks[x].waiters != [] && st'.locks[x].value == 1 ensures SomeoneTries(st', x) {
      if x != l {
        var y :| Trying(st, y, x);
        assert Trying(st', y, x);
      }
    }
  }

  /** No lock is touched, and whoever tries goes on. */
  lemma QuietRemembered(st: State, st': State)
    requires Remembered(st) && st'.locks == st.locks && forall x, l :: Trying(st, x, l) ==> Trying(st', x, l)
    ensures Remembered(st')
  {
    forall l | l in st'.locks && st'.locks[l].waiters != [] && st'.locks[l].value == 1 ensures SomeoneTries(st', l) {
      var y :| Trying(st, y, l);
      assert Trying(st', y, l);
    }
  }

  lemma TrierIsNotIdle(st: State, t: nat, l: nat)
    requires Inv(st) && Trying(st, t, l)
    ensures t != IDLE && st.core.status[t] != WAITING && st.core.status[t] != HANGING
  {
    hide CoreOk, LocksOk, PairOk, SlotOk;
    AtOf(st, t);
  }

  /** The running thread may have moved; the others have not. */
  ghost predicate OnlyCurMoves(st: State, st': State) {
    forall t :: t in st.pc && t != st.core.cur ==> t in st'.pc && st'.pc[t] == st.pc[t]
  }

  /** A switch parks nobody but the thread that parks itself, here with state `s`. */
  lemma SwitchKeepsTriers(st: State, st': State, s: Status)
    requires Inv(st) && OnlyCurMoves(st, st') && st.core.cur in st.core.status
    requires SameParked(st.core.status[st.core.cur := s], st'.core.status)
    ensures TriersKept(st, st', st.core.cur)
    ensures s == RUNNING && st.core.cur in st.pc && st.core.cur in st'.pc && st'.pc[st.core.cur] == st.pc[st.core.cur] ==>
              forall l :: Trying(st, st.core.cur, l) ==> Trying(st', st.core.cur, l)
  {
    hide Inv;
    forall x, l | Trying(st, x, l) ensures x != IDLE && st.core.status[x] != WAITING && st.core.status[x] != HANGING {
      TrierIsNotIdle(st, x, l);
    }
    AliveAll(st);
  }

  lemma AliveAll(st: State)
    requires Inv(st)
    ensures forall t :: t in st.core.status ==> st.core.status[t] != DIED
  {
    hide CoreOk, LocksOk, PairOk, SlotOk;
    forall t | t in st.core.status ensures st.core.status[t] != DIED { AtOf(st, t); }
  }

  lemma PreemptRemembers(st: State)
    requires Inv(st) && Remembered(st)
    ensures Remembered(st.(core := Schedule(st.core).value)) && Remembered(st.(core := Yield(st.core).value))
  {
    hide Inv, Schedule, Yield, SameParked, Remembered, CoreOk, Trying;
    InvCore(st);
    RunningPc(st);
    ScheduleKeepsOk(st.core);
    YieldKeeps(st.core);
    SameStatus(st.core.status, st.core.cur);
    SwitchKeepsTriers(st, st.(core := Schedule(st.core).value), RUNNING);
    SwitchKeepsTriers(st, st.(core := Yield(st.core).value), RUNNING);
    QuietRemembered(st, st.(core := Schedule(st.core).value));
    QuietRemembered(st, st.(core := Yield(st.core).value));
  }

  lemma SameStatus(m: map<nat, Status>, t: nat)
    requires t in m
    ensures m[t := m[t]] == m
  {
  }

  /** The running thread parks itself, outside the loop of sema_down or, where the lock is taken, in it. */
  lemma ParkRemembers(st: State, st': State, s: Status, l: nat)
    requires Inv(st) && Remembered(st) && SemasKept(st, st', l) && OnlyCurMoves(st, st') && Parked(s)
    requires Block(st.core, s) == Some(st'.core) && (st.core.cur == IDLE ==> s == BLOCKED)
    requires forall x :: Trying(st, st.core.cur, x) ==> x == l
    requires l in st'.locks && st'.locks[l].waiters != [] ==> st'.locks[l].value != 1
    ensures Remembered(st')
  {
    hide Inv, Block, SameParked, Remembered, Trying, OnlyCurMoves, SemasKept;
    InvCore(st);
    RunningPc(st);
    BlockKeeps(st.core, s);
    SwitchKeepsTriers(st, st', s);
    StaysRemembered(st, st', st.core.cur, l);
  }

  lemma ParkOutside(st: State, st': State, s: Status)
    requires Inv(st) && Remembered(st) && st'.locks == st.locks && OnlyCurMoves(st, st') && Parked(s)
    requires Block(st.core, s) == Some(st'.core) && (st.core.cur == IDLE ==> s == BLOCKED)
    requires forall x :: !Trying(st, st.core.cur, x)
    ensures Remembered(st')
  {
    hide Inv, Block, SameParked, Remembered, Trying, OnlyCurMoves;
    InvCore(st);
    RunningPc(st);
    BlockKeeps(st.core, s);
    SwitchKeepsTriers(st, st', s);
    QuietRemembered(st, st');
  }

  /** Where the running thread is outside the loop and no lock changes, waking or adding threads
      does no harm. */
  lemma WakingRemembers(st: State, st': State)
    requires Remembered(st) && st'.locks == st.locks && OnlyCurMoves(st, st')
    requires st.core.cur in st.pc && (st'.pc == st.pc || forall l :: !InLoop(st.pc[st.core.cur], l))
    requires forall t :: t in st.core.status && st.core.status[t] != BLOCKED ==> t in st'.core.status && st'.core.status[t] != BLOCKED
    ensures Remembered(st')
  {
    QuietRemembered(st, st');
  }

  /** sema_up: if it leaves waiters behind, it has just woken one. */
  lemma UpRemembers(st: State, l: nat, c: Cont)
    requires Inv(st) && Remembered(st) && l in st.locks && st.core.cur in st.pc && st.pc[st.core.cur] == At(Up, l, c)
    ensures SemaUp(st, l, c).Some? && Remembered(SemaUp(st, l, c).value)
  {
    hide Inv, SemaUp, Remembered;
    UpHandsOn(st, l, c);
    var st' := SemaUp(st, l, c).value;
    if st.locks[l].waiters != [] {
      WaitersParked(st, l, 0);
      RunningPc(st);
      assert Trying(st', st.locks[l].waiters[0], l);
    }
    StaysRemembered(st, st', st.core.cur, l);
  }

  lemma DownRemembers(st: State, l: nat, s: Stage, c: Cont)
    requires Inv(st) && Remembered(st) && l in st.locks && st.core.cur in st.pc && st.pc[st.core.cur] == At(s, l, c) && (s == Acquire || s == Down)
    ensures SemaDown(st, l, c).Some? && Remembered(SemaDown(st, l, c).value)
  {
    hide Inv, Remembered, SemaDown;
    DownTakesOrParks(st, l, s, c);
    if st.locks[l].value == 0 {
      DownParks(st, l, s, c);
    } else {
      StaysRemembered(st, SemaDown(st, l, c).value, st.core.cur, l);
    }
  }

  lemma DownParks(st: State, l: nat, s: Stage, c: Cont)
    requires Inv(st) && Remembered(st) && l in st.locks && st.core.cur in st.pc && st.pc[st.core.cur] == At(s, l, c) && (s == Acquire || s == Down)
    requires st.locks[l].value == 0 && SemaDown(st, l, c).Some?
    ensures Remembered(SemaDown(st, l, c).value)
  {
    hide Inv, Remembered, Block, SemaDown, Trying, SemasKept, OnlyCurMoves, Rest;
    ParkingRest(st, l, s, c);
    DownIsBlock(st, l, c);
    OneJoins(st, SemaDown(st, l, c).value, l, s, c);
    ParkRemembers(st, SemaDown(st, l, c).value, BLOCKED, l);
  }

  lemma OneJoins(st: State, st': State, l: nat, s: Stage, c: Cont)
    requires l in st.locks && st.locks[l].value == 0 && st.core.cur in st.pc && st.pc[st.core.cur] == At(s, l, c)
    requires st'.pc == st.pc[st.core.cur := At(Down, l, c)]
    requires st'.locks == st.locks[l := st.locks[l].(waiters := st.locks[l].waiters + [st.core.cur])]
    ensures SemasKept(st, st', l) && OnlyCurMoves(st, st') && l in st'.locks && st'.locks[l].value == 0
    ensures forall x :: Trying(st, st.core.cur, x) ==> x == l
  {
  }

  lemma DownIsBlock(st: State, l: nat, c: Cont)
    requires l in st.locks && st.locks[l].value == 0 && SemaDown(st, l, c).Some?
    ensures var st' := SemaDown(st, l, c).value;
            && Block(st.core, BLOCKED) == Some(st'.core) && st'.pc == st.pc[st.core.cur := At(Down, l, c)]
            && st'.locks == st.locks[l := st.locks[l].(waiters := st.locks[l].waiters + [st.core.cur])]
  {
    hide Block;
  }

  /** The other steps inside a lock operation are made while the semaphore is down. */
  lemma StageRemembers(st: State, s: Stage, l: nat, c: Cont)
    requires Inv(st) && Remembered(st) && l in st.locks && st.core.cur in st.pc && st.pc[st.core.cur] == At(s, l, c)
    ensures LockStep(st, s, l, c).Some? && Remembered(LockStep(st, s, l, c).value)
  {
    hide Inv, Remembered, SemaUp, SemaDown;
    LockStepKeeps(st, s, l, c);
    match s
    case Acquire => DownRemembers(st, l, s, c);
    case Down => DownRemembers(st, l, s, c);
    case Up => UpRemembers(st, l, c);
    case _ =>
      StageSays(st, s, l, c);
      StaysRemembered(st, LockStep(st, s, l, c).value, st.core.cur, l);
  }

  lemma UnblockWakes(c: Core, t: nat)
    requires Unblock(c, t).Some?
    ensures Unblock(c, t).value.cur == c.cur
    ensures forall x :: x in c.status && c.status[x] != BLOCKED ==> x in Unblock(c, t).value.status && Unblock(c, t).value.status[x] != BLOCKED
  {
  }

  lemma QueueRemembers(st: State, q: nat, k: Kind)
    requires Inv(st) && Remembered(st) && q in st.queues && st.core.cur in st.pc
    ensures q in st.locks && st.pc[st.core.cur] == Test(q, k) ==> RingTest(st, q, k).Some? && Remembered(RingTest(st, q, k).value)
    ensures st.pc[st.core.cur] == Wait(q, k) ==> IoqWait(st, q, k).Some? && Remembered(IoqWait(st, q, k).value)
    ensures KeyPut(st, q).Some? && Remembered(KeyPut(st, q).value)
  {
    hide Inv, Remembered, Block, RingTest, KeyPut;
    KeyMoves(st, q);
    WakingRemembers(st, KeyPut(st, q).value);
    if q in st.locks && st.pc[st.core.cur] == Test(q, k) {
      TransferMoves(st, q, k);
      WakingRemembers(st, RingTest(st, q, k).value);
    }
    if st.pc[st.core.cur] == Wait(q, k) {
      WaitParks(st, q, k);
      SlotEmptyForWait(st, q, k);
      NoLockLeft(st, q, IoqWait(st, q, k).value);
      ParkRemembers(st, IoqWait(st, q, k).value, BLOCKED, q);
    }
  }

  /** A thread about to wait at a queue has its lock. */
  lemma NoLockLeft(st: State, q: nat, st': State)
    requires Inv(st) && q in st.queues && st.core.cur in st.pc && st.pc[st.core.cur].Wait? && st.pc[st.core.cur].q == q
    requires st'.locks == st.locks
    ensures q in st'.locks && st'.locks[q].value == 0
  {
    hide Inv, SlotOk, WaiterOk;
    Running(st, q);
  }

  lemma ResumeRemembers(st: State)
    requires Inv(st) && Remembered(st) && st.core.cur in st.pc && st.pc[st.core.cur] != Run
    ensures Resume(st).Some? && Remembered(Resume(st).value)
  {
    hide Inv, Remembered, LockStep, RingTest, IoqWait, Block;
    RunningPc(st);
    ResumeKeeps(st);
    match st.pc[st.core.cur]
    case At(s, l, c) => StageRemembers(st, s, l, c);
    case Test(q, k) => QueueLock(st, q); QueueRemembers(st, q, k);
    case Wait(q, k) => QueueRemembers(st, q, k);
    case Waiting(q, k) => WakingRemembers(st, Resume(st).value);
    case Asleep => WakingRemembers(st, Resume(st).value);
    case IdleLoop => IdleRemembers(st);
  }

  lemma IdleRemembers(st: State)
    requires Inv(st) && Remembered(st) && st.core.cur in st.pc && st.pc[st.core.cur] == IdleLoop && Block(st.core, BLOCKED).Some?
    ensures Remembered(st.(core := Block(st.core, BLOCKED).value))
  {
    hide Inv, Remembered, Block;
    ParkOutside(st, st.(core := Block(st.core, BLOCKED).value), BLOCKED);
  }

  /** No step forgets a waiter. */
  lemma NextRemembers(st: State, step: Step)
    requires Inv(st) && Enabled(st, step) && Remembered(st)
    ensures Next(st, step).Some? && Remembered(Next(st, step).value)
  {
    hide Inv, Remembered, Resume, Block, Schedule, Yield, KeyPut, Unblock;
    NextKeeps(st, step);
    RunningPc(st);
    match step
    case Preempt => PreemptRemembers(st);
    case YieldCpu => PreemptRemembers(st);
    case Sleep(s) => ParkOutside(st, Next(st, step).value, s);
    case Wake(x) =>
      UnblockWakes(st.core, x);
      WakingRemembers(st, Next(st, step).value);
    case KeyPress(q) => QueueRemembers(st, q, Consumer);
    case Reap(x) => ReapRemembers(st, x);
    case Continue => ResumeRemembers(st);
    case Spawn(x) =>
      KeysSame(st);
      WakingRemembers(st, Next(st, step).value);
    case _ => WakingRemembers(st, Next(st, step).value);
  }

  lemma ReapRemembers(st: State, x: nat)
    requires Inv(st) && Remembered(st) && x in st.core.status && st.core.status[x] == HANGING
    ensures Remembered(st.(pc := st.pc - {x}, core := Exit(st.core, x)))
  {
    hide Inv, Remembered;
    var st' := st.(pc := st.pc - {x}, core := Exit(st.core, x));
    forall y, l | Trying(st, y, l) ensures Trying(st', y, l) { TrierIsNotIdle(st, y, l); }
    QuietRemembered(st, st');
  }

  /** In every run: whenever a lock is free and threads wait for it, one of them has been woken, or
      somebody else is on the way into it, and has yet to look. So no release is lost. */
  lemma {:induction false} NobodyForgotten(states: seq<State>, steps: seq<Step>, l: nat)
    requires KernelRun(states, steps)
    ensures var st := states[|steps|];
            l in st.locks && st.locks[l].waiters != [] && st.locks[l].value == 1 ==>
              exists t :: t in st.pc && t in st.core.status && InLoop(st.pc[t], l) && (st.core.status[t] == READY || st.core.status[t] == RUNNING)
  {
    hide Inv, Booted, Next, Enabled, Remembered;
    RunRemembers(states, steps);
    var st := states[|steps|];
    if l in st.locks && st.locks[l].waiters != [] && st.locks[l].value == 1 { RememberedSays(st, l); }
  }

  lemma RememberedSays(st: State, l: nat)
    requires Inv(st) && Remembered(st) && l in st.locks && st.locks[l].waiters != [] && st.locks[l].value == 1
    ensures exists t :: t in st.pc && t in st.core.status && InLoop(st.pc[t], l) && (st.core.status[t] == READY || st.core.status[t] == RUNNING)
  {
    hide Inv, InLoop;
    var t :| Trying(st, t, l);
    TrierIsNotIdle(st, t, l);
    AliveAll(st);
  }

  lemma {:induction false} RunRemembers(states: seq<State>, steps: seq<Step>)
    requires KernelRun(states, steps)
    ensures Inv(states[|steps|]) && Remembered(states[|steps|])
    decreases |steps|
  {
    hide Inv, Booted, Next, Enabled, Remembered;
    if steps == [] {
      BootedOk(states[0]);
      BootedRemembered(states[0]);
    } else {
      var n := |steps| - 1;
      RunRemembers(states[..n + 1], steps[..n]);
      NextKeeps(states[n], steps[n]);
      NextRemembers(states[n], steps[n]);
    }
  }

  lemma BootedRemembered(st: State)
    requires Booted(st)
    ensures Remembered(st)
  {
  }
}
