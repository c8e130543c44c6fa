/** What holds in every run of the lock and queue machine: no assertion fails, locks exclude, and
    a thread waiting at a queue is parked and holds the queue's lock. */
module LockSafety {
  import opened Util
  import opened Threads
  import IoQueues
  import opened Locks

  // ----- the invariant, thread by thread and lock by lock

  /** The position of a thread names what exists, and is one its state allows. */
  ghost predicate PcOk(t: nat, p: Pc, s: Status, locks: set<nat>, queues: set<nat>) {
    && (match p
        case At(_, l, c) => l in locks && (c.Ring? <==> l in queues)
        case Test(q, _) => q in queues
        case Wait(q, _) => q in queues
        case Waiting(q, _) => q in queues
        case _ => true)
    && (t == IDLE <==> p == IdleLoop)
    && (s == BLOCKED ==> (p.At? && p.stage == Down) || p.Waiting? || p == IdleLoop)
    && (s == WAITING || s == HANGING ==> p == Asleep) && s != DIED
  }

  predicate About(p: Pc, l: nat) {
    (p.At? && p.l == l) || (p.Wait? && p.q == l) || (p.Waiting? && p.q == l)
  }

  /** How far a thread is with a lock: nothing yet, or which step of taking or giving it back. */
  ghost predicate OwnerOk(t: nat, p: Pc, l: nat, lk: Lock, depth: nat, ring: bool) {
    if lk.owner != Some(t) then
      depth == 0 && (About(p, l) ==> p.At? && (p.stage == Acquire || p.stage == Down))
    else if p.At? && p.l == l then
      match p.stage
      case Got => lk.holder == Option.None && lk.repeat == depth == 0
      case Held => lk.holder == Some(t) && lk.repeat == depth == 0
      case Again => lk.holder == Some(t) && lk.repeat == depth > 0 && !ring
      case ReleaseMany => lk.holder == Some(t) && lk.repeat == depth > 1 && !ring
      case Release => lk.holder == Some(t) && lk.repeat == depth == 1
      case Cleared => lk.holder == Option.None && lk.repeat == 1 && depth == 0
      case Up => lk.holder == Option.None && lk.repeat == depth == 0
      case _ => false
    else lk.holder == Some(t) && lk.repeat == depth > 0 && (ring ==> depth == 1 && About(p, l))
  }

  ghost predicate WaiterOk(t: nat, p: Pc, s: Status, l: nat, lk: Lock) {
    t in lk.waiters <==> s == BLOCKED && p.At? && p.stage == Down && p.l == l
  }

  /** All that relates one thread to one lock. */
  ghost predicate PairOk(t: nat, p: Pc, s: Status, l: nat, lk: Lock, depth: nat, ring: bool) {
    OwnerOk(t, p, l, lk, depth, ring) && WaiterOk(t, p, s, l, lk)
  }

  ghost predicate LockOk(lk: Lock, threads: set<nat>) {
    && lk.value == (if lk.owner == Option.None then 1 else 0)
    && (lk.owner == Option.None ==> lk.holder == Option.None && lk.repeat == 0)
    && (lk.owner != Option.None ==> lk.owner.value in threads)
    && Distinct(lk.waiters) && forall t :: t in lk.waiters ==> t in threads
  }

  /** A slot is taken exactly by the thread parked in ioq_wait for it. */
  ghost predicate SlotOk(t: nat, p: Pc, s: Status, q: nat, x: Queue) {
    forall k :: Slot(x, k) == Some(t) <==> s == BLOCKED && p == Waiting(q, k)
  }

  ghost predicate QueueOk(x: Queue, threads: set<nat>) {
    && x.len <= IoQueues.BUFSIZE - 1
    && (x.producer != Option.None ==> x.producer.value in threads)
    && (x.consumer != Option.None ==> x.consumer.value in threads)
  }

  ghost predicate ThreadOk(t: nat, p: Pc, s: Status, locks: map<nat, Lock>, queues: map<nat, Queue>, depth: map<(nat, nat), nat>) {
    && PcOk(t, p, s, locks.Keys, queues.Keys)
    && (forall l :: l in locks ==> PairOk(t, p, s, l, locks[l], DepthIn(depth, t, l), l in queues))
    && (forall q :: q in queues ==> SlotOk(t, p, s, q, queues[q]))
  }

  ghost predicate At1(st: State, t: nat) {
    t in st.pc && t in st.core.status && ThreadOk(t, st.pc[t], st.core.status[t], st.locks, st.queues, st.depth)
  }

  ghost predicate LocksOk(st: State) {
    && (forall l :: l in st.locks ==> LockOk(st.locks[l], st.pc.Keys))
    && (forall q :: q in st.queues ==> q in st.locks && QueueOk(st.queues[q], st.pc.Keys))
    && (forall t, l :: (t, l) in st.depth && st.depth[(t, l)] > 0 ==> t in st.pc)
  }

  ghost predicate Inv(st: State) {
    CoreOk(st.core) && Rest(st)
  }

  /** All but the scheduler's own part. */
  ghost predicate Rest(st: State) {
    st.pc.Keys == st.core.status.Keys && LocksOk(st) && forall t :: t in st.pc ==> At1(st, t)
  }

  // ----- the steps that touch only the scheduler

  /** As far as locks and queues go, all that matters of a thread's state is whether it is BLOCKED. */
  ghost predicate StatusLike(t: nat, s: Status, s': Status) {
    if t == IDLE then s' != DIED && s' != WAITING && s' != HANGING
    else if s == RUNNING || s == READY then s' == RUNNING || s' == READY else s' == s
  }

  lemma StatusChange(t: nat, p: Pc, s: Status, s': Status, locks: map<nat, Lock>, queues: map<nat, Queue>, depth: map<(nat, nat), nat>)
    requires ThreadOk(t, p, s, locks, queues, depth) && StatusLike(t, s, s')
    ensures ThreadOk(t, p, s', locks, queues, depth)
  {
    hide OwnerOk;
  }

  lemma CoreChange(st: State, c: Core)
    requires Rest(st) && CoreOk(c) && SameParked(st.core.status, c.status)
    ensures Inv(st.(core := c))
  {
    hide ThreadOk, LocksOk, LockOk, QueueOk;
    var st' := st.(core := c);
    assert LocksOk(st') by { SameLocks(st, st'); }
    forall t | t in st'.pc ensures At1(st', t) {
      assert At1(st, t);
      IdleStates(c);
      StatusChange(t, st.pc[t], st.core.status[t], c.status[t], st.locks, st.queues, st.depth);
    }
  }

  lemma IdleStates(c: Core)
    requires CoreOk(c)
    ensures IDLE in c.status && c.status[IDLE] != DIED && c.status[IDLE] != WAITING && c.status[IDLE] != HANGING
  {
  }

  lemma SameLocks(st: State, st': State)
    requires LocksOk(st) && st'.locks == st.locks && st'.queues == st.queues && st'.depth == st.depth && st'.pc.Keys == st.pc.Keys
    ensures LocksOk(st')
  {
  }

  // ----- the steps of one thread at one lock or queue

  /** Thread `t` moves from `p` to `p'`; neither concerns a lock other than `l`. */
  ghost predicate Moves(p: Pc, p': Pc, l: nat) {
    forall x :: x != l ==> !About(p, x) && !About(p', x)
  }

  /** What thread `t` does to a lock leaves the others' dealings with it alone. */
  ghost predicate OthersSame(t: nat, lk: Lock, lk': Lock) {
    && (forall x :: x != t ==> (lk'.owner == Some(x) <==> lk.owner == Some(x)) && (x in lk'.waiters <==> x in lk.waiters))
    && (lk.owner != Option.None && lk.owner != Some(t) ==> lk'.holder == lk.holder && lk'.repeat == lk.repeat)
  }

  ghost predicate DepthSet(d: map<(nat, nat), nat>, d': map<(nat, nat), nat>, t: nat, l: nat, n: nat) {
    forall x, y :: DepthIn(d', x, y) == if x == t && y == l then n else DepthIn(d, x, y)
  }

  ghost predicate Changed(st: State, st': State, t: nat, l: nat, p': Pc, s': Status, lk': Lock, n: nat) {
    && t in st.pc && l in st.locks && DepthSet(st.depth, st'.depth, t, l, n)
    && st'.pc == st.pc[t := p'] && st'.core.status == st.core.status[t := s']
    && st'.locks == st.locks[l := lk'] && st'.queues == st.queues
  }

  /** The moving thread at the lock it deals with. */
  ghost predicate MoverOk(st: State, t: nat, l: nat, p': Pc, s': Status, lk': Lock, n: nat) {
    && l in st.locks && PcOk(t, p', s', st.locks.Keys, st.queues.Keys) && PairOk(t, p', s', l, lk', n, l in st.queues)
    && LockOk(lk', st.pc.Keys) && OthersSame(t, st.locks[l], lk')
    && forall q :: q in st.queues ==> SlotOk(t, p', s', q, st.queues[q])
  }

  lemma PairBystander(y: nat, p: Pc, s: Status, l: nat, lk: Lock, n: nat, ring: bool, t: nat, lk': Lock)
    requires PairOk(y, p, s, l, lk, n, ring) && y != t && OthersSame(t, lk, lk')
    ensures PairOk(y, p, s, l, lk', n, ring)
  {
  }

  lemma PairElsewhere(t: nat, p: Pc, s: Status, x: nat, lk: Lock, n: nat, ring: bool, p': Pc, s': Status)
    requires PairOk(t, p, s, x, lk, n, ring) && !About(p, x) && !About(p', x)
    ensures PairOk(t, p', s', x, lk, n, ring)
  {
  }

  lemma PairAt(st: State, y: nat, x: nat)
    requires At1(st, y) && x in st.locks
    ensures y in st.pc && y in st.core.status
    ensures PairOk(y, st.pc[y], st.core.status[y], x, st.locks[x], DepthIn(st.depth, y, x), x in st.queues)
  {
    hide PairOk, PcOk, SlotOk, DepthIn;
  }

  lemma AtOf(st: State, t: nat)
    requires Rest(st) && t in st.pc
    ensures At1(st, t)
  {
    hide LocksOk, At1;
  }

  lemma MoverThread(st: State, st': State, t: nat, l: nat, p': Pc, s': Status, lk': Lock, n: nat)
    requires Rest(st) && Changed(st, st', t, l, p', s', lk', n) && MoverOk(st, t, l, p', s', lk', n) && Moves(st.pc[t], p', l)
    ensures At1(st', t)
  {
    hide LocksOk, LockOk, SlotOk, Rest, OthersSame, PairOk, PcOk, DepthIn, At1;
    AtOf(st, t);
    forall x | x in st'.locks
      ensures PairOk(t, p', s', x, st'.locks[x], DepthIn(st'.depth, t, x), x in st'.queues)
    {
      PairAt(st, t, x);
      if x != l {
        PairElsewhere(t, st.pc[t], st.core.status[t], x, st.locks[x], DepthIn(st.depth, t, x), x in st.queues, p', s');
      }
    }
    assert st'.locks.Keys == st.locks.Keys;
    ThreadFrom(st', t);
  }

  lemma ThreadFrom(st: State, t: nat)
    requires t in st.pc && t in st.core.status && PcOk(t, st.pc[t], st.core.status[t], st.locks.Keys, st.queues.Keys)
    requires forall x :: x in st.locks ==> PairOk(t, st.pc[t], st.core.status[t], x, st.locks[x], DepthIn(st.depth, t, x), x in st.queues)
    requires forall q :: q in st.queues ==> SlotOk(t, st.pc[t], st.core.status[t], q, st.queues[q])
    ensures At1(st, t)
  {
    hide PairOk, PcOk, SlotOk, DepthIn;
  }

  lemma BystanderThread(st: State, st': State, t: nat, l: nat, p': Pc, s': Status, lk': Lock, n: nat, y: nat)
    requires Rest(st) && Changed(st, st', t, l, p', s', lk', n) && OthersSame(t, st.locks[l], lk') && y in st.pc && y != t
    ensures At1(st', y)
  {
    hide LocksOk, LockOk, SlotOk, Rest, OthersSame, PairOk, PcOk, DepthIn, At1;
    AtOf(st, y);
    RestOf(st, y);
    forall x | x in st'.locks
      ensures PairOk(y, st'.pc[y], st'.core.status[y], x, st'.locks[x], DepthIn(st'.depth, y, x), x in st'.queues)
    {
      PairAt(st, y, x);
      if x == l {
        PairBystander(y, st.pc[y], st.core.status[y], l, st.locks[l], DepthIn(st.depth, y, l), l in st.queues, t, lk');
      }
    }
    assert st'.locks.Keys == st.locks.Keys;
    ThreadFrom(st', y);
  }

  lemma RestOf(st: State, t: nat)
    requires At1(st, t)
    ensures t in st.pc && t in st.core.status && PcOk(t, st.pc[t], st.core.status[t], st.locks.Keys, st.queues.Keys)
    ensures forall q :: q in st.queues ==> SlotOk(t, st.pc[t], st.core.status[t], q, st.queues[q])
  {
    hide PairOk, PcOk, SlotOk, DepthIn;
  }

  lemma LockChange(st: State, st': State, t: nat, l: nat, p': Pc, s': Status, lk': Lock, n: nat)
    requires Rest(st) && Changed(st, st', t, l, p', s', lk', n) && MoverOk(st, t, l, p', s', lk', n) && Moves(st.pc[t], p', l)
    ensures Rest(st')
  {
    hide LocksOk, LockOk, SlotOk, PairOk, PcOk, At1, Moves, DepthSet, OthersSame;
    MoverThread(st, st', t, l, p', s', lk', n);
    assert st'.pc.Keys == st.pc.Keys;
    forall y | y in st'.pc ensures At1(st', y) {
      if y != t { BystanderThread(st, st', t, l, p', s', lk', n, y); }
    }
    LocksChange(st, st', t, l, p', s', lk', n);
  }

  lemma LocksChange(st: State, st': State, t: nat, l: nat, p': Pc, s': Status, lk': Lock, n: nat)
    requires LocksOk(st) && Changed(st, st', t, l, p', s', lk', n) && LockOk(lk', st.pc.Keys)
    ensures LocksOk(st')
  {
    hide LockOk, QueueOk;
    assert st'.pc.Keys == st.pc.Keys;
    forall x, y | (x, y) in st'.depth && st'.depth[(x, y)] > 0 ensures x in st'.pc {
      assert DepthIn(st'.depth, x, y) > 0;
      if x != t { assert DepthIn(st.depth, x, y) > 0; }
    }
  }

  // ----- every step of the machine

  /** What the invariant says of the running thread at lock `l`. */
  lemma Running(st: State, l: nat)
    requires Inv(st)
    ensures st.core.cur in st.pc && st.core.cur in st.core.status && st.core.status[st.core.cur] == RUNNING
    ensures PcOk(st.core.cur, st.pc[st.core.cur], RUNNING, st.locks.Keys, st.queues.Keys)
    ensures forall q :: q in st.queues ==> SlotOk(st.core.cur, st.pc[st.core.cur], RUNNING, q, st.queues[q]) && q in st.locks
    ensures l in st.locks ==>
              PairOk(st.core.cur, st.pc[st.core.cur], RUNNING, l, st.locks[l], st.Depth(st.core.cur, l), l in st.queues) &&
              LockOk(st.locks[l], st.pc.Keys)
  {
    CurIn(st.core);
    hide CoreOk, PairOk, PcOk, SlotOk, LockOk, QueueOk, At1, DepthIn;
    AtOf(st, st.core.cur);
    RestOf(st, st.core.cur);
    if l in st.locks { PairAt(st, st.core.cur, l); }
  }

  lemma CurIn(c: Core)
    requires CoreOk(c)
    ensures c.cur in c.status && c.status[c.cur] == RUNNING
  {
  }

  lemma SlotFree(t: nat, p: Pc, p': Pc, q: nat, x: Queue)
    requires SlotOk(t, p, RUNNING, q, x)
    ensures SlotOk(t, p', RUNNING, q, x)
  {
  }

  /** The running thread makes one move at lock `l`. */
  lemma MoveKeeps(st: State, st': State, l: nat, p': Pc, lk': Lock, n: nat)
    requires Inv(st) && st'.core == st.core && Changed(st, st', st.core.cur, l, p', RUNNING, lk', n)
    requires PcOk(st.core.cur, p', RUNNING, st.locks.Keys, st.queues.Keys)
    requires PairOk(st.core.cur, p', RUNNING, l, lk', n, l in st.queues)
    requires LockOk(lk', st.pc.Keys) && OthersSame(st.core.cur, st.locks[l], lk') && Moves(st.pc[st.core.cur], p', l)
    ensures Inv(st')
  {
    hide Rest, LockOk, SlotOk, PairOk, PcOk, Moves, DepthSet, OthersSame, CoreOk;
    Running(st, l);
    forall q | q in st.queues ensures SlotOk(st.core.cur, p', RUNNING, q, st.queues[q]) {
      SlotFree(st.core.cur, st.pc[st.core.cur], p', q, st.queues[q]);
    }
    LockChange(st, st', st.core.cur, l, p', RUNNING, lk', n);
  }

  lemma DepthStays(st: State, t: nat, l: nat)
    ensures DepthSet(st.depth, st.depth, t, l, DepthIn(st.depth, t, l))
  {
  }

  lemma DepthBecomes(st: State, t: nat, l: nat, n: nat)
    ensures DepthSet(st.depth, st.depth[(t, l) := n], t, l, n)
  {
  }

  lemma GotKeeps(st: State, l: nat, c: Cont)
    requires Inv(st) && l in st.locks && st.core.cur in st.pc && st.pc[st.core.cur] == At(Got, l, c)
    ensures LockStep(st, Got, l, c).Some? && Inv(LockStep(st, Got, l, c).value)
  {
    hide Inv, DepthSet, SlotOk;
    Running(st, l);
    DepthStays(st, st.core.cur, l);
    var t, lk := st.core.cur, st.locks[l];
    var st' := LockStep(st, Got, l, c).value;
    assert st'.core.status == st.core.status[t := RUNNING];
    MoveKeeps(st, st', l, At(Held, l, c), lk.(holder := Some(t)), st.Depth(t, l));
  }

  lemma HeldKeeps(st: State, l: nat, c: Cont)
    requires Inv(st) && l in st.locks && st.core.cur in st.pc && st.pc[st.core.cur] == At(Held, l, c)
    ensures LockStep(st, Held, l, c).Some? && Inv(LockStep(st, Held, l, c).value)
  {
    hide Inv, DepthSet, SlotOk;
    Running(st, l);
    DepthBecomes(st, st.core.cur, l, 1);
    var t, lk := st.core.cur, st.locks[l];
    var st' := LockStep(st, Held, l, c).value;
    assert st'.core.status == st.core.status[t := RUNNING];
    MoveKeeps(st, st', l, AfterAcquire(l, c), lk.(repeat := 1), 1);
  }

  lemma AgainKeeps(st: State, l: nat, c: Cont)
    requires Inv(st) && l in st.locks && st.core.cur in st.pc && st.pc[st.core.cur] == At(Again, l, c)
    ensures LockStep(st, Again, l, c).Some? && Inv(LockStep(st, Again, l, c).value)
  {
    hide Inv, DepthSet, SlotOk;
    Running(st, l);
    var t, lk, n := st.core.cur, st.locks[l], st.Depth(st.core.cur, l) + 1;
    DepthBecomes(st, t, l, n);
    var st' := LockStep(st, Again, l, c).value;
    assert st'.core.status == st.core.status[t := RUNNING];
    MoveKeeps(st, st', l, AfterAcquire(l, c), lk.(repeat := lk.repeat + 1), n);
  }

  lemma ReleaseManyKeeps(st: State, l: nat, c: Cont)
    requires Inv(st) && l in st.locks && st.core.cur in st.pc && st.pc[st.core.cur] == At(ReleaseMany, l, c)
    ensures LockStep(st, ReleaseMany, l, c).Some? && Inv(LockStep(st, ReleaseMany, l, c).value)
  {
    hide Inv, DepthSet, SlotOk;
    Running(st, l);
    var t, lk := st.core.cur, st.locks[l];
    var n := st.Depth(t, l) - 1;
    DepthBecomes(st, t, l, n);
    var st' := LockStep(st, ReleaseMany, l, c).value;
    assert st'.core.status == st.core.status[t := RUNNING];
    MoveKeeps(st, st', l, AfterRelease(l, c), lk.(repeat := lk.repeat - 1), n);
  }

  lemma ReleaseKeeps(st: State, l: nat, c: Cont)
    requires Inv(st) && l in st.locks && st.core.cur in st.pc && st.pc[st.core.cur] == At(Release, l, c)
    ensures LockStep(st, Release, l, c).Some? && Inv(LockStep(st, Release, l, c).value)
  {
    hide Inv, DepthSet, SlotOk;
    Running(st, l);
    var t, lk := st.core.cur, st.locks[l];
    DepthBecomes(st, t, l, 0);
    var st' := LockStep(st, Release, l, c).value;
    assert st'.core.status == st.core.status[t := RUNNING];
    MoveKeeps(st, st', l, At(Cleared, l, c), lk.(holder := Option.None), 0);
  }

  lemma ClearedKeeps(st: State, l: nat, c: Cont)
    requires Inv(st) && l in st.locks && st.core.cur in st.pc && st.pc[st.core.cur] == At(Cleared, l, c)
    ensures LockStep(st, Cleared, l, c).Some? && Inv(LockStep(st, Cleared, l, c).value)
  {
    hide Inv, DepthSet, SlotOk;
    Running(st, l);
    var t, lk := st.core.cur, st.locks[l];
    DepthStays(st, t, l);
    var st' := LockStep(st, Cleared, l, c).value;
    assert st'.core.status == st.core.status[t := RUNNING];
    MoveKeeps(st, st', l, At(Up, l, c), lk.(repeat := 0), st.Depth(t, l));
  }

  /** A lock's holder, where it is set, is the thread that took the semaphore down. */
  lemma HolderOwns(st: State, l: nat)
    requires Inv(st) && l in st.locks
    ensures st.locks[l].holder != Option.None ==> st.locks[l].owner == st.locks[l].holder
  {
    hide CoreOk, At1, SlotOk, QueueOk, PcOk;
    var lk := st.locks[l];
    assert LockOk(lk, st.pc.Keys);
    if lk.owner != Option.None {
      AtOf(st, lk.owner.value);
      PairAt(st, lk.owner.value, l);
    }
  }

  /** The unsynchronised test is decisive: it finds a thread at large to be the holder exactly when
      that thread has acquired the lock and not yet finally released it. */
  lemma HolderTestDecides(st: State, t: nat, l: nat)
    requires Inv(st) && l in st.locks && t in st.pc && !About(st.pc[t], l)
    ensures st.locks[l].holder == Some(t) <==> st.Depth(t, l) > 0
    ensures st.Depth(t, l) > 0 ==> st.locks[l].repeat == st.Depth(t, l) && st.locks[l].value == 0
  {
    hide Inv, At1, SlotOk, QueueOk, PcOk;
    HolderOwns(st, l);
    InvAt(st, t, l);
  }

  lemma InvAt(st: State, t: nat, l: nat)
    requires Inv(st) && l in st.locks && t in st.pc
    ensures t in st.core.status && LockOk(st.locks[l], st.pc.Keys)
    ensures PairOk(t, st.pc[t], st.core.status[t], l, st.locks[l], st.Depth(t, l), l in st.queues)
    ensures PcOk(t, st.pc[t], st.core.status[t], st.locks.Keys, st.queues.Keys)
    ensures forall q :: q in st.queues ==> SlotOk(t, st.pc[t], st.core.status[t], q, st.queues[q])
  {
    hide CoreOk, At1, SlotOk, QueueOk, PcOk, PairOk, LockOk, DepthIn;
    AtOf(st, t);
    PairAt(st, t, l);
    RestOf(st, t);
  }

  lemma AcquireTestKeeps(st: State, l: nat, c: Cont)
    requires Inv(st) && l in st.locks && st.core.cur in st.pc && (c.Ring? <==> l in st.queues)
    requires st.pc[st.core.cur] == if c.Ring? then Test(l, c.kind) else Run
    ensures Inv(AcquireTest(st, l, c))
  {
    hide Inv, DepthSet, SlotOk;
    Running(st, l);
    HolderOwns(st, l);
    var t, lk := st.core.cur, st.locks[l];
    DepthStays(st, t, l);
    var st' := AcquireTest(st, l, c);
    assert st'.core.status == st.core.status[t := RUNNING] && st'.locks == st.locks[l := lk];
    MoveKeeps(st, st', l, st'.pc[t], lk, st.Depth(t, l));
  }

  lemma ReleaseTestKeeps(st: State, l: nat, c: Cont)
    requires Inv(st) && l in st.locks && st.core.cur in st.pc && (c.Ring? <==> l in st.queues)
    requires if c.Ring? then st.pc[st.core.cur] == Waiting(l, c.kind) else st.pc[st.core.cur] == Run && st.Depth(st.core.cur, l) > 0
    ensures ReleaseTest(st, l, c).Some? && Inv(ReleaseTest(st, l, c).value)
  {
    hide Inv, DepthSet, SlotOk;
    Running(st, l);
    var t, lk := st.core.cur, st.locks[l];
    DepthStays(st, t, l);
    var st' := ReleaseTest(st, l, c).value;
    assert st'.core.status == st.core.status[t := RUNNING] && st'.locks == st.locks[l := lk];
    MoveKeeps(st, st', l, st'.pc[t], lk, st.Depth(t, l));
  }

  // ----- the semaphore

  lemma TakeKeeps(st: State, l: nat, s: Stage, c: Cont)
    requires Inv(st) && l in st.locks && st.core.cur in st.pc && st.pc[st.core.cur] == At(s, l, c) && (s == Acquire || s == Down)
    requires st.locks[l].value != 0
    ensures SemaDown(st, l, c).Some? && Inv(SemaDown(st, l, c).value)
  {
    hide Inv, DepthSet, SlotOk;
    Running(st, l);
    var t, lk := st.core.cur, st.locks[l];
    DepthStays(st, t, l);
    var st' := SemaDown(st, l, c).value;
    assert st'.core.status == st.core.status[t := RUNNING];
    MoveKeeps(st, st', l, At(Got, l, c), lk.(value := lk.value - 1, owner := Some(t)), st.Depth(t, l));
  }

  /** Any thread's state and position changes, and with them one lock. */
  lemma LockChangeKeeps(st: State, st': State, t: nat, l: nat, p': Pc, s': Status, lk': Lock)
    requires Inv(st) && t in st.pc && l in st.locks && Changed(st, st', t, l, p', s', lk', st.Depth(t, l))
    requires PcOk(t, p', s', st.locks.Keys, st.queues.Keys) && PairOk(t, p', s', l, lk', st.Depth(t, l), l in st.queues)
    requires LockOk(lk', st.pc.Keys) && OthersSame(t, st.locks[l], lk') && Moves(st.pc[t], p', l)
    requires forall q :: q in st.queues ==> SlotOk(t, p', s', q, st.queues[q])
    ensures Rest(st')
  {
    hide Rest, LockOk, SlotOk, PairOk, PcOk, Moves, DepthSet, OthersSame, CoreOk;
    LockChange(st, st', t, l, p', s', lk', st.Depth(t, l));
  }

  lemma SlotParked(t: nat, p: Pc, p': Pc, s': Status, q: nat, x: Queue)
    requires SlotOk(t, p, RUNNING, q, x) && !p'.Waiting?
    ensures SlotOk(t, p', s', q, x)
  {
  }

  /** The state in which the parking thread is on the list and marked, and not yet switched away from. */
  function Parking(st: State, l: nat, c: Cont): State
    requires l in st.locks
  {
    var t, lk := st.core.cur, st.locks[l];
    st.Goto(At(Down, l, c)).WithLock(l, lk.(waiters := lk.waiters + [t])).(core := st.core.(status := st.core.status[t := BLOCKED]))
  }

  lemma ParkPair(t: nat, s: Stage, l: nat, c: Cont, lk: Lock, n: nat, ring: bool, threads: set<nat>)
    requires PairOk(t, At(s, l, c), RUNNING, l, lk, n, ring) && (s == Acquire || s == Down) && LockOk(lk, threads) && t in threads
    ensures t !in lk.waiters
    ensures var lk' := lk.(waiters := lk.waiters + [t]);
            PairOk(t, At(Down, l, c), BLOCKED, l, lk', n, ring) && LockOk(lk', threads) && OthersSame(t, lk, lk')
  {
  }

  lemma ParkingRest(st: State, l: nat, s: Stage, c: Cont)
    requires Inv(st) && l in st.locks && st.core.cur in st.pc && st.pc[st.core.cur] == At(s, l, c) && (s == Acquire || s == Down)
    ensures st.core.cur !in st.locks[l].waiters && Rest(Parking(st, l, c)) && st.core.cur != IDLE
  {
    hide Inv, Rest, DepthSet, SlotOk, PairOk, LockOk, OthersSame;
    Running(st, l);
    var t, lk := st.core.cur, st.locks[l];
    ParkPair(t, s, l, c, lk, st.Depth(t, l), l in st.queues, st.pc.Keys);
    DepthStays(st, t, l);
    forall q | q in st.queues ensures SlotOk(t, At(Down, l, c), BLOCKED, q, st.queues[q]) {
      SlotParked(t, st.pc[t], At(Down, l, c), BLOCKED, q, st.queues[q]);
    }
    LockChangeKeeps(st, Parking(st, l, c), t, l, At(Down, l, c), BLOCKED, lk.(waiters := lk.waiters + [t]));
  }

  lemma ParkKeeps(st: State, l: nat, s: Stage, c: Cont)
    requires Inv(st) && l in st.locks && st.core.cur in st.pc && st.pc[st.core.cur] == At(s, l, c) && (s == Acquire || s == Down)
    requires st.locks[l].value == 0
    ensures SemaDown(st, l, c).Some? && Inv(SemaDown(st, l, c).value)
  {
    hide Inv, Rest, CoreOk, Block, SameParked;
    InvCore(st);
    ParkingRest(st, l, s, c);
    BlockKeeps(st.core, BLOCKED);
    CoreChange(Parking(st, l, c), Block(st.core, BLOCKED).value);
    assert SemaDown(st, l, c).value == Parking(st, l, c).(core := Block(st.core, BLOCKED).value);
  }

  lemma InvCore(st: State)
    requires Inv(st)
    ensures CoreOk(st.core)
  {
  }

  lemma PopWaiter(lk: Lock, threads: set<nat>)
    requires LockOk(lk, threads) && lk.waiters != []
    ensures var w, lk' := lk.waiters[0], lk.(waiters := lk.waiters[1..]);
            LockOk(lk', threads) && OthersSame(w, lk, lk') && w !in lk'.waiters && w in lk.waiters && w in threads
  {
    var w, rest := lk.waiters[0], lk.waiters[1..];
    forall x ensures x in rest <==> x in lk.waiters && x != w {
      if x in lk.waiters && x != w {
        var i :| 0 <= i < |lk.waiters| && lk.waiters[i] == x;
        assert rest[i - 1] == x;
      }
    }
  }

  lemma UpKeeps(st: State, l: nat, c: Cont)
    requires Inv(st) && l in st.locks && st.core.cur in st.pc && st.pc[st.core.cur] == At(Up, l, c) && st.locks[l].waiters == []
    ensures SemaUp(st, l, c).Some? && Inv(SemaUp(st, l, c).value)
  {
    hide Inv, DepthSet, SlotOk;
    Running(st, l);
    var t, lk := st.core.cur, st.locks[l];
    DepthStays(st, t, l);
    var st' := SemaUp(st, l, c).value;
    assert st'.core.status == st.core.status[t := RUNNING];
    MoveKeeps(st, st', l, AfterRelease(l, c), lk.(value := lk.value + 1, owner := Option.None), st.Depth(t, l));
  }

  /** The first waiter leaves the list and becomes ready. */
  lemma WakeWaiter(st: State, l: nat)
    requires Inv(st) && l in st.locks && st.locks[l].waiters != []
    ensures var lk := st.locks[l];
            var u := Unblock(st.core, lk.waiters[0]);
            && u.Some? && u.value.cur == st.core.cur
            && Inv(st.WithLock(l, lk.(waiters := lk.waiters[1..])).(core := u.value))
  {
    hide Inv, DepthSet, CoreOk, LockOk, Unblock, OthersSame;
    var lk := st.locks[l];
    var w, lk1 := lk.waiters[0], lk.(waiters := lk.waiters[1..]);
    InvCore(st);
    Running(st, l);
    PopWaiter(lk, st.pc.Keys);
    InvAt(st, w, l);
    UnblockKeeps(st.core, w);
    DepthStays(st, w, l);
    var st' := st.WithLock(l, lk1).(core := Unblock(st.core, w).value);
    assert st'.pc == st.pc[w := st.pc[w]];
    forall q | q in st.queues ensures SlotOk(w, st.pc[w], READY, q, st.queues[q]) {}
    LockChangeKeeps(st, st', w, l, st.pc[w], READY, lk1);
    FromRest(st');
  }

  lemma FromRest(st: State)
    requires CoreOk(st.core) && Rest(st)
    ensures Inv(st)
  {
  }

  lemma UpWakeKeeps(st: State, l: nat, c: Cont)
    requires Inv(st) && l in st.locks && st.core.cur in st.pc && st.pc[st.core.cur] == At(Up, l, c) && st.locks[l].waiters != []
    ensures SemaUp(st, l, c).Some? && Inv(SemaUp(st, l, c).value)
  {
    hide Inv, DepthSet, SlotOk, Unblock;
    Running(st, l);
    WakeWaiter(st, l);
    var t, lk := st.core.cur, st.locks[l];
    var lk1 := lk.(waiters := lk.waiters[1..]);
    var st1 := st.WithLock(l, lk1).(core := Unblock(st.core, lk.waiters[0]).value);
    Running(st1, l);
    DepthStays(st1, t, l);
    var st' := SemaUp(st, l, c).value;
    var lk2 := lk1.(value := lk.value + 1, owner := Option.None);
    assert st'.core.status == st1.core.status[t := RUNNING] && st'.locks == st1.locks[l := lk2];
    MoveKeeps(st1, st', l, AfterRelease(l, c), lk2, st1.Depth(t, l));
  }

  /** How the lock stands while the running thread is inside an operation on it. */
  lemma StageSays(st: State, s: Stage, l: nat, c: Cont)
    requires Inv(st) && l in st.locks && st.core.cur in st.pc && st.pc[st.core.cur] == At(s, l, c) && s != Acquire && s != Down
    ensures var t, lk := st.core.cur, st.locks[l];
            && lk.value == 0 && lk.owner == Some(t)
            && lk.holder == (if s == Got || s == Cleared || s == Up then Option.None else Some(t))
            && lk.repeat == (if s == Cleared then 1 else st.Depth(t, l)) && (s == Cleared ==> st.Depth(t, l) == 0)
            && (if s == Got || s == Held || s == Up then lk.repeat == 0 else if s == ReleaseMany then lk.repeat > 1 else lk.repeat >= 1)
            && (s == Release ==> lk.repeat == 1)
  {
    hide Inv, SlotOk, WaiterOk, PcOk;
    Running(st, l);
  }

  lemma ReleaserHolds(st: State, l: nat, c: Cont)
    requires Inv(st) && l in st.locks && st.core.cur in st.pc
    requires if c.Ring? then st.pc[st.core.cur] == Waiting(l, c.kind) else st.pc[st.core.cur] == Run && st.Depth(st.core.cur, l) > 0
    ensures st.locks[l].holder == Some(st.core.cur) && st.locks[l].repeat == st.Depth(st.core.cur, l) >= 1
  {
    hide Inv, SlotOk, WaiterOk, PcOk;
    Running(st, l);
  }

  /** sema_up hands on: the value becomes one, and the first waiter, if there is one, leaves the list
      and goes to the front of the ready queue. Nobody else is touched. */
  lemma UpHandsOn(st: State, l: nat, c: Cont)
    requires Inv(st) && l in st.locks && st.core.cur in st.pc && st.pc[st.core.cur] == At(Up, l, c)
    ensures SemaUp(st, l, c).Some?
    ensures var st', w := SemaUp(st, l, c).value, st.locks[l].waiters;
            && st'.locks == st.locks[l := Lock(Option.None, 0, 1, if w == [] then [] else w[1..], Option.None)]
            && st'.core == (if w == [] then st.core else Core(st.core.cur, [w[0]] + st.core.ready, st.core.status[w[0] := READY]))
            && st'.queues == st.queues && st'.depth == st.depth && st'.pc == st.pc[st.core.cur := if c.Ring? then Test(l, c.kind) else Run]
    ensures st.locks[l].waiters != [] ==> st.locks[l].waiters[0] in st.core.status && st.core.status[st.locks[l].waiters[0]] == BLOCKED
  {
    hide Inv;
    LockStepKeeps(st, Up, l, c);
    StageSays(st, Up, l, c);
    if st.locks[l].waiters != [] {
      WaitersParked(st, l, 0);
    }
  }

  predicate InLoop(p: Pc, l: nat) {
    p.At? && p.stage == Down && p.l == l
  }

  /** Who is on a lock's list is parked in its loop. */
  lemma WaitersParked(st: State, l: nat, i: nat)
    requires Inv(st) && l in st.locks && i < |st.locks[l].waiters|
    ensures var t := st.locks[l].waiters[i];
            t in st.pc && t in st.core.status && st.core.status[t] == BLOCKED && InLoop(st.pc[t], l)
  {
    hide CoreOk, At1, SlotOk, QueueOk, PcOk, OwnerOk;
    var t := st.locks[l].waiters[i];
    assert LockOk(st.locks[l], st.pc.Keys) && t in st.locks[l].waiters;
    InvAt(st, t, l);
  }

  /** A turn of sema_down takes the semaphore, or parks the thread at the end of the list. */
  lemma DownTakesOrParks(st: State, l: nat, s: Stage, c: Cont)
    requires Inv(st) && l in st.locks && st.core.cur in st.pc && st.pc[st.core.cur] == At(s, l, c) && (s == Acquire || s == Down)
    ensures SemaDown(st, l, c).Some?
    ensures var st', t, lk := SemaDown(st, l, c).value, st.core.cur, st.locks[l];
            && st'.queues == st.queues && st'.depth == st.depth
            && if lk.value == 0 then
                 && t !in lk.waiters && st'.locks == st.locks[l := lk.(waiters := lk.waiters + [t])]
                 && st'.pc == st.pc[t := At(Down, l, c)] && t in st'.core.status && st'.core.status[t] == BLOCKED && st'.core.cur != t
               else
                 && lk.value == 1 && st'.locks == st.locks[l := lk.(value := 0, owner := Some(t))]
                 && st'.pc == st.pc[t := At(Got, l, c)] && st'.core == st.core
  {
    hide Inv, Schedule;
    LockStepKeeps(st, s, l, c);
    if st.locks[l].value == 0 {
      ParkingRest(st, l, s, c);
      InvCore(st);
      Parks(st.core);
    }
  }

  lemma Parks(c: Core)
    requires CoreOk(c) && c.cur != IDLE
    ensures Block(c, BLOCKED).Some?
    ensures var d := Block(c, BLOCKED).value; c.cur in d.status && d.status[c.cur] == BLOCKED && d.cur != c.cur
  {
    hide Block;
    ParkTurns(c, BLOCKED);
    if c.ready != [] { assert c.ready[0] in c.ready; }
  }

  /** No step of a lock operation fails an assertion, and each keeps the invariant. */
  lemma LockStepKeeps(st: State, s: Stage, l: nat, c: Cont)
    requires Inv(st) && l in st.locks && st.core.cur in st.pc && st.pc[st.core.cur] == At(s, l, c)
    ensures LockStep(st, s, l, c).Some? && Inv(LockStep(st, s, l, c).value)
  {
    hide Inv;
    match s
    case Acquire => if st.locks[l].value == 0 { ParkKeeps(st, l, s, c); } else { TakeKeeps(st, l, s, c); }
    case Down => if st.locks[l].value == 0 { ParkKeeps(st, l, s, c); } else { TakeKeeps(st, l, s, c); }
    case Got => GotKeeps(st, l, c);
    case Held => HeldKeeps(st, l, c);
    case Again => AgainKeeps(st, l, c);
    case ReleaseMany => ReleaseManyKeeps(st, l, c);
    case Release => ReleaseKeeps(st, l, c);
    case Cleared => ClearedKeeps(st, l, c);
    case Up => if st.locks[l].waiters == [] { UpKeeps(st, l, c); } else { UpWakeKeeps(st, l, c); }
  }

  // ----- the queue

  /** A thread's state and position and one queue's slots change, no lock does. */
  ghost predicate QueueChanged(st: State, st': State, t: nat, q: nat, p': Pc, s': Status, x': Queue) {
    && t in st.pc && q in st.queues && st'.pc == st.pc[t := p'] && st'.core.status == st.core.status[t := s']
    && st'.queues == st.queues[q := x'] && st'.locks == st.locks && st'.depth == st.depth
  }

  ghost predicate SlotsSame(t: nat, x: Queue, x': Queue) {
    forall y, k :: y != t ==> (Slot(x', k) == Some(y) <==> Slot(x, k) == Some(y))
  }

  /** To every lock the thread stands as before. */
  ghost predicate PairsSame(st: State, t: nat, p': Pc, s': Status)
    requires t in st.pc && t in st.core.status
  {
    forall l :: l in st.locks ==>
      (PairOk(t, st.pc[t], st.core.status[t], l, st.locks[l], DepthIn(st.depth, t, l), l in st.queues) ==>
       PairOk(t, p', s', l, st.locks[l], DepthIn(st.depth, t, l), l in st.queues))
  }

  lemma SlotBystander(y: nat, p: Pc, s: Status, q: nat, x: Queue, t: nat, x': Queue)
    requires SlotOk(y, p, s, q, x) && y != t && SlotsSame(t, x, x')
    ensures SlotOk(y, p, s, q, x')
  {
  }

  lemma QueueThread(st: State, st': State, t: nat, q: nat, p': Pc, s': Status, x': Queue, y: nat)
    requires Rest(st) && QueueChanged(st, st', t, q, p', s', x') && y in st.pc && t in st.core.status
    requires PcOk(t, p', s', st.locks.Keys, st.queues.Keys) && PairsSame(st, t, p', s') && SlotsSame(t, st.queues[q], x')
    requires SlotOk(t, p', s', q, x') && forall r :: r in st.queues && r != q ==> SlotOk(t, p', s', r, st.queues[r])
    ensures At1(st', y)
  {
    hide LocksOk, SlotOk, Rest, PairOk, PcOk, DepthIn, At1, SlotsSame;
    AtOf(st, y);
    RestOf(st, y);
    assert st'.queues.Keys == st.queues.Keys;
    forall l | l in st'.locks
      ensures PairOk(y, st'.pc[y], st'.core.status[y], l, st'.locks[l], DepthIn(st'.depth, y, l), l in st'.queues)
    {
      PairAt(st, y, l);
    }
    if y != t { SlotBystander(y, st.pc[y], st.core.status[y], q, st.queues[q], t, x'); }
    ThreadFrom(st', y);
  }

  lemma QueueChange(st: State, st': State, t: nat, q: nat, p': Pc, s': Status, x': Queue)
    requires Rest(st) && QueueChanged(st, st', t, q, p', s', x') && t in st.core.status
    requires PcOk(t, p', s', st.locks.Keys, st.queues.Keys) && PairsSame(st, t, p', s') && SlotsSame(t, st.queues[q], x')
    requires SlotOk(t, p', s', q, x') && QueueOk(x', st.pc.Keys)
    requires forall r :: r in st.queues && r != q ==> SlotOk(t, p', s', r, st.queues[r])
    ensures Rest(st')
  {
    hide LockOk, QueueOk, SlotOk, PairOk, PcOk, DepthIn, At1, SlotsSame, PairsSame;
    assert st'.pc.Keys == st.pc.Keys;
    forall y | y in st'.pc ensures At1(st', y) {
      QueueThread(st, st', t, q, p', s', x', y);
    }
  }

  /** At most one slot of a queue is taken, by a thread that is parked and holds the queue's lock. */
  lemma OneWaiterAtQueue(st: State, q: nat)
    requires Inv(st) && q in st.queues
    ensures q in st.locks && (st.queues[q].producer == Option.None || st.queues[q].consumer == Option.None)
    ensures forall k :: Slot(st.queues[q], k) != Option.None ==>
              var t := Slot(st.queues[q], k).value;
              && t in st.pc && t in st.core.status && st.core.status[t] == BLOCKED && st.pc[t] == Waiting(q, k)
              && st.locks[q].holder == Some(t) && st.locks[q].owner == Some(t)
  {
    hide CoreOk, At1, WaiterOk, PcOk;
    forall k | Slot(st.queues[q], k) != Option.None
      ensures var t := Slot(st.queues[q], k).value;
              t in st.pc && t in st.core.status && st.core.status[t] == BLOCKED && st.pc[t] == Waiting(q, k) &&
              st.locks[q].holder == Some(t) && st.locks[q].owner == Some(t)
    {
      var t := Slot(st.queues[q], k).value;
      assert QueueOk(st.queues[q], st.pc.Keys);
      InvAt(st, t, q);
      assert SlotOk(t, st.pc[t], st.core.status[t], q, st.queues[q]);
    }
    assert Slot(st.queues[q], Producer) == st.queues[q].producer && Slot(st.queues[q], Consumer) == st.queues[q].consumer;
  }

  lemma SlotEmptyForWait(st: State, q: nat, k: Kind)
    requires Inv(st) && q in st.queues && st.core.cur in st.pc && st.pc[st.core.cur] == Wait(q, k)
    ensures Slot(st.queues[q], k) == Option.None && q in st.locks && st.core.cur != IDLE
  {
    hide Inv, SlotOk, WaiterOk;
    OneWaiterAtQueue(st, q);
    Running(st, q);
  }

  lemma WaitPairs(st: State, q: nat, k: Kind)
    requires st.core.cur in st.pc && st.core.cur in st.core.status
    requires st.pc[st.core.cur] == Wait(q, k) && st.core.status[st.core.cur] == RUNNING
    ensures PairsSame(st, st.core.cur, Waiting(q, k), BLOCKED)
  {
  }

  lemma WaitSlots(t: nat, p: Pc, q: nat, x: Queue, k: Kind)
    requires SlotOk(t, p, RUNNING, q, x) && Slot(x, k) == Option.None
    ensures var x' := SetSlot(x, k, Some(t)); SlotOk(t, Waiting(q, k), BLOCKED, q, x') && SlotsSame(t, x, x')
  {
  }

  lemma SlotElsewhere(t: nat, p: Pc, r: nat, x: Queue, q: nat, k: Kind)
    requires SlotOk(t, p, RUNNING, r, x) && r != q
    ensures SlotOk(t, Waiting(q, k), BLOCKED, r, x)
  {
  }

  function WaitMid(st: State, q: nat, k: Kind): State
    requires q in st.queues
  {
    WithQueue(st.Goto(Waiting(q, k)), q, SetSlot(st.queues[q], k, Some(st.core.cur)))
    .(core := st.core.(status := st.core.status[st.core.cur := BLOCKED]))
  }

  lemma WaitMidRest(st: State, q: nat, k: Kind)
    requires Inv(st) && q in st.queues && st.core.cur in st.pc && st.pc[st.core.cur] == Wait(q, k)
    ensures Rest(WaitMid(st, q, k))
  {
    hide Inv, Rest, SlotOk, PairOk, PairsSame, SlotsSame, LockOk, CoreOk, LocksOk;
    SlotEmptyForWait(st, q, k);
    Running(st, q);
    InvParts(st, q);
    var t, x := st.core.cur, st.queues[q];
    WaitPairs(st, q, k);
    WaitSlots(t, st.pc[t], q, x, k);
    forall r | r in st.queues && r != q ensures SlotOk(t, Waiting(q, k), BLOCKED, r, st.queues[r]) {
      SlotElsewhere(t, st.pc[t], r, st.queues[r], q, k);
    }
    QueueChange(st, WaitMid(st, q, k), t, q, Waiting(q, k), BLOCKED, SetSlot(x, k, Some(t)));
  }

  lemma InvParts(st: State, q: nat)
    requires Inv(st) && q in st.queues
    ensures CoreOk(st.core) && Rest(st) && QueueOk(st.queues[q], st.pc.Keys) && q in st.locks
  {
  }

  lemma IoqWaitKeeps(st: State, q: nat, k: Kind)
    requires Inv(st) && q in st.queues && st.core.cur in st.pc && st.pc[st.core.cur] == Wait(q, k)
    ensures IoqWait(st, q, k).Some? && Inv(IoqWait(st, q, k).value)
  {
    hide Inv, Rest, CoreOk, Block, SameParked;
    InvCore(st);
    SlotEmptyForWait(st, q, k);
    WaitMidRest(st, q, k);
    BlockKeeps(st.core, BLOCKED);
    CoreChange(WaitMid(st, q, k), Block(st.core, BLOCKED).value);
    assert IoqWait(st, q, k).value == WaitMid(st, q, k).(core := Block(st.core, BLOCKED).value);
  }

  /** wakeup: the thread in the slot becomes ready and the slot empty. */
  lemma WakeSlot(st: State, q: nat, k: Kind)
    requires Inv(st) && q in st.queues && Slot(st.queues[q], k) != Option.None
    ensures var u := Unblock(st.core, Slot(st.queues[q], k).value);
            && u.Some? && u.value.cur == st.core.cur && u.value.status.Keys == st.core.status.Keys
            && Inv(WithQueue(st, q, SetSlot(st.queues[q], k, Option.None)).(core := u.value))
  {
    hide Inv, CoreOk, LockOk, Unblock, LocksOk, Rest, PairsSame, SlotsSame, PcOk;
    OneWaiterAtQueue(st, q);
    InvParts(st, q);
    var w, x := Slot(st.queues[q], k).value, st.queues[q];
    var x' := SetSlot(x, k, Option.None);
    InvAt(st, w, q);
    UnblockKeeps(st.core, w);
    var st' := WithQueue(st, q, x').(core := Unblock(st.core, w).value);
    assert st'.pc == st.pc[w := st.pc[w]];
    WokenPc(st, w, st.pc[w]);
    WokenPairs(st, w);
    WokenSlots(w, q, x, k);
    forall r | r in st.queues && r != q ensures SlotOk(w, st.pc[w], READY, r, st.queues[r]) {}
    QueueChange(st, st', w, q, st.pc[w], READY, x');
    FromRest(st');
  }

  lemma WokenPc(st: State, w: nat, p: Pc)
    requires PcOk(w, p, BLOCKED, st.locks.Keys, st.queues.Keys)
    ensures PcOk(w, p, READY, st.locks.Keys, st.queues.Keys)
  {
  }

  lemma WokenPairs(st: State, w: nat)
    requires w in st.pc && w in st.core.status && st.pc[w].Waiting?
    ensures PairsSame(st, w, st.pc[w], READY)
  {
  }

  lemma WokenSlots(w: nat, q: nat, x: Queue, k: Kind)
    requires SlotOk(w, Waiting(q, k), BLOCKED, q, x) && Slot(x, k) == Some(w)
    ensures var x' := SetSlot(x, k, Option.None); SlotOk(w, Waiting(q, k), READY, q, x') && SlotsSame(w, x, x')
  {
    var x' := SetSlot(x, k, Option.None);
    forall j ensures Slot(x', j) == if j == k then Option.None else Slot(x, j) {}
    assert Slot(x, k) == Some(w) && Slot(x, Other(k)) != Some(w);
    forall j ensures Slot(x', j) != Some(w) {
      assert j == k || j == Other(k);
    }
  }

  /** The byte is moved and the operation returns. */
  lemma TransferKeeps(st: State, q: nat, k: Kind, n: nat)
    requires Inv(st) && q in st.queues && st.core.cur in st.pc && st.pc[st.core.cur] == Test(q, k) && n <= IoQueues.BUFSIZE - 1
    ensures Inv(WithQueue(st.Goto(Run), q, st.queues[q].(len := n)))
  {
    hide Inv, CoreOk, LockOk, LocksOk, Rest, PairsSame, PcOk;
    Running(st, q);
    InvParts(st, q);
    var t, x := st.core.cur, st.queues[q];
    var st' := WithQueue(st.Goto(Run), q, x.(len := n));
    assert st'.core.status == st.core.status[t := RUNNING];
    TransferPc(t, q, k, st.locks.Keys, st.queues.Keys);
    TransferPairs(st, q, k);
    forall r | r in st.queues ensures SlotOk(t, Run, RUNNING, r, if r == q then x.(len := n) else st.queues[r]) {
      SlotFree(t, st.pc[t], Run, r, st.queues[r]);
      if r == q { SlotsLen(t, q, x, n); }
    }
    SlotsLen(t, q, x, n);
    QueueChange(st, st', t, q, Run, RUNNING, x.(len := n));
    FromRest(st');
  }

  lemma SlotsLen(t: nat, q: nat, x: Queue, n: nat)
    ensures SlotOk(t, Run, RUNNING, q, x) ==> SlotOk(t, Run, RUNNING, q, x.(len := n))
    ensures SlotsSame(t, x, x.(len := n))
  {
  }

  lemma TransferPc(t: nat, q: nat, k: Kind, locks: set<nat>, queues: set<nat>)
    requires PcOk(t, Test(q, k), RUNNING, locks, queues)
    ensures PcOk(t, Run, RUNNING, locks, queues)
  {
  }

  lemma TransferPairs(st: State, q: nat, k: Kind)
    requires st.core.cur in st.pc && st.core.cur in st.core.status
    requires st.pc[st.core.cur] == Test(q, k) && st.core.status[st.core.cur] == RUNNING
    ensures PairsSame(st, st.core.cur, Run, RUNNING)
  {
  }

  predicate MustWait(x: Queue, k: Kind) {
    (k == Consumer && x.len == 0) || (k == Producer && x.len == IoQueues.BUFSIZE - 1)
  }

  lemma WakeAndTransfer(st: State, q: nat, k: Kind)
    requires Inv(st) && q in st.queues && q in st.locks && st.core.cur in st.pc && st.pc[st.core.cur] == Test(q, k)
    requires !MustWait(st.queues[q], k) && Slot(st.queues[q], Other(k)) != Option.None
    ensures RingTest(st, q, k).Some? && Inv(RingTest(st, q, k).value)
  {
    hide Inv, Unblock;
    var x := st.queues[q];
    var n := if k == Consumer then x.len - 1 else x.len + 1;
    WakeSlot(st, q, Other(k));
    var core := Unblock(st.core, Slot(x, Other(k)).value).value;
    var st1 := WithQueue(st, q, SetSlot(x, Other(k), Option.None)).(core := core);
    QueueLen(st, q);
    TransferKeeps(st1, q, k, n);
    assert RingTest(st, q, k).value == WithQueue(st1.Goto(Run), q, st1.queues[q].(len := n));
  }

  lemma QueueLen(st: State, q: nat)
    requires Inv(st) && q in st.queues
    ensures st.queues[q].len <= IoQueues.BUFSIZE - 1
  {
    hide CoreOk, Rest;
    InvParts(st, q);
  }

  lemma RingTestKeeps(st: State, q: nat, k: Kind)
    requires Inv(st) && q in st.queues && q in st.locks && st.core.cur in st.pc && st.pc[st.core.cur] == Test(q, k)
    ensures RingTest(st, q, k).Some? && Inv(RingTest(st, q, k).value)
  {
    hide Inv, Unblock;
    QueueLen(st, q);
    if MustWait(st.queues[q], k) {
      AcquireTestKeeps(st, q, Ring(k));
    } else if Slot(st.queues[q], Other(k)) == Option.None {
      TransferKeeps(st, q, k, if k == Consumer then st.queues[q].len - 1 else st.queues[q].len + 1);
    } else {
      WakeAndTransfer(st, q, k);
    }
  }

  /** The thread in a slot, if there is one, goes to the front of the ready queue. */
  ghost predicate Woken(c: Core, c': Core, w: Option<nat>) {
    if w == Option.None then c' == c
    else w.value in c.status && c.status[w.value] == BLOCKED && c' == Core(c.cur, [w.value] + c.ready, c.status[w.value := READY])
  }

  /** Where the loop test succeeds one byte is moved and the other side's slot emptied; where it
      fails the thread goes for the queue's lock. */
  lemma TransferMoves(st: State, q: nat, k: Kind)
    requires Inv(st) && q in st.queues && q in st.locks && st.core.cur in st.pc && st.pc[st.core.cur] == Test(q, k)
    ensures RingTest(st, q, k).Some?
    ensures var st', x := RingTest(st, q, k).value, st.queues[q];
            && st'.locks == st.locks && st'.depth == st.depth
            && if x.len == (if k == Consumer then 0 else 2047) then
                 && st'.core == st.core && st'.queues == st.queues
                 && st'.pc == st.pc[st.core.cur := if st.Depth(st.core.cur, q) > 0 then At(Again, q, Ring(k)) else At(Acquire, q, Ring(k))]
               else
                 && st'.pc == st.pc[st.core.cur := Run]
                 && st'.queues == st.queues[q := if k == Consumer then Queue(Option.None, x.consumer, x.len - 1)
                                                 else Queue(x.producer, Option.None, x.len + 1)]
                 && Woken(st.core, st'.core, if k == Consumer then x.producer else x.consumer)
  {
    hide Inv;
    RingTestKeeps(st, q, k);
    HolderTestDecides(st, st.core.cur, q);
    QueueLen(st, q);
    SlotsParked(st, q);
  }

  lemma SlotsParked(st: State, q: nat)
    requires Inv(st) && q in st.queues
    ensures forall k :: Slot(st.queues[q], k) != Option.None ==>
              Slot(st.queues[q], k).value in st.core.status && st.core.status[Slot(st.queues[q], k).value] == BLOCKED
    ensures Slot(st.queues[q], Producer) == st.queues[q].producer && Slot(st.queues[q], Consumer) == st.queues[q].consumer
  {
    hide Inv;
    OneWaiterAtQueue(st, q);
  }

  /** ioq_wait: the thread is in the slot and parked. */
  lemma WaitParks(st: State, q: nat, k: Kind)
    requires Inv(st) && q in st.queues && st.core.cur in st.pc && st.pc[st.core.cur] == Wait(q, k)
    ensures IoqWait(st, q, k).Some?
    ensures var st', x, t := IoqWait(st, q, k).value, st.queues[q], st.core.cur;
            && st'.locks == st.locks && st'.depth == st.depth && st'.pc == st.pc[t := Waiting(q, k)]
            && st'.queues == st.queues[q := if k == Consumer then Queue(x.producer, Some(t), x.len) else Queue(Some(t), x.consumer, x.len)]
            && (if k == Consumer then x.consumer else x.producer) == Option.None
            && t in st'.core.status && st'.core.status[t] == BLOCKED && st'.core.cur != t
  {
    hide Inv, Schedule;
    IoqWaitKeeps(st, q, k);
    SlotEmptyForWait(st, q, k);
    InvCore(st);
    Parks(st.core);
  }

  // ----- the keyboard

  /** A queue's length changes, in whatever thread. */
  lemma LengthKeeps(st: State, q: nat, n: nat)
    requires Inv(st) && q in st.queues && n <= IoQueues.BUFSIZE - 1
    ensures Inv(WithQueue(st, q, st.queues[q].(len := n)))
  {
    hide Inv, CoreOk, LockOk, LocksOk, Rest, PcOk, PairOk;
    Running(st, q);
    InvParts(st, q);
    var t, x := st.core.cur, st.queues[q];
    var p := st.pc[t];
    var st' := WithQueue(st, q, x.(len := n));
    assert st'.core.status == st.core.status[t := RUNNING] && st'.pc == st.pc[t := p];
    SlotLength(t, p, q, x, n);
    QueueChange(st, st', t, q, p, RUNNING, x.(len := n));
    FromRest(st');
  }

  lemma SlotLength(t: nat, p: Pc, q: nat, x: Queue, n: nat)
    ensures SlotOk(t, p, RUNNING, q, x) ==> SlotOk(t, p, RUNNING, q, x.(len := n))
    ensures SlotsSame(t, x, x.(len := n))
  {
    forall k ensures Slot(x.(len := n), k) == Slot(x, k) {}
  }

  /** A key press fails no assertion, whatever thread it interrupts and wherever that thread stands. */
  lemma KeyPutKeeps(st: State, q: nat)
    requires Inv(st) && q in st.queues
    ensures KeyPut(st, q).Some? && Inv(KeyPut(st, q).value)
  {
    hide Inv, Unblock;
    QueueLen(st, q);
    var x := st.queues[q];
    if x.len < IoQueues.BUFSIZE - 1 {
      if x.consumer == Option.None {
        LengthKeeps(st, q, x.len + 1);
      } else {
        assert Slot(x, Consumer) == x.consumer;
        WakeSlot(st, q, Consumer);
        var st1 := WithQueue(st, q, x.(consumer := Option.None)).(core := Unblock(st.core, x.consumer.value).value);
        LengthKeeps(st1, q, x.len + 1);
        assert KeyPut(st, q).value == WithQueue(st1, q, st1.queues[q].(len := x.len + 1));
      }
    }
  }

  /** A key press adds one byte and wakes the consumer, unless the queue is full. */
  lemma KeyMoves(st: State, q: nat)
    requires Inv(st) && q in st.queues
    ensures KeyPut(st, q).Some?
    ensures var st', x := KeyPut(st, q).value, st.queues[q];
            if x.len == 2047 then st' == st
            else
              && st'.pc == st.pc && st'.locks == st.locks && st'.depth == st.depth
              && st'.queues == st.queues[q := Queue(x.producer, Option.None, x.len + 1)] && Woken(st.core, st'.core, x.consumer)
  {
    hide Inv;
    KeyPutKeeps(st, q);
    SlotsParked(st, q);
  }

  // ----- the steps of the scheduler

  /** A thread's state and position change; it deals with no lock before or after. */
  lemma ThreadChange(st: State, st': State, t: nat, p': Pc, s': Status)
    requires Inv(st) && t in st.pc && t in st.core.status
    requires st'.pc == st.pc[t := p'] && st'.core.status == st.core.status[t := s']
    requires st'.locks == st.locks && st'.queues == st.queues && st'.depth == st.depth
    requires Plain(st.pc[t]) && Plain(p') && PcOk(t, p', s', st.locks.Keys, st.queues.Keys)
    ensures Rest(st')
  {
    hide Inv, LockOk, QueueOk, SlotOk, PairOk, PcOk, DepthIn, At1;
    RestPart(st);
    assert st'.pc.Keys == st.pc.Keys;
    forall y | y in st'.pc ensures At1(st', y) {
      AtOf(st, y);
      RestOf(st, y);
      forall l | l in st'.locks
        ensures PairOk(y, st'.pc[y], st'.core.status[y], l, st'.locks[l], DepthIn(st'.depth, y, l), l in st'.queues)
      {
        PairAt(st, y, l);
        if y == t { PairPlain(t, st.pc[t], st.core.status[t], l, st.locks[l], DepthIn(st.depth, t, l), l in st.queues, p', s'); }
      }
      forall q | q in st'.queues ensures SlotOk(y, st'.pc[y], st'.core.status[y], q, st'.queues[q]) {
        if y == t { SlotPlain(t, st.pc[t], st.core.status[t], q, st.queues[q], p', s'); }
      }
      ThreadFrom(st', y);
    }
  }

  predicate Plain(p: Pc) {
    p == Run || p == Asleep || p == IdleLoop
  }

  lemma RestPart(st: State)
    requires Inv(st)
    ensures Rest(st)
  {
  }

  lemma PairPlain(t: nat, p: Pc, s: Status, l: nat, lk: Lock, n: nat, ring: bool, p': Pc, s': Status)
    requires PairOk(t, p, s, l, lk, n, ring) && Plain(p) && Plain(p')
    ensures PairOk(t, p', s', l, lk, n, ring)
  {
  }

  lemma SlotPlain(t: nat, p: Pc, s: Status, q: nat, x: Queue, p': Pc, s': Status)
    requires SlotOk(t, p, s, q, x) && Plain(p) && Plain(p')
    ensures SlotOk(t, p', s', q, x)
  {
  }

  lemma PreemptKeeps(st: State)
    requires Inv(st)
    ensures Schedule(st.core).Some? && Inv(st.(core := Schedule(st.core).value))
    ensures Yield(st.core).Some? && Inv(st.(core := Yield(st.core).value))
  {
    hide Inv, Rest, CoreOk, Schedule, Yield, SameParked;
    InvCore(st);
    RestPart(st);
    ScheduleKeepsOk(st.core);
    YieldKeeps(st.core);
    CoreChange(st, Schedule(st.core).value);
    CoreChange(st, Yield(st.core).value);
  }

  lemma ScheduleKeepsOk(c: Core)
    requires CoreOk(c)
    ensures Schedule(c).Some? && CoreOk(Schedule(c).value) && SameParked(c.status, Schedule(c).value.status)
  {
    hide Schedule;
    ScheduleKeeps(c);
  }

  /** The running thread parks itself outside any lock or queue operation. */
  lemma SleepKeeps(st: State, p': Pc, s: Status)
    requires Inv(st) && st.core.cur in st.pc && Parked(s)
    requires (st.pc[st.core.cur] == Run && p' == Asleep && s != BLOCKED) || (st.pc[st.core.cur] == p' == IdleLoop && s == BLOCKED)
    ensures Block(st.core, s).Some? && Inv(st.Goto(p').(core := Block(st.core, s).value))
  {
    hide Inv, Rest, CoreOk, Block, SameParked;
    InvCore(st);
    RunningPc(st);
    var t := st.core.cur;
    BlockKeeps(st.core, s);
    var mid := st.Goto(p').(core := st.core.(status := st.core.status[t := s]));
    ThreadChange(st, mid, t, p', s);
    CoreChange(mid, Block(st.core, s).value);
    assert mid.(core := Block(st.core, s).value) == st.Goto(p').(core := Block(st.core, s).value);
  }

  lemma RunningPc(st: State)
    requires Inv(st)
    ensures st.core.cur in st.pc && st.core.cur in st.core.status && st.core.status[st.core.cur] == RUNNING
    ensures PcOk(st.core.cur, st.pc[st.core.cur], RUNNING, st.locks.Keys, st.queues.Keys)
  {
    hide CoreOk, PairOk, PcOk, SlotOk, LockOk, QueueOk, At1, DepthIn;
    CurIn(st.core);
    AtOf(st, st.core.cur);
    RestOf(st, st.core.cur);
  }

  /** Leaving sys_wait or sys_exit after being woken, or entering a queue operation. */
  lemma GotoKeeps(st: State)
    requires Inv(st) && st.core.cur in st.pc && st.pc[st.core.cur] == Asleep
    ensures Inv(st.Goto(Run))
  {
    hide Inv, Rest, CoreOk;
    InvCore(st);
    RunningPc(st);
    assert st.core.status == st.core.status[st.core.cur := RUNNING];
    ThreadChange(st, st.Goto(Run), st.core.cur, Run, RUNNING);
    FromRest(st.Goto(Run));
  }

  lemma WakeKeeps(st: State, x: nat)
    requires Inv(st) && x in st.core.status && st.core.status[x] == WAITING
    ensures Unblock(st.core, x).Some? && Inv(st.(core := Unblock(st.core, x).value))
  {
    hide Inv, Rest, CoreOk, Unblock;
    InvCore(st);
    KeysSame(st);
    UnblockKeeps(st.core, x);
    AsleepOf(st, x);
    var st' := st.(core := Unblock(st.core, x).value);
    assert st'.pc == st.pc[x := st.pc[x]];
    ThreadChange(st, st', x, Asleep, READY);
    FromRest(st');
  }

  lemma KeysSame(st: State)
    requires Inv(st)
    ensures st.pc.Keys == st.core.status.Keys
  {
  }

  lemma AsleepOf(st: State, x: nat)
    requires Inv(st) && x in st.pc && x in st.core.status && st.core.status[x] == WAITING
    ensures st.pc[x] == Asleep && x != IDLE
  {
    hide Inv, PairOk, SlotOk, LockOk, QueueOk, At1, DepthIn;
    RestPart(st);
    AtOf(st, x);
    RestOf(st, x);
  }

  /** A new thread deals with no lock and no queue. */
  lemma SpawnKeeps(st: State, x: nat)
    requires Inv(st) && x !in st.core.status
    ensures Start(st.core, x).Some? && Inv(st.(pc := st.pc[x := Run], core := Start(st.core, x).value))
  {
    hide Inv, CoreOk, At1, SlotOk, PairOk, PcOk;
    InvCore(st);
    KeysSame(st);
    StartKeeps(st.core, x);
    var st' := st.(pc := st.pc[x := Run], core := Start(st.core, x).value);
    assert st'.core.status == st.core.status[x := READY];
    RestPart(st);
    NewThread(st, x);
    forall y | y in st'.pc ensures At1(st', y) {
      if y != x {
        AtOf(st, y);
        RestOf(st, y);
        forall l | l in st'.locks { PairAt(st, y, l); }
      }
      ThreadFrom(st', y);
    }
    MoreThreads(st, st', x);
    FromRest(st');
  }

  lemma NewThread(st: State, x: nat)
    requires Inv(st) && x !in st.pc
    ensures x != IDLE && PcOk(x, Run, READY, st.locks.Keys, st.queues.Keys)
    ensures forall l :: l in st.locks ==> PairOk(x, Run, READY, l, st.locks[l], DepthIn(st.depth, x, l), l in st.queues)
    ensures forall q :: q in st.queues ==> SlotOk(x, Run, READY, q, st.queues[q])
  {
    hide At1;
    forall l | l in st.locks ensures PairOk(x, Run, READY, l, st.locks[l], DepthIn(st.depth, x, l), l in st.queues) {
      assert LockOk(st.locks[l], st.pc.Keys);
    }
    forall q | q in st.queues ensures SlotOk(x, Run, READY, q, st.queues[q]) {
      assert QueueOk(st.queues[q], st.pc.Keys);
    }
  }

  lemma MoreThreads(st: State, st': State, x: nat)
    requires LocksOk(st) && st'.locks == st.locks && st'.queues == st.queues && st'.depth == st.depth && st'.pc.Keys == st.pc.Keys + {x}
    ensures LocksOk(st')
  {
  }

  /** A finished thread that holds no lock is on no list and in no slot, so its leaving changes
      nothing for the others. */
  lemma ReapKeeps(st: State, x: nat)
    requires Inv(st) && x in st.core.status && st.core.status[x] == HANGING && HoldsNothing(st, x)
    ensures Inv(st.(pc := st.pc - {x}, core := Exit(st.core, x)))
  {
    hide Inv, CoreOk, At1, SlotOk, PairOk, PcOk, LocksOk, Exit;
    InvCore(st);
    RestPart(st);
    KeysSame(st);
    RunningPc(st);
    NowhereListed(st, x);
    ExitKeeps(st.core, x);
    var st' := st.(pc := st.pc - {x}, core := Exit(st.core, x));
    forall y | y in st'.pc ensures At1(st', y) {
      AtOf(st, y);
      RestOf(st, y);
      forall l | l in st'.locks { PairAt(st, y, l); }
      ThreadFrom(st', y);
    }
    FewerThreads(st, st', x);
    FromRest(st');
  }

  lemma NowhereListed(st: State, x: nat)
    requires Inv(st) && x in st.pc && x in st.core.status && st.core.status[x] == HANGING && HoldsNothing(st, x)
    ensures x != IDLE
    ensures forall l :: l in st.locks ==> st.locks[l].owner != Some(x) && x !in st.locks[l].waiters
    ensures forall q, k :: q in st.queues ==> Slot(st.queues[q], k) != Some(x)
  {
    hide Inv, QueueOk, LockOk, At1;
    RestPart(st);
    AtOf(st, x);
    RestOf(st, x);
    forall l | l in st.locks ensures st.locks[l].owner != Some(x) && x !in st.locks[l].waiters { PairAt(st, x, l); }
    forall q, k | q in st.queues ensures Slot(st.queues[q], k) != Some(x) {
      assert SlotOk(x, st.pc[x], st.core.status[x], q, st.queues[q]);
    }
  }

  lemma FewerThreads(st: State, st': State, x: nat)
    requires LocksOk(st) && st'.locks == st.locks && st'.queues == st.queues && st'.depth == st.depth && st'.pc.Keys == st.pc.Keys - {x}
    requires HoldsNothing(st, x)
    requires forall l :: l in st.locks ==> st.locks[l].owner != Some(x) && x !in st.locks[l].waiters
    requires forall q, k :: q in st.queues ==> Slot(st.queues[q], k) != Some(x)
    ensures LocksOk(st')
  {
    forall q | q in st.queues ensures QueueOk(st.queues[q], st'.pc.Keys) {
      assert Slot(st.queues[q], Producer) != Some(x) && Slot(st.queues[q], Consumer) != Some(x);
    }
  }

  lemma TransferStarts(st: State, q: nat, k: Kind)
    requires Inv(st) && q in st.queues && st.core.cur in st.pc && st.pc[st.core.cur] == Run
    ensures Inv(st.Goto(Test(q, k)))
  {
    hide Inv, DepthSet, SlotOk, PairOk, LockOk, OthersSame;
    QueueLock(st, q);
    Running(st, q);
    var t, lk := st.core.cur, st.locks[q];
    DepthStays(st, t, q);
    var st' := st.Goto(Test(q, k));
    assert st'.core.status == st.core.status[t := RUNNING] && st'.locks == st.locks[q := lk];
    RunPair(t, q, lk, st.Depth(t, q), k);
    SameOthers(t, lk);
    MoveKeeps(st, st', q, Test(q, k), lk, st.Depth(t, q));
  }

  lemma QueueLock(st: State, q: nat)
    requires Inv(st) && q in st.queues
    ensures q in st.locks
  {
  }

  lemma RunPair(t: nat, q: nat, lk: Lock, n: nat, k: Kind)
    requires PairOk(t, Run, RUNNING, q, lk, n, true)
    ensures PairOk(t, Test(q, k), RUNNING, q, lk, n, true)
  {
  }

  lemma SameOthers(t: nat, lk: Lock)
    ensures OthersSame(t, lk, lk)
  {
  }

  // ----- all steps, all runs

  lemma ResumeKeeps(st: State)
    requires Inv(st) && st.core.cur in st.pc && st.pc[st.core.cur] != Run
    ensures Resume(st).Some? && Inv(Resume(st).value)
  {
    hide Inv, LockStep, RingTest, IoqWait, ReleaseTest, Block;
    RunningPc(st);
    match st.pc[st.core.cur]
    case At(s, l, c) => LockStepKeeps(st, s, l, c);
    case Test(q, k) => QueueLock(st, q); RingTestKeeps(st, q, k);
    case Wait(q, k) => IoqWaitKeeps(st, q, k);
    case Waiting(q, k) => QueueLock(st, q); ReleaseTestKeeps(st, q, Ring(k));
    case Asleep => GotoKeeps(st);
    case IdleLoop =>
      SleepKeeps(st, IdleLoop, BLOCKED);
      assert st.Goto(IdleLoop).pc == st.pc;
  }

  /** Whatever a thread may do next, no assertion of the kernel fails, and the invariant is kept. */
  lemma NextKeeps(st: State, step: Step)
    requires Inv(st) && Enabled(st, step)
    ensures Next(st, step).Some? && Inv(Next(st, step).value)
  {
    hide Inv, Resume, ReleaseTest, AcquireTest, Block, Schedule, Yield, Unblock, Start, Exit, KeyPut;
    match step
    case Preempt => PreemptKeeps(st);
    case YieldCpu => PreemptKeeps(st);
    case Sleep(s) => SleepKeeps(st, Asleep, s);
    case Wake(x) => WakeKeeps(st, x);
    case Spawn(x) => SpawnKeeps(st, x);
    case Reap(x) => ReapKeeps(st, x);
    case KeyPress(q) => KeyPutKeeps(st, q);
    case AcquireLock(l) => AcquireTestKeeps(st, l, Caller);
    case ReleaseLock(l) => ReleaseTestKeeps(st, l, Caller);
    case Transfer(q, k) => TransferStarts(st, q, k);
    case Continue => ResumeKeeps(st);
  }

  const INIT_THREAD := 1
  const MAIN_THREAD := 2

  /** Main runs, init and after it the idle thread wait in the queue, locks are free and queues empty. */
  ghost predicate Booted(st: State) {
    && st.core == Core(MAIN_THREAD, [INIT_THREAD, IDLE], map[IDLE := READY, INIT_THREAD := READY, MAIN_THREAD := RUNNING])
    && st.pc == map[IDLE := IdleLoop, INIT_THREAD := Run, MAIN_THREAD := Run] && st.depth == map[]
    && (forall l :: l in st.locks ==> st.locks[l] == Lock(Option.None, 0, 1, [], Option.None))
    && (forall q :: q in st.queues ==> q in st.locks && st.queues[q] == Queue(Option.None, Option.None, 0))
  }

  lemma BootedOk(st: State)
    requires Booted(st)
    ensures Inv(st)
  {
    assert CoreOk(st.core);
    forall t | t in st.pc ensures At1(st, t) {
      forall l | l in st.locks
        ensures PairOk(t, st.pc[t], st.core.status[t], l, st.locks[l], DepthIn(st.depth, t, l), l in st.queues) {}
      forall q | q in st.queues ensures SlotOk(t, st.pc[t], st.core.status[t], q, st.queues[q]) {}
      ThreadFrom(st, t);
    }
  }

  /** A run: each state follows from the one before by an enabled step, as far as assertions let it. */
  ghost predicate KernelRun(states: seq<State>, steps: seq<Step>) {
    && |states| == |steps| + 1 && Booted(states[0])
    && forall n :: 0 <= n < |steps| ==> Enabled(states[n], steps[n]) && Next(states[n], steps[n]) == Some(states[n + 1])
  }

  /** In every run the invariant holds throughout, and no enabled step can fail an assertion. */
  lemma {:induction false} RunSafe(states: seq<State>, steps: seq<Step>, next: Step)
    requires KernelRun(states, steps)
    ensures Inv(states[|steps|])
    ensures Enabled(states[|steps|], next) ==> Next(states[|steps|], next).Some?
    decreases |steps|
  {
    hide Inv, Booted, Next, Enabled;
    if steps == [] {
      BootedOk(states[0]);
    } else {
      var n := |steps| - 1;
      RunSafe(states[..n + 1], steps[..n], steps[n]);
      NextKeeps(states[n], steps[n]);
    }
    if Enabled(states[|steps|], next) { NextKeeps(states[|steps|], next); }
  }

  // ----- what the invariant says

  /** A thread's list node is on one list at most: the ready queue or one lock's waiters. */
  lemma OnOneList(st: State, t: nat, l: nat, m: nat)
    requires Inv(st) && l in st.locks && m in st.locks
    ensures t in st.locks[l].waiters ==> t !in st.core.ready && t in st.core.status && st.core.status[t] == BLOCKED
    ensures t in st.locks[l].waiters && t in st.locks[m].waiters ==> l == m
  {
    if t in st.locks[l].waiters {
      assert LockOk(st.locks[l], st.pc.Keys);
      InvAt(st, t, l);
      InvAt(st, t, m);
    }
  }

  /** Between a completed acquire and the final release there is at most one thread, and while it
      is not itself in the middle of an operation on the lock, the count is its nesting depth. */
  lemma MutualExclusion(st: State, t: nat, u: nat, l: nat)
    requires Inv(st) && l in st.locks && st.Depth(t, l) > 0 && st.Depth(u, l) > 0
    ensures t == u && st.locks[l].holder == Some(t) && st.locks[l].repeat == st.Depth(t, l)
  {
    hide CoreOk, At1, SlotOk, QueueOk, PcOk, WaiterOk;
    DepthOwner(st, t, l);
    DepthOwner(st, u, l);
  }

  lemma DepthOwner(st: State, t: nat, l: nat)
    requires Inv(st) && l in st.locks && st.Depth(t, l) > 0
    ensures st.locks[l].owner == Some(t) && st.locks[l].holder == Some(t) && st.locks[l].repeat == st.Depth(t, l)
  {
    hide CoreOk, At1, SlotOk, QueueOk, PcOk, WaiterOk;
    assert (t, l) in st.depth && st.depth[(t, l)] > 0;
    InvAt(st, t, l);
  }
}
