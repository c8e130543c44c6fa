/** Re-entrant locks on semaphores, and the waiting protocol of the ring queue, as a machine whose
    steps any timer tick may separate (thread/sync.c, device/ioqueue.c, thread/thread.c).

    Semaphore operations, blocking and the body of a queue operation run with interrupts off, so
    each is one step. A lock operation runs with interrupts on and is taken apart: testing the
    holder, the semaphore, setting the holder, setting the count are separate steps. */
module Locks {
  import opened Util
  import opened Threads
  import IoQueues

  datatype Kind = Producer | Consumer

  /** Who called the lock operation: a thread at large, or the queue code waiting in its loop. */
  datatype Cont = Caller | Ring(kind: Kind)

  datatype Stage =
    | Acquire      // the holder is someone else; about to enter sema_down
    | Down         // in the loop of sema_down, parked or about to test the value again
    | Got          // sema_down is done, the holder not yet set
    | Held         // the holder is set, the count not yet
    | Again        // the holder is this thread; about to count up
    | ReleaseMany  // about to count down
    | Release      // about to clear the holder
    | Cleared      // the holder is cleared, the count not yet
    | Up           // about to enter sema_up

  datatype Pc =
    | Run                             // at large
    | At(stage: Stage, l: nat, cont: Cont)
    | Test(q: nat, kind: Kind)        // in the loop of ioq_getchar or ioq_putchar
    | Wait(q: nat, kind: Kind)        // holds the queue's lock, about to call ioq_wait
    | Waiting(q: nat, kind: Kind)     // inside ioq_wait
    | Asleep                          // parked by sys_wait or sys_exit
    | IdleLoop

  /** `owner` is a history variable: who took the semaphore down last and has not put it up. */
  datatype Lock = Lock(holder: Option<nat>, repeat: nat, value: nat, waiters: seq<nat>, owner: Option<nat>)

  datatype Queue = Queue(producer: Option<nat>, consumer: Option<nat>, len: nat)

  /** `depth` is a history variable: completed acquires not yet matched by a release. */
  datatype State = State(core: Core, pc: map<nat, Pc>, depth: map<(nat, nat), nat>,
                         locks: map<nat, Lock>, queues: map<nat, Queue>)
  {
    function Depth(t: nat, l: nat): nat {
      DepthIn(depth, t, l)
    }

    function Goto(p: Pc): State {
      this.(pc := pc[core.cur := p])
    }

    function WithLock(l: nat, lk: Lock): State {
      this.(locks := locks[l := lk])
    }

    function WithDepth(l: nat, n: nat): State {
      this.(depth := depth[(core.cur, l) := n])
    }
  }

  function DepthIn(depth: map<(nat, nat), nat>, t: nat, l: nat): nat {
    if (t, l) in depth then depth[(t, l)] else 0
  }

  function AfterAcquire(l: nat, c: Cont): Pc {
    if c.Ring? then Wait(l, c.kind) else Run
  }

  function AfterRelease(l: nat, c: Cont): Pc {
    if c.Ring? then Test(l, c.kind) else Run
  }

  // ----- sema_down and sema_up; None stands for a failed assertion

  /** One turn of the loop of sema_down. */
  function SemaDown(st: State, l: nat, c: Cont): Option<State>
    requires l in st.locks
  {
    var t, lk := st.core.cur, st.locks[l];
    if lk.value == 0 then
      if t in lk.waiters then None
      else match Block(st.core, BLOCKED)
        case None => None
        case Some(core) => Some(st.Goto(At(Down, l, c)).WithLock(l, lk.(waiters := lk.waiters + [t])).(core := core))
    else if lk.value - 1 != 0 then None
    else Some(st.Goto(At(Got, l, c)).WithLock(l, lk.(value := lk.value - 1, owner := Some(t))))
  }

  function SemaUp(st: State, l: nat, c: Cont): Option<State>
    requires l in st.locks
  {
    var lk := st.locks[l];
    if lk.value != 0 then None
    else if lk.waiters == [] then Some(st.Goto(AfterRelease(l, c)).WithLock(l, lk.(value := lk.value + 1, owner := Option.None)))
    else match Unblock(st.core, lk.waiters[0])
      case None => None
      case Some(core) =>
        Some(st.Goto(AfterRelease(l, c)).WithLock(l, lk.(waiters := lk.waiters[1..], value := lk.value + 1, owner := Option.None)).(core := core))
  }

  // ----- lock_acquire and lock_release

  /** The unsynchronised test with which lock_acquire begins. */
  function AcquireTest(st: State, l: nat, c: Cont): State
    requires l in st.locks
  {
    if st.locks[l].holder == Some(st.core.cur) then st.Goto(At(Again, l, c)) else st.Goto(At(Acquire, l, c))
  }

  /** The assertions and the test with which lock_release begins. */
  function ReleaseTest(st: State, l: nat, c: Cont): Option<State>
    requires l in st.locks
  {
    var lk := st.locks[l];
    if lk.holder != Some(st.core.cur) then None
    else if lk.repeat > 1 then Some(st.Goto(At(ReleaseMany, l, c)))
    else if lk.repeat != 1 then None
    else Some(st.Goto(At(Release, l, c)))
  }

  /** The next step inside a lock operation. */
  function LockStep(st: State, s: Stage, l: nat, c: Cont): Option<State>
    requires l in st.locks
  {
    var t, lk := st.core.cur, st.locks[l];
    match s
    case Acquire => SemaDown(st, l, c)
    case Down => SemaDown(st, l, c)
    case Got => Some(st.Goto(At(Held, l, c)).WithLock(l, lk.(holder := Some(t))))
    case Held => if lk.repeat != 0 then None
                 else Some(st.Goto(AfterAcquire(l, c)).WithLock(l, lk.(repeat := 1)).WithDepth(l, 1))
    case Again => Some(st.Goto(AfterAcquire(l, c)).WithLock(l, lk.(repeat := lk.repeat + 1)).WithDepth(l, st.Depth(t, l) + 1))
    case ReleaseMany => if lk.repeat == 0 || st.Depth(t, l) == 0 then None
                        else Some(st.Goto(AfterRelease(l, c)).WithLock(l, lk.(repeat := lk.repeat - 1)).WithDepth(l, st.Depth(t, l) - 1))
    case Release => Some(st.Goto(At(Cleared, l, c)).WithLock(l, lk.(holder := Option.None)).WithDepth(l, 0))
    case Cleared => Some(st.Goto(At(Up, l, c)).WithLock(l, lk.(repeat := 0)))
    case Up => SemaUp(st, l, c)
  }

  // ----- the ring queue

  function Slot(q: Queue, k: Kind): Option<nat> {
    if k == Producer then q.producer else q.consumer
  }

  function SetSlot(q: Queue, k: Kind, w: Option<nat>): Queue {
    if k == Producer then q.(producer := w) else q.(consumer := w)
  }

  function Other(k: Kind): Kind {
    if k == Producer then Consumer else Producer
  }

  function WithQueue(st: State, q: nat, x: Queue): State {
    st.(queues := st.queues[q := x])
  }

  /** The loop test of ioq_getchar and ioq_putchar, and the transfer once it succeeds. */
  function RingTest(st: State, q: nat, k: Kind): Option<State>
    requires q in st.queues && q in st.locks
  {
    var x := st.queues[q];
    if (k == Consumer && x.len == 0) || (k == Producer && x.len == IoQueues.BUFSIZE - 1) then Some(AcquireTest(st, q, Ring(k)))
    else
      var x' := x.(len := if k == Consumer then x.len - 1 else x.len + 1);
      match Slot(x, Other(k))
      case None => Some(WithQueue(st.Goto(Run), q, x'))
      case Some(w) =>
        match Unblock(st.core, w)
        case None => None
        case Some(core) => Some(WithQueue(st.Goto(Run), q, SetSlot(x', Other(k), Option.None)).(core := core))
  }

  /** A key is pressed: the interrupt finds any thread running, and puts the character unless the
      queue is full. */
  function KeyPut(st: State, q: nat): Option<State>
    requires q in st.queues
  {
    var x := st.queues[q];
    if x.len == IoQueues.BUFSIZE - 1 then Some(st)
    else
      var x' := x.(len := x.len + 1);
      match x.consumer
      case None => Some(WithQueue(st, q, x'))
      case Some(w) =>
        match Unblock(st.core, w)
        case None => None
        case Some(core) => Some(WithQueue(st, q, x'.(consumer := Option.None)).(core := core))
  }

  function IoqWait(st: State, q: nat, k: Kind): Option<State>
    requires q in st.queues
  {
    if Slot(st.queues[q], k) != Option.None then None
    else match Block(st.core, BLOCKED)
      case None => None
      case Some(core) => Some(WithQueue(st.Goto(Waiting(q, k)), q, SetSlot(st.queues[q], k, Some(st.core.cur))).(core := core))
  }

  // ----- the machine

  datatype Step = Preempt | YieldCpu | Sleep(s: Status) | Wake(t: nat) | Spawn(t: nat) | Reap(t: nat) | KeyPress(q: nat)
                | AcquireLock(l: nat) | ReleaseLock(l: nat) | Transfer(q: nat, kind: Kind) | Continue

  ghost predicate HoldsNothing(st: State, t: nat) {
    forall k :: k in st.depth && k.0 == t ==> st.depth[k] == 0
  }

  /** What a thread may do where it stands, and what may happen to it. Only a lock that was acquired
      may be released, and no system call that ends a process leaves a lock held. */
  ghost predicate Enabled(st: State, step: Step) {
    var t := st.core.cur;
    && t in st.pc
    && match step
       case Preempt => true
       case Continue => st.pc[t] != Run
       case YieldCpu => st.pc[t] == Run
       case Sleep(s) => st.pc[t] == Run && (s == WAITING || s == HANGING)
       case Wake(x) => st.pc[t] == Run && x in st.core.status && st.core.status[x] == WAITING
       case Spawn(x) => st.pc[t] == Run && x !in st.core.status
       case Reap(x) => st.pc[t] == Run && x in st.core.status && st.core.status[x] == HANGING && HoldsNothing(st, x)
       case KeyPress(q) => q in st.queues
       case AcquireLock(l) => st.pc[t] == Run && l in st.locks && l !in st.queues
       case ReleaseLock(l) => st.pc[t] == Run && l in st.locks && l !in st.queues && st.Depth(t, l) > 0
       case Transfer(q, k) => st.pc[t] == Run && q in st.queues
  }

  function WithCore(st: State, c: Option<Core>): Option<State> {
    if c.None? then None else Some(st.(core := c.value))
  }

  function Next(st: State, step: Step): Option<State>
    requires Enabled(st, step)
  {
    match step
    case Preempt => WithCore(st, Schedule(st.core))
    case YieldCpu => WithCore(st, Yield(st.core))
    case Sleep(s) => WithCore(st.Goto(Asleep), Block(st.core, s))
    case Wake(x) => WithCore(st, Unblock(st.core, x))
    case Spawn(x) => WithCore(st.(pc := st.pc[x := Run]), Start(st.core, x))
    case Reap(x) => Some(st.(pc := st.pc - {x}, core := Exit(st.core, x)))
    case KeyPress(q) => KeyPut(st, q)
    case AcquireLock(l) => Some(AcquireTest(st, l, Caller))
    case ReleaseLock(l) => ReleaseTest(st, l, Caller)
    case Transfer(q, k) => Some(st.Goto(Test(q, k)))
    case Continue => Resume(st)
  }

  /** A thread goes on from where it stands. */
  function Resume(st: State): Option<State>
    requires st.core.cur in st.pc
  {
    match st.pc[st.core.cur]
    case Run => Some(st)
    case At(s, l, c) => if l in st.locks then LockStep(st, s, l, c) else None
    case Test(q, k) => if q in st.queues && q in st.locks then RingTest(st, q, k) else None
    case Wait(q, k) => if q in st.queues then IoqWait(st, q, k) else None
    case Waiting(q, k) => if q in st.locks then ReleaseTest(st, q, Ring(k)) else None
    case Asleep => Some(st.Goto(Run))
    case IdleLoop => WithCore(st, Block(st.core, BLOCKED))
  }
}
