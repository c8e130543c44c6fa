/** Semaphores, locks and the ring queue's waiting on the kernel's own variables: each method runs
    one step of the machine in Locks (thread/sync.c, device/ioqueue.c). */
module Sync {
  import opened Util
  import opened Threads
  import IoQueues
  import opened Locks
  import opened LockSafety

  class Kernel {
    const sched: Scheduler
    var pc: map<nat, Pc>
    var locks: map<nat, Lock>
    var queues: map<nat, Queue>
    ghost var depth: map<(nat, nat), nat>

    ghost function View(): State
      reads this, sched
    {
      State(sched.View(), pc, depth, locks, queues)
    }

    constructor (sched: Scheduler, pc: map<nat, Pc>, locks: map<nat, Lock>, queues: map<nat, Queue>)
      ensures this.sched == sched && View() == State(sched.View(), pc, map[], locks, queues)
    {
      this.sched, this.pc, this.locks, this.queues, depth := sched, pc, locks, queues, map[];
    }

    /** One turn of sema_down. If it parks the thread, the rest of the turn is for when it is woken. */
    method SemaDownTurn(l: nat, c: Cont, ghost s: Stage)
      requires Inv(View()) && l in locks && sched.running in pc && pc[sched.running] == At(s, l, c) && (s == Acquire || s == Down)
      modifies this, sched
      ensures SemaDown(old(View()), l, c) == Some(View()) && Inv(View())
      ensures queues == old(queues) && l in locks && locks == old(locks)[l := locks[l]]
      ensures var t, lk := old(sched.running), old(locks[l]);
              if lk.value == 0 then
                && locks[l] == lk.(waiters := lk.waiters + [t]) && pc == old(pc)[t := At(Down, l, c)]
                && t in sched.status && sched.status[t] == BLOCKED && sched.running != t
              else
                && lk.value == 1 && locks[l] == lk.(value := 0, owner := Some(t)) && pc == old(pc)[t := At(Got, l, c)]
                && sched.View() == old(sched.View())
    {
      hide Inv, Block, CoreOk, Switching;
      DownTakesOrParks(View(), l, s, c);
      LockStepKeeps(View(), s, l, c);
      RunningPc(View());
      InvCore(View());
      var t := sched.running;
      var sema := locks[l];
      if sema.value == 0 {
        assert t !in sema.waiters;
        locks := locks[l := sema.(waiters := sema.waiters + [t])];
        pc := pc[t := At(Down, l, c)];
        sched.ThreadBlock(BLOCKED);
      } else {
        locks := locks[l := sema.(value := sema.value - 1, owner := Some(t))];
        assert locks[l].value == 0;
        pc := pc[t := At(Got, l, c)];
      }
    }

    /** sema_up: the first waiter is woken before the value goes up. */
    method SemaUpTurn(l: nat, c: Cont)
      requires Inv(View()) && l in locks && sched.running in pc && pc[sched.running] == At(Up, l, c)
      modifies this, sched
      ensures queues == old(queues) && sched.running == old(sched.running)
      ensures pc == old(pc)[sched.running := if c.Ring? then Test(l, c.kind) else Run]
      ensures old(locks[l].waiters) == [] ==>
                locks == old(locks)[l := Lock(Option.None, 0, 1, [], Option.None)] && sched.View() == old(sched.View())
      ensures old(locks[l].waiters) != [] ==>
                locks == old(locks)[l := Lock(Option.None, 0, 1, old(locks[l].waiters)[1..], Option.None)]
      ensures old(locks[l].waiters) != [] ==>
                var w := old(locks[l].waiters)[0];
                && w in old(sched.status) && old(sched.status)[w] == BLOCKED
                && sched.threadReadyList == [w] + old(sched.threadReadyList) && sched.status == old(sched.status)[w := READY]
      ensures SemaUp(old(View()), l, c) == Some(View()) && Inv(View())
    {
      hide Inv;
      UpHandsOn(View(), l, c);
      LockStepKeeps(View(), Up, l, c);
      var t := sched.running;
      assert locks[l].value == 0;
      if locks[l].waiters != [] {
        var w := locks[l].waiters[0];
        locks := locks[l := locks[l].(waiters := locks[l].waiters[1..])];
        sched.ThreadUnblock(w);
      }
      locks := locks[l := locks[l].(value := locks[l].value + 1, owner := Option.None)];
      assert locks[l].value == 1;
      assert locks == old(locks)[l := locks[l]];
      pc := pc[t := AfterRelease(l, c)];
    }

    /** The unsynchronised test with which lock_acquire begins. */
    method BeginAcquire(l: nat)
      requires Inv(View()) && l in locks && l !in queues && sched.running in pc && pc[sched.running] == Run
      modifies this
      ensures View() == AcquireTest(old(View()), l, Caller) && Inv(View())
      ensures locks == old(locks) && queues == old(queues) && depth == old(depth)
      ensures pc == old(pc)[sched.running := if DepthIn(depth, sched.running, l) > 0 then At(Again, l, Caller) else At(Acquire, l, Caller)]
    {
      hide Inv;
      AcquireTestKeeps(View(), l, Caller);
      HolderTestDecides(View(), sched.running, l);
      var t := sched.running;
      if locks[l].holder != Some(t) {
        pc := pc[t := At(Acquire, l, Caller)];
      } else {
        pc := pc[t := At(Again, l, Caller)];
      }
    }

    /** The steps of lock_acquire behind sema_down, and counting up a lock already held. */
    method TakeLock(l: nat, c: Cont, s: Stage)
      requires Inv(View()) && l in locks && sched.running in pc && pc[sched.running] == At(s, l, c) && (s == Got || s == Held || s == Again)
      modifies this
      ensures LockStep(old(View()), s, l, c) == Some(View()) && Inv(View())
      ensures queues == old(queues) && pc == old(pc)[sched.running := if s == Got then At(Held, l, c) else if c.Ring? then Wait(l, c.kind) else Run]
      ensures l in locks && locks == old(locks)[l := locks[l]]
      ensures s == Got ==> locks[l] == old(locks[l]).(holder := Some(sched.running)) && depth == old(depth)
      ensures s != Got ==> locks[l] == old(locks[l]).(repeat := old(locks[l].repeat) + 1) &&
                           depth == old(depth)[(sched.running, l) := locks[l].repeat]
    {
      hide Inv;
      LockStepKeeps(View(), s, l, c);
      StageSays(View(), s, l, c);
      var t := sched.running;
      if s == Got {
        locks := locks[l := locks[l].(holder := Some(t))];
        pc := pc[t := At(Held, l, c)];
      } else if s == Held {
        assert locks[l].repeat == 0;
        locks := locks[l := locks[l].(repeat := 1)];
        depth := depth[(t, l) := 1];
        pc := pc[t := AfterAcquire(l, c)];
      } else {
        locks := locks[l := locks[l].(repeat := locks[l].repeat + 1)];
        depth := depth[(t, l) := DepthIn(depth, t, l) + 1];
        pc := pc[t := AfterAcquire(l, c)];
      }
    }

    /** The assertions and the branch with which lock_release begins. */
    method BeginRelease(l: nat, c: Cont)
      requires Inv(View()) && l in locks && sched.running in pc && (c.Ring? <==> l in queues)
      requires if c.Ring? then pc[sched.running] == Waiting(l, c.kind) else pc[sched.running] == Run && DepthIn(depth, sched.running, l) > 0
      modifies this
      ensures ReleaseTest(old(View()), l, c) == Some(View()) && Inv(View())
      ensures locks == old(locks) && queues == old(queues) && depth == old(depth) && l in locks && locks[l].holder == Some(sched.running)
      ensures locks[l].repeat == DepthIn(depth, sched.running, l) >= 1
      ensures pc == old(pc)[sched.running := At(if locks[l].repeat > 1 then ReleaseMany else Release, l, c)]
    {
      hide Inv;
      ReleaseTestKeeps(View(), l, c);
      ReleaserHolds(View(), l, c);
      var t := sched.running;
      assert locks[l].holder == Some(t);
      if locks[l].repeat > 1 {
        pc := pc[t := At(ReleaseMany, l, c)];
        return;
      }
      assert locks[l].repeat == 1;
      pc := pc[t := At(Release, l, c)];
    }

    /** Counting down, or clearing the holder and then the count. */
    method GiveLock(l: nat, c: Cont, s: Stage)
      requires Inv(View()) && l in locks && sched.running in pc && pc[sched.running] == At(s, l, c)
      requires s == ReleaseMany || s == Release || s == Cleared
      modifies this
      ensures LockStep(old(View()), s, l, c) == Some(View()) && Inv(View())
      ensures queues == old(queues) && l in locks && locks == old(locks)[l := locks[l]]
      ensures s == ReleaseMany ==>
                && locks[l] == old(locks[l]).(repeat := locks[l].repeat) && old(locks[l].repeat) == locks[l].repeat + 1 > 1
                && pc == old(pc)[sched.running := if c.Ring? then Test(l, c.kind) else Run]
                && depth == old(depth)[(sched.running, l) := locks[l].repeat]
      ensures s == Release ==>
                && locks[l] == old(locks[l]).(holder := Option.None) && pc == old(pc)[sched.running := At(Cleared, l, c)]
                && depth == old(depth)[(sched.running, l) := 0]
      ensures s == Cleared ==>
                && locks[l] == old(locks[l]).(repeat := 0) && pc == old(pc)[sched.running := At(Up, l, c)] && depth == old(depth)
    {
      hide Inv;
      LockStepKeeps(View(), s, l, c);
      StageSays(View(), s, l, c);
      var t := sched.running;
      if s == ReleaseMany {
        locks := locks[l := locks[l].(repeat := locks[l].repeat - 1)];
        depth := depth[(t, l) := DepthIn(depth, t, l) - 1];
        pc := pc[t := AfterRelease(l, c)];
      } else if s == Release {
        locks := locks[l := locks[l].(holder := Option.None)];
        depth := depth[(t, l) := 0];
        pc := pc[t := At(Cleared, l, c)];
      } else {
        locks := locks[l := locks[l].(repeat := 0)];
        pc := pc[t := At(Up, l, c)];
      }
    }

    /** The loop test of ioq_getchar or ioq_putchar; if it succeeds the byte is moved and the
        thread waiting on the other side is woken. */
    method IoqTest(q: nat, k: Kind)
      requires Inv(View()) && q in queues && q in locks && sched.running in pc && pc[sched.running] == Test(q, k)
      modifies this, sched
      ensures RingTest(old(View()), q, k) == Some(View()) && Inv(View())
      ensures locks == old(locks) && depth == old(depth)
      ensures var t, x := old(sched.running), old(queues[q]);
              if x.len == (if k == Consumer then 0 else 2047) then
                && queues == old(queues) && sched.View() == old(sched.View())
                && pc == old(pc)[t := if DepthIn(depth, t, q) > 0 then At(Again, q, Ring(k)) else At(Acquire, q, Ring(k))]
              else
                && pc == old(pc)[t := Run]
                && queues == old(queues)[q := if k == Consumer then Queue(Option.None, x.consumer, x.len - 1)
                                              else Queue(x.producer, Option.None, x.len + 1)]
                && var w := if k == Consumer then x.producer else x.consumer;
                   if w == Option.None then sched.View() == old(sched.View())
                   else w.value in old(sched.status) &&
                        sched.View() == Core(t, [w.value] + old(sched.threadReadyList), old(sched.status)[w.value := READY])
    {
      hide Inv;
      TransferMoves(View(), q, k);
      RingTestKeeps(View(), q, k);
      var t, x := sched.running, queues[q];
      if (k == Consumer && x.len == 0) || (k == Producer && x.len == IoQueues.BUFSIZE - 1) {
        pc := pc[t := if locks[q].holder == Some(t) then At(Again, q, Ring(k)) else At(Acquire, q, Ring(k))];
        return;
      }
      queues := queues[q := x.(len := if k == Consumer then x.len - 1 else x.len + 1)];
      var waiter := Slot(x, Other(k));
      if waiter != Option.None {
        sched.ThreadUnblock(waiter.value);
        queues := queues[q := SetSlot(queues[q], Other(k), Option.None)];
      }
      assert queues == old(queues)[q := queues[q]];
      pc := pc[t := Run];
    }

    /** The keyboard's interrupt handler, up to the queue: a full queue drops the character. */
    method KeyboardPut(q: nat)
      requires Inv(View()) && q in queues
      modifies this, sched
      ensures KeyPut(old(View()), q) == Some(View()) && Inv(View())
      ensures var x := old(queues[q]);
              if x.len == 2047 then View() == old(View())
              else
                && pc == old(pc) && locks == old(locks) && depth == old(depth)
                && queues == old(queues)[q := Queue(x.producer, Option.None, x.len + 1)]
                && if x.consumer == Option.None then sched.View() == old(sched.View())
                   else x.consumer.value in old(sched.status) &&
                        sched.View() == Core(old(sched.running), [x.consumer.value] + old(sched.threadReadyList),
                                             old(sched.status)[x.consumer.value := READY])
    {
      hide Inv;
      KeyMoves(View(), q);
      KeyPutKeeps(View(), q);
      var x := queues[q];
      if x.len != IoQueues.BUFSIZE - 1 {
        queues := queues[q := x.(len := x.len + 1)];
        if x.consumer != Option.None {
          sched.ThreadUnblock(x.consumer.value);
          queues := queues[q := queues[q].(consumer := Option.None)];
        }
        assert queues == old(queues)[q := queues[q]];
      }
    }

    /** ioq_wait: the slot is free, the thread puts itself there and parks. */
    method WaitAtQueue(q: nat, k: Kind)
      requires Inv(View()) && q in queues && sched.running in pc && pc[sched.running] == Wait(q, k)
      modifies this, sched
      ensures IoqWait(old(View()), q, k) == Some(View()) && Inv(View())
      ensures locks == old(locks) && depth == old(depth)
      ensures var t, x := old(sched.running), old(queues[q]);
              && (if k == Consumer then x.consumer else x.producer) == Option.None && pc == old(pc)[t := Waiting(q, k)]
              && queues == old(queues)[q := if k == Consumer then Queue(x.producer, Some(t), x.len) else Queue(Some(t), x.consumer, x.len)]
              && t in sched.status && sched.status[t] == BLOCKED && sched.running != t
    {
      hide Inv, Block, CoreOk, Switching;
      WaitParks(View(), q, k);
      IoqWaitKeeps(View(), q, k);
      SlotEmptyForWait(View(), q, k);
      InvCore(View());
      var t := sched.running;
      assert Slot(queues[q], k) == Option.None;
      queues := queues[q := SetSlot(queues[q], k, Some(t))];
      pc := pc[t := Waiting(q, k)];
      sched.ThreadBlock(BLOCKED);
    }
  }
}
