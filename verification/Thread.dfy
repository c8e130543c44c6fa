/** The scheduler: the ready queue, thread states and the idle thread (thread/thread.c). */
module Threads {
  import opened Util

  datatype Status = RUNNING | READY | BLOCKED | WAITING | HANGING | DIED

  const IDLE := 0  // the idle thread's identity

  /** The running thread, the ready queue, and what state each thread is in. */
  datatype Core = Core(cur: nat, ready: seq<nat>, status: map<nat, Status>)

  predicate Parked(s: Status) {
    s == BLOCKED || s == WAITING || s == HANGING
  }

  /** In the middle of a switch: the current thread may have just parked itself or joined the
      queue; nobody else is running, and the queue holds exactly the ready threads. */
  ghost predicate Switching(c: Core) {
    && c.cur in c.status && IDLE in c.status && (Parked(c.status[IDLE]) ==> c.status[IDLE] == BLOCKED)
    && c.status[IDLE] != DIED && Distinct(c.ready)
    && (forall t :: t in c.ready <==> t in c.status && c.status[t] == READY)
    && forall t :: t in c.status && c.status[t] == RUNNING ==> t == c.cur
  }

  /** Between two steps exactly one thread runs. */
  ghost predicate CoreOk(c: Core) {
    Switching(c) && c.status[c.cur] == RUNNING
  }

  // ----- the operations; None stands for a failed assertion

  function Unblock(c: Core, t: nat): Option<Core> {
    if t !in c.status || !Parked(c.status[t]) || t in c.ready then None
    else Some(Core(c.cur, [t] + c.ready, c.status[t := READY]))
  }

  function Requeue(c: Core): Option<Core> {
    if c.cur !in c.status || c.status[c.cur] != RUNNING then Some(c)
    else if c.cur in c.ready then None
    else Some(Core(c.cur, c.ready + [c.cur], c.status[c.cur := READY]))
  }

  function Rescue(c: Core): Option<Core> {
    if c.ready == [] then Unblock(c, IDLE) else Some(c)
  }

  function PopNext(c: Core): Option<Core> {
    if c.ready == [] then None else Some(Core(c.ready[0], c.ready[1..], c.status[c.ready[0] := RUNNING]))
  }

  function Schedule(c: Core): Option<Core> {
    match Requeue(c)
    case None => None
    case Some(c1) =>
      match Rescue(c1)
      case None => None
      case Some(c2) => PopNext(c2)
  }

  function Block(c: Core, s: Status): Option<Core> {
    if !Parked(s) then None else Schedule(c.(status := c.status[c.cur := s]))
  }

  function Yield(c: Core): Option<Core> {
    if c.cur in c.ready then None
    else Schedule(Core(c.cur, c.ready + [c.cur], c.status[c.cur := READY]))
  }

  function Start(c: Core, t: nat): Option<Core> {
    if t in c.ready then None else Some(Core(c.cur, c.ready + [t], c.status[t := READY]))
  }

  /** thread_exit of a thread that is not running: it leaves the ready queue, if it is there, and
      the list of all threads. */
  function Exit(c: Core, t: nat): Core {
    Core(c.cur, Without(c.ready, t), c.status - {t})
  }

  function Without(s: seq<nat>, t: nat): seq<nat> {
    if s == [] then [] else if s[0] == t then s[1..] else [s[0]] + Without(s[1..], t)
  }

  // ----- what they keep

  /** No thread but the idle one is parked or woken by a switch. */
  ghost predicate SameParked(a: map<nat, Status>, b: map<nat, Status>) {
    a.Keys == b.Keys && forall t :: t in a && t != IDLE ==> if a[t] == RUNNING || a[t] == READY then b[t] == RUNNING || b[t] == READY
                                                            else b[t] == a[t]
  }

  lemma RequeueKeeps(c: Core)
    requires Switching(c)
    ensures Requeue(c).Some? && Switching(Requeue(c).value) && SameParked(c.status, Requeue(c).value.status)
    ensures Requeue(c).value.status[c.cur] != RUNNING && Requeue(c).value.cur == c.cur
  {
  }

  lemma RescueKeeps(c: Core)
    requires Switching(c) && c.status[c.cur] != RUNNING
    ensures Rescue(c).Some? && Switching(Rescue(c).value) && SameParked(c.status, Rescue(c).value.status)
    ensures Rescue(c).value.ready != [] && Rescue(c).value.status[c.cur] != RUNNING && Rescue(c).value.cur == c.cur
  {
    if c.ready == [] {
      assert IDLE !in c.ready;
    }
  }

  lemma PopKeeps(c: Core)
    requires Switching(c) && c.ready != [] && c.status[c.cur] != RUNNING
    ensures PopNext(c).Some? && CoreOk(PopNext(c).value) && SameParked(c.status, PopNext(c).value.status)
  {
    var t := c.ready[0];
    assert t in c.ready;
    forall x ensures x in c.ready[1..] <==> x in c.ready && x != t {
      if x in c.ready && x != t {
        var i :| 0 <= i < |c.ready| && c.ready[i] == x;
        assert c.ready[1..][i - 1] == x;
      }
    }
  }

  /** schedule never pops an empty queue and none of its assertions fails; one thread runs after it. */
  lemma ScheduleKeeps(c: Core)
    requires Switching(c)
    ensures Schedule(c).Some? && CoreOk(Schedule(c).value) && SameParked(c.status, Schedule(c).value.status)
  {
    hide Switching, CoreOk, Requeue, Rescue, PopNext, SameParked;
    RequeueKeeps(c);
    var c1 := Requeue(c).value;
    RescueKeeps(c1);
    var c2 := Rescue(c1).value;
    PopKeeps(c2);
    SameTrans(c.status, c1.status, c2.status);
    SameTrans(c.status, c2.status, PopNext(c2).value.status);
  }

  lemma SameTrans(a: map<nat, Status>, b: map<nat, Status>, c: map<nat, Status>)
    requires SameParked(a, b) && SameParked(b, c)
    ensures SameParked(a, c)
  {
  }

  lemma BlockKeeps(c: Core, s: Status)
    requires CoreOk(c) && Parked(s) && (c.cur == IDLE ==> s == BLOCKED)
    ensures Block(c, s).Some? && CoreOk(Block(c, s).value) && SameParked(c.status[c.cur := s], Block(c, s).value.status)
  {
    hide Schedule, SameParked;
    ScheduleKeeps(c.(status := c.status[c.cur := s]));
  }

  lemma YieldKeeps(c: Core)
    requires CoreOk(c)
    ensures Yield(c).Some? && CoreOk(Yield(c).value) && SameParked(c.status, Yield(c).value.status)
  {
    hide Schedule;
    var c1 := Core(c.cur, c.ready + [c.cur], c.status[c.cur := READY]);
    ScheduleKeeps(c1);
    SameTrans(c.status, c1.status, Schedule(c1).value.status);
  }

  lemma UnblockKeeps(c: Core, t: nat)
    requires CoreOk(c) && t in c.status && Parked(c.status[t])
    ensures Unblock(c, t).Some? && CoreOk(Unblock(c, t).value) && Unblock(c, t).value.status == c.status[t := READY]
    ensures Unblock(c, t).value.cur == c.cur
  {
  }

  lemma StartKeeps(c: Core, t: nat)
    requires CoreOk(c) && t !in c.status
    ensures Start(c, t).Some? && CoreOk(Start(c, t).value) && Start(c, t).value.cur == c.cur
  {
  }

  lemma {:induction false} WithoutIs(s: seq<nat>, t: nat)
    requires Distinct(s)
    ensures Distinct(Without(s, t)) && forall x :: x in Without(s, t) <==> x in s && x != t
  {
    if s != [] {
      assert s == [s[0]] + s[1..];
      if s[0] != t {
        WithoutIs(s[1..], t);
        var r := Without(s[1..], t);
        assert s[0] !in r;
      }
    }
  }

  lemma ExitKeeps(c: Core, t: nat)
    requires CoreOk(c) && t in c.status && t != c.cur && t != IDLE
    ensures CoreOk(Exit(c, t)) && Exit(c, t).cur == c.cur && Exit(c, t).status == c.status - {t}
  {
    hide Without;
    WithoutIs(c.ready, t);
  }

  // ----- who runs next

  /** A tick, or a yield: the thread in front of the queue runs, and the one that ran goes to its
      end. With an empty queue nothing changes. */
  lemma TickTurns(c: Core)
    requires CoreOk(c)
    ensures c.ready == [] ==> Schedule(c) == Some(c)
    ensures c.ready != [] ==>
              Schedule(c) == Some(Core(c.ready[0], c.ready[1..] + [c.cur], c.status[c.cur := READY][c.ready[0] := RUNNING]))
    ensures Yield(c) == Schedule(c)
  {
    if c.ready == [] {
      assert c.status[c.cur := READY][c.cur := RUNNING] == c.status;
    } else {
      assert (c.ready + [c.cur])[1..] == c.ready[1..] + [c.cur];
    }
  }

  /** A thread that parks itself leaves the processor to the front of the queue, or to the idle
      thread if nobody is ready. */
  lemma ParkTurns(c: Core, s: Status)
    requires CoreOk(c) && Parked(s) && (c.cur == IDLE ==> s == BLOCKED)
    ensures c.ready != [] ==> Block(c, s) == Some(Core(c.ready[0], c.ready[1..], c.status[c.cur := s][c.ready[0] := RUNNING]))
    ensures c.ready == [] ==> Block(c, s) == Some(Core(IDLE, [], c.status[c.cur := s][IDLE := RUNNING]))
  {
    if c.ready == [] {
      assert c.cur == IDLE || Parked(c.status[IDLE]) by { assert IDLE !in c.ready; }
      assert c.status[c.cur := s][IDLE := READY][IDLE := RUNNING] == c.status[c.cur := s][IDLE := RUNNING];
    }
  }

  /** `k` ticks with nothing between them. */
  function Ticks(c: Core, k: nat): Option<Core> {
    if k == 0 then Some(c)
    else match Ticks(c, k - 1) case None => None case Some(d) => Schedule(d)
  }

  /** After `k` ticks the k-th thread of the queue runs, in front of the rest and behind it the
      ones that have had their turn. */
  lemma {:induction false} EveryoneHasATurn(c: Core, k: nat)
    requires CoreOk(c) && 1 <= k <= |c.ready|
    ensures Ticks(c, k).Some? && CoreOk(Ticks(c, k).value)
    ensures Ticks(c, k).value.cur == c.ready[k - 1] && Ticks(c, k).value.ready == c.ready[k..] + [c.cur] + c.ready[..k - 1]
  {
    hide Schedule, CoreOk;
    if k > 1 { EveryoneHasATurn(c, k - 1); }
    var d := Ticks(c, k - 1).value;
    TickTurns(d);
    TickKeeps(d);
    if k > 1 {
      assert d.ready == c.ready[k - 1..] + ([c.cur] + c.ready[..k - 2]);
      assert d.ready[0] == c.ready[k - 1] && d.ready[1..] == c.ready[k..] + ([c.cur] + c.ready[..k - 2]);
      assert c.ready[..k - 2] + [c.ready[k - 2]] == c.ready[..k - 1];
    }
  }

  lemma TickKeeps(c: Core)
    requires CoreOk(c)
    ensures Schedule(c).Some? && CoreOk(Schedule(c).value)
  {
    ScheduleKeeps(c);
  }

  /** Once everyone has had a turn, the first one runs again and the queue is as it was. */
  lemma FullRound(c: Core)
    requires CoreOk(c)
    ensures Ticks(c, |c.ready| + 1).Some?
    ensures Ticks(c, |c.ready| + 1).value.cur == c.cur && Ticks(c, |c.ready| + 1).value.ready == c.ready
  {
    hide Schedule, CoreOk;
    var n := |c.ready|;
    if n > 0 {
      EveryoneHasATurn(c, n);
      TickTurns(Ticks(c, n).value);
      var d := Ticks(c, n).value;
      assert d.ready == [c.cur] + c.ready[..n - 1] && c.ready[..n - 1] + [c.ready[n - 1]] == c.ready;
    } else {
      TickTurns(c);
      assert Ticks(c, 1) == Schedule(c);
    }
  }

  /** Where a woken thread and a new one join the queue, and how one leaves it. */
  lemma QueueEnds(c: Core, t: nat)
    requires CoreOk(c)
    ensures t in c.status && Parked(c.status[t]) ==> Unblock(c, t) == Some(Core(c.cur, [t] + c.ready, c.status[t := READY]))
    ensures t !in c.status ==> Start(c, t) == Some(Core(c.cur, c.ready + [t], c.status[t := READY]))
  {
  }

  lemma {:induction false} WithoutAt(s: seq<nat>, i: nat)
    requires Distinct(s) && i < |s|
    ensures Without(s, s[i]) == s[..i] + s[i + 1..]
  {
    if i > 0 {
      WithoutAt(s[1..], i - 1);
      assert s[..i] + s[i + 1..] == [s[0]] + (s[1..][..i - 1] + s[1..][i..]);
    }
  }

  // ----- the same operations on the kernel's variables

  lemma {:induction false} NothingToTake(s: seq<nat>, t: nat)
    requires t !in s
    ensures Without(s, t) == s
  {
    if s != [] { NothingToTake(s[1..], t); }
  }

  /** What a switch makes of any state in the middle of one. */
  lemma SwitchTurns(c: Core)
    requires Switching(c)
    ensures Schedule(c).Some? && CoreOk(Schedule(c).value)
    ensures var d := Schedule(c).value;
            if c.status[c.cur] == RUNNING then
              d == if c.ready == [] then c
                   else Core(c.ready[0], c.ready[1..] + [c.cur], c.status[c.cur := READY][c.ready[0] := RUNNING])
            else d == if c.ready == [] then Core(IDLE, [], c.status[IDLE := RUNNING])
                      else Core(c.ready[0], c.ready[1..], c.status[c.ready[0] := RUNNING])
  {
    ScheduleKeeps(c);
    if c.status[c.cur] == RUNNING {
      TickTurns(c);
    } else {
      RescueKeeps(c);
      assert c.status[IDLE := READY][IDLE := RUNNING] == c.status[IDLE := RUNNING];
    }
  }

  class Scheduler {
    var running: nat
    var threadReadyList: seq<nat>
    var status: map<nat, Status>

    ghost function View(): Core
      reads this
    {
      Core(running, threadReadyList, status)
    }

    /** thread_unblock: to the front of the queue. */
    method ThreadUnblock(t: nat)
      requires t in status && Parked(status[t]) && t !in threadReadyList
      modifies this
      ensures Unblock(old(View()), t) == Some(View())
      ensures running == old(running) && threadReadyList == [t] + old(threadReadyList) && status == old(status)[t := READY]
    {
      if status[t] != READY {
        threadReadyList := [t] + threadReadyList;
        status := status[t := READY];
      }
    }

    /** schedule, up to the switch of stacks. */
    method DoSchedule()
      requires Switching(View())
      modifies this
      ensures Schedule(old(View())) == Some(View()) && CoreOk(View())
      ensures old(status[running] == RUNNING && threadReadyList == []) ==> View() == old(View())
      ensures old(status[running] == RUNNING && threadReadyList != []) ==>
                && running == old(threadReadyList[0]) && threadReadyList == old(threadReadyList[1..] + [running])
                && status == old(status[running := READY][threadReadyList[0] := RUNNING])
      ensures old(status[running] != RUNNING && threadReadyList != []) ==>
                && running == old(threadReadyList[0]) && threadReadyList == old(threadReadyList[1..])
                && status == old(status[threadReadyList[0] := RUNNING])
      ensures old(status[running] != RUNNING && threadReadyList == []) ==>
                running == IDLE && threadReadyList == [] && status == old(status[IDLE := RUNNING])
    {
      ghost var c := View();
      SwitchTurns(c);
      RequeueKeeps(c);
      RescueKeeps(Requeue(c).value);
      if status[running] == RUNNING {
        assert running !in threadReadyList;
        threadReadyList := threadReadyList + [running];
        status := status[running := READY];
      }
      if threadReadyList == [] {
        ThreadUnblock(IDLE);
      }
      var next := threadReadyList[0];
      threadReadyList := threadReadyList[1..];
      status := status[next := RUNNING];
      running := next;
    }

    method ThreadBlock(stat: Status)
      requires CoreOk(View()) && Parked(stat) && (running == IDLE ==> stat == BLOCKED)
      modifies this
      ensures Block(old(View()), stat) == Some(View()) && CoreOk(View())
      ensures old(threadReadyList != []) ==>
                && running == old(threadReadyList[0]) && threadReadyList == old(threadReadyList[1..])
                && status == old(status[running := stat][threadReadyList[0] := RUNNING])
      ensures old(threadReadyList == []) ==>
                running == IDLE && threadReadyList == [] && status == old(status[running := stat][IDLE := RUNNING])
    {
      status := status[running := stat];
      DoSchedule();
    }

    method ThreadYield()
      requires CoreOk(View())
      modifies this
      ensures Yield(old(View())) == Some(View()) && CoreOk(View())
      ensures old(threadReadyList == []) ==> View() == old(View())
      ensures old(threadReadyList != []) ==>
                && running == old(threadReadyList[0]) && threadReadyList == old(threadReadyList[1..] + [running])
                && status == old(status[running := READY][threadReadyList[0] := RUNNING])
    {
      TickTurns(View());
      assert running !in threadReadyList;
      threadReadyList := threadReadyList + [running];
      status := status[running := READY];
      DoSchedule();
    }

    /** thread_exit of another thread. */
    method ThreadExit(t: nat)
      requires CoreOk(View()) && t in status && t != running && t != IDLE
      modifies this
      ensures View() == Exit(old(View()), t) && CoreOk(View())
      ensures running == old(running) && status == old(status) - {t}
      ensures t !in old(threadReadyList) ==> threadReadyList == old(threadReadyList)
      ensures forall i :: 0 <= i < |old(threadReadyList)| && old(threadReadyList)[i] == t ==>
                threadReadyList == old(threadReadyList)[..i] + old(threadReadyList)[i + 1..]
    {
      hide Without;
      ExitKeeps(View(), t);
      if t in threadReadyList {
        forall i | 0 <= i < |threadReadyList| && threadReadyList[i] == t
          ensures Without(threadReadyList, t) == threadReadyList[..i] + threadReadyList[i + 1..]
        {
          WithoutAt(threadReadyList, i);
        }
        threadReadyList := Without(threadReadyList, t);
      } else {
        NothingToTake(threadReadyList, t);
      }
      status := status - {t};
    }

    /** thread_start: a new thread joins the end of the queue. */
    method ThreadStart(t: nat)
      requires CoreOk(View()) && t !in status
      modifies this
      ensures Start(old(View()), t) == Some(View()) && CoreOk(View())
      ensures running == old(running) && threadReadyList == old(threadReadyList) + [t] && status == old(status)[t := READY]
    {
      StartKeeps(View(), t);
      assert t !in threadReadyList;
      threadReadyList := threadReadyList + [t];
      status := status[t := READY];
    }
  }
}
