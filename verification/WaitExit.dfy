/** The life of processes: fork, exit in two steps, and wait (userprog/wait_exit.c, and the list of
    all threads in thread/thread.c).

    A system call runs with interrupts off. sys_exit can still be left in the middle, while files
    are closed: adopting the children is one step, waking the parent and hanging another. */
module WaitExit {
  import opened Util

  const INIT_PID := 1
  const NO_PARENT := -1

  /** Woken: made ready inside sys_wait, about to look at its children again. Leaving: in sys_exit,
      children handed on, parent not yet told. */
  datatype Phase = Live | Waiting | Woken | Leaving | Hanging

  /** `uid` tells processes apart that get the same pid one after the other. */
  datatype Proc = Proc(pid: int, parent: int, phase: Phase, exitStatus: int, uid: nat)

  datatype Reap = Reap(uid: nat, pid: int, status: int)

  /** thread_all_list in order, and what happened: who called exit with what, who was reaped, and who
      was left behind when its parent exited. */
  datatype Table = Table(procs: seq<Proc>, next: nat, exits: map<nat, int>, reaped: seq<Reap>, left: set<nat>)

  // ----- the list traversals

  datatype Query = ChildOf(p: int) | HangingChildOf(p: int) | HasPid(p: int)

  predicate Meets(x: Proc, q: Query) {
    match q
    case ChildOf(p) => x.parent == p
    case HangingChildOf(p) => x.parent == p && x.phase == Hanging
    case HasPid(p) => x.pid == p
  }

  /** list_traversal: the first element the callback accepts, or -1. */
  function Find(procs: seq<Proc>, q: Query): (k: int)
    ensures -1 <= k < |procs|
    ensures k == -1 ==> forall i :: 0 <= i < |procs| ==> !Meets(procs[i], q)
    ensures k != -1 ==> Meets(procs[k], q) && forall i :: 0 <= i < k ==> !Meets(procs[i], q)
  {
    if procs == [] then -1
    else if Meets(procs[0], q) then 0
    else var k := Find(procs[1..], q); if k == -1 then -1 else k + 1
  }

  // ----- the steps

  datatype Step = Fork(i: nat, pid: int) | Wait(i: nat) | Exit(i: nat, status: int) | Leave(i: nat)

  predicate Enabled(t: Table, s: Step) {
    s.i < |t.procs| &&
    match s
    case Fork(i, pid) => t.procs[i].phase == Live && pid > 0 && Find(t.procs, HasPid(pid)) == -1
    case Wait(i) => t.procs[i].phase == Live || t.procs[i].phase == Woken
    case Exit(i, _) => t.procs[i].phase == Live && t.procs[i].parent != NO_PARENT
    case Leave(i) => t.procs[i].phase == Leaving
  }

  function WithPhase(procs: seq<Proc>, i: nat, ph: Phase): seq<Proc>
    requires i < |procs|
  {
    procs[i := procs[i].(phase := ph)]
  }

  /** One turn of the loop of sys_wait: reap the first hanging child, or wait if there is a child.
      The answer is the child's pid and status, or -1. */
  function DoWait(t: Table, i: nat): Table
    requires i < |t.procs|
  {
    var me := t.procs[i];
    var k := Find(t.procs, HangingChildOf(me.pid));
    if k != -1 then
      var c := t.procs[k];
      var procs := WithPhase(t.procs, i, Live);
      t.(procs := procs[..k] + procs[k + 1..], reaped := t.reaped + [Reap(c.uid, c.pid, c.exitStatus)])
    else if Find(t.procs, ChildOf(me.pid)) == -1 then t.(procs := WithPhase(t.procs, i, Live))
    else t.(procs := WithPhase(t.procs, i, Waiting))
  }

  /** The children that keep a parent which is leaving: all but the first, which init adopts. */
  function LeftBehind(procs: seq<Proc>, pid: int): set<nat> {
    var k := Find(procs, ChildOf(pid));
    set j: nat | j < |procs| && procs[j].parent == pid && j != k :: procs[j].uid
  }

  /** The first step of sys_exit. The traversal stops at the first child it finds. */
  function DoExit(t: Table, i: nat, status: int): Table
    requires i < |t.procs|
  {
    var me := t.procs[i];
    var procs := t.procs[i := me.(exitStatus := status, phase := Leaving)];
    var k := Find(procs, ChildOf(me.pid));
    var adopted := if k == -1 then procs else procs[k := procs[k].(parent := INIT_PID)];
    t.(procs := adopted, exits := t.exits[me.uid := status], left := t.left + LeftBehind(t.procs, me.pid))
  }

  /** The second step of sys_exit. None: pid2thread found no parent, and its null is dereferenced. */
  function DoLeave(t: Table, i: nat): Option<Table>
    requires i < |t.procs|
  {
    var k := Find(t.procs, HasPid(t.procs[i].parent));
    if k == -1 then None
    else
      var procs := if t.procs[k].phase == Waiting then WithPhase(t.procs, k, Woken) else t.procs;
      Some(t.(procs := WithPhase(procs, i, Hanging)))
  }

  function Next(t: Table, s: Step): Option<Table>
    requires Enabled(t, s)
  {
    match s
    case Fork(i, pid) => Some(t.(procs := t.procs + [Proc(pid, t.procs[i].pid, Live, 0, t.next)], next := t.next + 1))
    case Wait(i) => Some(DoWait(t, i))
    case Exit(i, status) => Some(DoExit(t, i, status))
    case Leave(i) => DoLeave(t, i)
  }

  // ----- the invariant

  predicate Gone(ph: Phase) {
    ph == Leaving || ph == Hanging
  }

  ghost predicate Present(procs: seq<Proc>, pid: int) {
    exists i :: 0 <= i < |procs| && procs[i].pid == pid
  }

  /** Who names `pid` as its parent has been left behind by an exit. */
  ghost predicate OnlyLeft(procs: seq<Proc>, left: set<nat>, pid: int) {
    forall i :: 0 <= i < |procs| && procs[i].parent == pid ==> procs[i].uid in left
  }

  ghost predicate NoChild(procs: seq<Proc>, pid: int) {
    forall i :: 0 <= i < |procs| ==> procs[i].parent != pid
  }

  ghost predicate Identities(procs: seq<Proc>, next: nat) {
    && (forall i, j :: 0 <= i < j < |procs| ==> procs[i].pid != procs[j].pid && procs[i].uid != procs[j].uid)
    && (forall i :: 0 <= i < |procs| ==> procs[i].uid < next && procs[i].pid > 0)
  }

  /** Init has no parent. Whoever has a parent has one that exists, and a process that is leaving has
      a parent and no children, but for those left behind. */
  ghost predicate KinOk(procs: seq<Proc>, left: set<nat>, x: Proc) {
    && (x.pid == INIT_PID ==> x.parent == NO_PARENT) && x.parent != x.pid
    && (x.parent != NO_PARENT ==> Present(procs, x.parent) || x.uid in left)
    && (Gone(x.phase) ==> x.parent != NO_PARENT && OnlyLeft(procs, left, x.pid))
  }

  ghost predicate Family(procs: seq<Proc>, left: set<nat>) {
    Present(procs, INIT_PID) && forall i :: 0 <= i < |procs| ==> KinOk(procs, left, procs[i])
  }

  ghost predicate NoHangingChild(procs: seq<Proc>, pid: int) {
    forall j :: 0 <= j < |procs| ==> !(procs[j].parent == pid && procs[j].phase == Hanging)
  }

  /** No parent but init waits while a child of it hangs. */
  ghost predicate NoLostWakeup(procs: seq<Proc>) {
    forall i :: 0 <= i < |procs| && procs[i].phase == Waiting && procs[i].pid != INIT_PID ==> NoHangingChild(procs, procs[i].pid)
  }

  /** Who has called exit, and with what, is on record. */
  ghost predicate Recorded(x: Proc, exits: map<nat, int>) {
    (Gone(x.phase) <==> x.uid in exits) && (Gone(x.phase) ==> exits[x.uid] == x.exitStatus)
  }

  ghost predicate Collected(x: Reap, exits: map<nat, int>) {
    x.uid in exits && exits[x.uid] == x.status
  }

  /** Every exit is either still to be collected or has been collected once, with its status. */
  ghost predicate History(t: Table) {
    && (forall i :: 0 <= i < |t.procs| ==> Recorded(t.procs[i], t.exits))
    && (forall r :: 0 <= r < |t.reaped| ==> Collected(t.reaped[r], t.exits))
    && (forall r, s :: 0 <= r < s < |t.reaped| ==> t.reaped[r].uid != t.reaped[s].uid)
    && (forall r, i :: 0 <= r < |t.reaped| && 0 <= i < |t.procs| ==> t.reaped[r].uid != t.procs[i].uid)
    && (forall u :: u in t.exits ==> u < t.next)
  }

  ghost predicate Inv(t: Table) {
    Identities(t.procs, t.next) && Family(t.procs, t.left) && NoLostWakeup(t.procs) && History(t)
  }

  /** At most one process names process `i` as its parent. */
  ghost predicate OneChild(t: Table, i: nat)
    requires i < |t.procs|
  {
    forall j, k :: 0 <= j < k < |t.procs| && t.procs[j].parent == t.procs[i].pid ==> t.procs[k].parent != t.procs[i].pid
  }

  // ----- each step keeps it

  lemma ForkKeeps(t: Table, i: nat, pid: int)
    requires Inv(t) && Enabled(t, Fork(i, pid))
    ensures Inv(Next(t, Fork(i, pid)).value)
  {
    hide History, Identities, KinOk, Present, NoHangingChild, Recorded, Collected;
    var t' := Next(t, Fork(i, pid)).value;
    var x := Proc(pid, t.procs[i].pid, Live, 0, t.next);
    PidFree(t.procs, pid);
    ForkIdentities(t.procs, t.next, x);
    PresentMore(t.procs, x);
    Named(t.procs, i);
    forall j | 0 <= j < |t'.procs| ensures KinOk(t'.procs, t.left, t'.procs[j]) {
      if j < |t.procs| { ForkKin(t, x, t.procs[j], i); } else { ForkedKin(t.procs, t.left, x, i); }
    }
    forall j | 0 <= j < |t'.procs| && t'.procs[j].phase == Waiting && t'.procs[j].pid != INIT_PID
      ensures NoHangingChild(t'.procs, t'.procs[j].pid)
    {
      ForkHanging(t.procs, x, t'.procs[j].pid);
    }
    ForkHistory(t, x);
  }

  lemma PidFree(procs: seq<Proc>, pid: int)
    requires Find(procs, HasPid(pid)) == -1
    ensures !Present(procs, pid) && forall j :: 0 <= j < |procs| ==> procs[j].pid != pid
  {
    forall j | 0 <= j < |procs| ensures procs[j].pid != pid { assert !Meets(procs[j], HasPid(pid)); }
  }

  lemma Named(procs: seq<Proc>, i: nat)
    requires i < |procs|
    ensures Present(procs, procs[i].pid)
  {
  }

  lemma ForkIdentities(procs: seq<Proc>, next: nat, x: Proc)
    requires Identities(procs, next) && x.uid == next && x.pid > 0 && forall j :: 0 <= j < |procs| ==> procs[j].pid != x.pid
    ensures Identities(procs + [x], next + 1)
  {
  }

  lemma PresentMore(procs: seq<Proc>, x: Proc)
    ensures forall pid :: Present(procs, pid) ==> Present(procs + [x], pid)
  {
    forall pid | Present(procs, pid) ensures Present(procs + [x], pid) {
      var j :| 0 <= j < |procs| && procs[j].pid == pid;
      assert (procs + [x])[j].pid == pid;
    }
  }

  /** The new process's parent is live, so no leaving process gains a child. */
  lemma ForkKin(t: Table, x: Proc, y: Proc, i: nat)
    requires i < |t.procs| && !Gone(t.procs[i].phase) && x.parent == t.procs[i].pid && y in t.procs
    requires Family(t.procs, t.left) && Identities(t.procs, t.next)
    ensures KinOk(t.procs + [x], t.left, y)
  {
    PresentMore(t.procs, x);
    var j :| 0 <= j < |t.procs| && t.procs[j] == y;
    assert KinOk(t.procs, t.left, t.procs[j]);
  }

  lemma ForkedKin(procs: seq<Proc>, left: set<nat>, x: Proc, i: nat)
    requires Family(procs, left) && i < |procs| && x.parent == procs[i].pid && x.phase == Live && !Present(procs, x.pid)
    ensures KinOk(procs + [x], left, x)
  {
    PresentMore(procs, x);
    Named(procs, i);
  }

  lemma ForkHanging(procs: seq<Proc>, x: Proc, pid: int)
    requires NoHangingChild(procs, pid) && x.phase == Live
    ensures NoHangingChild(procs + [x], pid)
  {
  }

  lemma ForkHistory(t: Table, x: Proc)
    requires History(t) && x.uid == t.next && x.phase == Live
    ensures History(t.(procs := t.procs + [x], next := t.next + 1))
  {
    var t' := t.(procs := t.procs + [x], next := t.next + 1);
    forall i | 0 <= i < |t'.procs| ensures Recorded(t'.procs[i], t.exits) {
      if i < |t.procs| { assert Recorded(t.procs[i], t.exits); }
    }
    forall r | 0 <= r < |t.reaped| ensures t.reaped[r].uid < t.next { assert Collected(t.reaped[r], t.exits); }
  }

  // ----- changes of phase

  /** Same processes, same parents. */
  ghost predicate SameKin(a: seq<Proc>, b: seq<Proc>) {
    |a| == |b| && forall i :: 0 <= i < |a| ==> b[i].pid == a[i].pid && b[i].parent == a[i].parent && b[i].uid == a[i].uid
  }

  lemma SameKinKeeps(a: seq<Proc>, b: seq<Proc>, left: set<nat>, pid: int)
    requires SameKin(a, b)
    ensures (Present(a, pid) ==> Present(b, pid)) && (OnlyLeft(a, left, pid) ==> OnlyLeft(b, left, pid))
  {
    if Present(a, pid) {
      var i :| 0 <= i < |a| && a[i].pid == pid;
      assert b[i].pid == pid;
    }
  }

  lemma SameIdentities(a: seq<Proc>, b: seq<Proc>, next: nat)
    requires SameKin(a, b) && Identities(a, next)
    ensures Identities(b, next)
  {
  }

  lemma SameFamily(a: seq<Proc>, b: seq<Proc>, left: set<nat>)
    requires SameKin(a, b) && Family(a, left) && forall i :: 0 <= i < |a| ==> (Gone(b[i].phase) ==> Gone(a[i].phase))
    ensures Family(b, left)
  {
    hide Present, OnlyLeft;
    forall i | 0 <= i < |b| ensures KinOk(b, left, b[i]) {
      assert KinOk(a, left, a[i]);
      SameKinKeeps(a, b, left, a[i].parent);
      SameKinKeeps(a, b, left, a[i].pid);
    }
    SameKinKeeps(a, b, left, INIT_PID);
  }

  lemma SameHistory(t: Table, b: seq<Proc>)
    requires History(t) && SameKin(t.procs, b)
    requires forall i :: 0 <= i < |b| ==> (Gone(b[i].phase) <==> Gone(t.procs[i].phase)) && b[i].exitStatus == t.procs[i].exitStatus
    ensures History(t.(procs := b))
  {
    hide Collected;
    forall i | 0 <= i < |b| ensures Recorded(b[i], t.exits) { assert Recorded(t.procs[i], t.exits); }
  }

  /** A process starts or stops waiting. It may start only while no child of it hangs. */
  lemma PhaseKeeps(t: Table, i: nat, ph: Phase)
    requires Inv(t) && i < |t.procs| && !Gone(ph) && !Gone(t.procs[i].phase)
    requires ph == Waiting ==> NoHangingChild(t.procs, t.procs[i].pid)
    ensures Inv(t.(procs := WithPhase(t.procs, i, ph)))
  {
    hide Identities, Family, History, NoHangingChild;
    var b := WithPhase(t.procs, i, ph);
    SameIdentities(t.procs, b, t.next);
    SameFamily(t.procs, b, t.left);
    SameHistory(t, b);
    forall j | 0 <= j < |b| && b[j].phase == Waiting && b[j].pid != INIT_PID ensures NoHangingChild(b, b[j].pid) {
      HangingSame(t.procs, i, ph, t.procs[j].pid);
    }
  }

  lemma HangingSame(procs: seq<Proc>, i: nat, ph: Phase, pid: int)
    requires i < |procs| && ph != Hanging && NoHangingChild(procs, pid)
    ensures NoHangingChild(WithPhase(procs, i, ph), pid)
  {
  }

  // ----- reaping

  function Without(procs: seq<Proc>, k: nat): seq<Proc>
    requires k < |procs|
  {
    procs[..k] + procs[k + 1..]
  }

  lemma WithoutIs(procs: seq<Proc>, k: nat)
    requires k < |procs|
    ensures |Without(procs, k)| == |procs| - 1
    ensures forall i :: 0 <= i < |procs| - 1 ==> Without(procs, k)[i] == procs[if i < k then i else i + 1]
  {
  }

  lemma RemovedIdentities(procs: seq<Proc>, next: nat, k: nat)
    requires Identities(procs, next) && k < |procs|
    ensures Identities(Without(procs, k), next)
  {
    WithoutIs(procs, k);
    hide Without;
    var b := Without(procs, k);
    forall i, j | 0 <= i < j < |b| ensures b[i].pid != b[j].pid && b[i].uid != b[j].uid {
      assert b[i] == procs[if i < k then i else i + 1] && b[j] == procs[if j < k then j else j + 1];
    }
  }

  lemma RemovedPresent(procs: seq<Proc>, k: nat, pid: int)
    requires k < |procs| && Present(procs, pid) && procs[k].pid != pid
    ensures Present(Without(procs, k), pid)
  {
    WithoutIs(procs, k);
    var i :| 0 <= i < |procs| && procs[i].pid == pid;
    assert Without(procs, k)[if i < k then i else i - 1].pid == pid;
  }

  lemma RemovedNoChild(procs: seq<Proc>, left: set<nat>, k: nat, pid: int)
    requires k < |procs|
    ensures OnlyLeft(procs, left, pid) ==> OnlyLeft(Without(procs, k), left, pid)
    ensures NoHangingChild(procs, pid) ==> NoHangingChild(Without(procs, k), pid)
  {
    WithoutIs(procs, k);
    hide Without;
  }

  /** A hanging process has no children but those left behind, so nobody else loses its parent. */
  lemma RemovedFamily(procs: seq<Proc>, left: set<nat>, k: nat)
    requires Family(procs, left) && k < |procs| && procs[k].phase == Hanging
    ensures Family(Without(procs, k), left)
  {
    WithoutIs(procs, k);
    hide Without, Present;
    assert KinOk(procs, left, procs[k]);
    var b := Without(procs, k);
    RemovedPresent(procs, k, INIT_PID);
    forall i | 0 <= i < |b| ensures KinOk(b, left, b[i]) {
      var j := if i < k then i else i + 1;
      assert b[i] == procs[j] && KinOk(procs, left, procs[j]);
      if b[i].parent != NO_PARENT && b[i].uid !in left { RemovedPresent(procs, k, b[i].parent); }
      RemovedNoChild(procs, left, k, b[i].pid);
    }
  }

  lemma RemovedHistory(t: Table, k: nat)
    requires History(t) && Identities(t.procs, t.next) && k < |t.procs| && t.procs[k].phase == Hanging
    ensures var c := t.procs[k];
            History(t.(procs := Without(t.procs, k), reaped := t.reaped + [Reap(c.uid, c.pid, c.exitStatus)]))
  {
    WithoutIs(t.procs, k);
    hide Without;
    var c := t.procs[k];
    var t' := t.(procs := Without(t.procs, k), reaped := t.reaped + [Reap(c.uid, c.pid, c.exitStatus)]);
    assert Recorded(c, t.exits);
    forall i | 0 <= i < |t'.procs| ensures Recorded(t'.procs[i], t.exits) && t'.procs[i].uid != c.uid {
      var j := if i < k then i else i + 1;
      assert t'.procs[i] == t.procs[j] && Recorded(t.procs[j], t.exits);
      if j < k { assert t.procs[j].uid != t.procs[k].uid; } else { assert t.procs[k].uid != t.procs[j].uid; }
    }
    forall r | 0 <= r < |t'.reaped| ensures Collected(t'.reaped[r], t.exits) {
      if r < |t.reaped| { assert Collected(t.reaped[r], t.exits); }
    }
    forall r, i | 0 <= r < |t'.reaped| && 0 <= i < |t'.procs| ensures t'.reaped[r].uid != t'.procs[i].uid {
      assert t'.procs[i] == t.procs[if i < k then i else i + 1];
    }
  }

  lemma RemovedWakeups(procs: seq<Proc>, k: nat)
    requires NoLostWakeup(procs) && k < |procs|
    ensures NoLostWakeup(Without(procs, k))
  {
    WithoutIs(procs, k);
    hide Without, NoHangingChild;
    var b := Without(procs, k);
    forall i | 0 <= i < |b| && b[i].phase == Waiting && b[i].pid != INIT_PID ensures NoHangingChild(b, b[i].pid) {
      assert b[i] == procs[if i < k then i else i + 1];
      RemovedNoChild(procs, {}, k, b[i].pid);
    }
  }

  lemma ReapKeeps(t: Table, k: nat)
    requires Inv(t) && k < |t.procs| && t.procs[k].phase == Hanging
    ensures var c := t.procs[k];
            Inv(t.(procs := Without(t.procs, k), reaped := t.reaped + [Reap(c.uid, c.pid, c.exitStatus)]))
  {
    hide Without, Identities, Family, NoLostWakeup, History;
    RemovedIdentities(t.procs, t.next, k);
    RemovedFamily(t.procs, t.left, k);
    RemovedWakeups(t.procs, k);
    RemovedHistory(t, k);
  }

  lemma WaitKeeps(t: Table, i: nat)
    requires Inv(t) && Enabled(t, Wait(i))
    ensures Inv(DoWait(t, i))
  {
    hide Inv, NoHangingChild;
    var me := t.procs[i];
    var k := Find(t.procs, HangingChildOf(me.pid));
    if k != -1 {
      var b := WithPhase(t.procs, i, Live);
      PhaseKeeps(t, i, Live);
      assert b[k] == t.procs[k];
      ReapKeeps(t.(procs := b), k);
      assert Without(b, k) == b[..k] + b[k + 1..];
    } else if Find(t.procs, ChildOf(me.pid)) == -1 {
      PhaseKeeps(t, i, Live);
    } else {
      NoneHangs(t.procs, me.pid);
      PhaseKeeps(t, i, Waiting);
    }
  }

  lemma NoneHangs(procs: seq<Proc>, pid: int)
    requires Find(procs, HangingChildOf(pid)) == -1
    ensures NoHangingChild(procs, pid)
  {
    forall j | 0 <= j < |procs| ensures !(procs[j].parent == pid && procs[j].phase == Hanging) {
      assert !Meets(procs[j], HangingChildOf(pid));
    }
  }

  // ----- exit

  /** What the first step of sys_exit does to the list: `i` is leaving, `k` changes its parent. */
  function Adopted(procs: seq<Proc>, i: nat, status: int, k: int): seq<Proc>
    requires i < |procs| && -1 <= k < |procs|
  {
    var b := procs[i := procs[i].(exitStatus := status, phase := Leaving)];
    if k == -1 then b else b[k := b[k].(parent := INIT_PID)]
  }

  lemma AdoptedFamily(procs: seq<Proc>, left: set<nat>, next: nat, i: nat, status: int, k: int, left': set<nat>)
    requires Family(procs, left) && Identities(procs, next) && i < |procs| && -1 <= k < |procs| && k != i
    requires procs[i].parent != NO_PARENT && left <= left'
    requires k != -1 ==> procs[k].parent == procs[i].pid
    requires forall j :: 0 <= j < |procs| && j != k && procs[j].parent == procs[i].pid ==> procs[j].uid in left'
    ensures Family(Adopted(procs, i, status, k), left')
  {
    var b := Adopted(procs, i, status, k);
    forall pid | Present(procs, pid) ensures Present(b, pid) {
      var j :| 0 <= j < |procs| && procs[j].pid == pid;
      assert b[j].pid == pid;
    }
    hide Present;
    forall j | 0 <= j < |b| ensures KinOk(b, left', b[j]) {
      assert KinOk(procs, left, procs[j]);
      assert KinOk(procs, left, procs[i]);
      if Gone(procs[j].phase) {
        forall m | 0 <= m < |b| && b[m].parent == procs[j].pid ensures b[m].uid in left' { assert procs[m].parent == procs[j].pid; }
      }
    }
  }

  lemma AdoptedWakeups(procs: seq<Proc>, i: nat, status: int, k: int)
    requires NoLostWakeup(procs) && i < |procs| && -1 <= k < |procs|
    ensures NoLostWakeup(Adopted(procs, i, status, k))
  {
    var b := Adopted(procs, i, status, k);
    forall j | 0 <= j < |b| && b[j].phase == Waiting && b[j].pid != INIT_PID ensures NoHangingChild(b, b[j].pid) {
      assert NoHangingChild(procs, procs[j].pid);
      forall m | 0 <= m < |b| ensures !(b[m].parent == b[j].pid && b[m].phase == Hanging) {
        assert !(procs[m].parent == procs[j].pid && procs[m].phase == Hanging);
      }
    }
  }

  lemma AdoptedHistory(t: Table, i: nat, status: int, k: int)
    requires History(t) && Identities(t.procs, t.next) && i < |t.procs| && -1 <= k < |t.procs| && t.procs[i].phase == Live
    ensures History(t.(procs := Adopted(t.procs, i, status, k), exits := t.exits[t.procs[i].uid := status]))
  {
    var b, e := Adopted(t.procs, i, status, k), t.exits[t.procs[i].uid := status];
    forall j | 0 <= j < |b| ensures Recorded(b[j], e) {
      assert Recorded(t.procs[j], t.exits);
      if j < i { assert t.procs[j].uid != t.procs[i].uid; } else if i < j { assert t.procs[i].uid != t.procs[j].uid; }
    }
    forall r | 0 <= r < |t.reaped| ensures Collected(t.reaped[r], e) { assert Collected(t.reaped[r], t.exits); }
    forall r, j | 0 <= r < |t.reaped| && 0 <= j < |b| ensures t.reaped[r].uid != b[j].uid {
      assert b[j].uid == t.procs[j].uid;
    }
  }

  lemma AdoptedIdentities(procs: seq<Proc>, next: nat, i: nat, status: int, k: int)
    requires Identities(procs, next) && i < |procs| && -1 <= k < |procs|
    ensures Identities(Adopted(procs, i, status, k), next)
  {
    var b := Adopted(procs, i, status, k);
    assert forall j :: 0 <= j < |b| ==> b[j].pid == procs[j].pid && b[j].uid == procs[j].uid;
  }

  /** Which child the traversal of sys_exit finds. */
  lemma AdoptsFirst(t: Table, i: nat, status: int)
    requires i < |t.procs| && t.procs[i].parent != t.procs[i].pid
    ensures var k := Find(t.procs, ChildOf(t.procs[i].pid));
            k != i && DoExit(t, i, status) ==
              t.(procs := Adopted(t.procs, i, status, k), exits := t.exits[t.procs[i].uid := status],
                 left := t.left + LeftBehind(t.procs, t.procs[i].pid))
  {
    var me := t.procs[i];
    var b := t.procs[i := me.(exitStatus := status, phase := Leaving)];
    FindSame(t.procs, b, ChildOf(me.pid));
  }

  lemma {:induction false} FindSame(a: seq<Proc>, b: seq<Proc>, q: Query)
    requires |a| == |b| && forall j :: 0 <= j < |a| ==> (Meets(b[j], q) <==> Meets(a[j], q))
    ensures Find(a, q) == Find(b, q)
  {
    hide Meets;
    if a != [] {
      assert Meets(b[0], q) <==> Meets(a[0], q);
      FindSame(a[1..], b[1..], q);
    }
  }

  /** A process with at most one child leaves none behind; with more, all but the first keep it as
      their parent. */
  lemma ExitLeavesNoChild(t: Table, i: nat, status: int)
    requires Inv(t) && Enabled(t, Exit(i, status))
    ensures NoChild(DoExit(t, i, status).procs, t.procs[i].pid) <==> OneChild(t, i)
  {
    assert KinOk(t.procs, t.left, t.procs[i]);
    hide Inv, Identities, Family, History, NoLostWakeup;
    AdoptsFirst(t, i, status);
    var pid := t.procs[i].pid;
    var k := Find(t.procs, ChildOf(pid));
    var b := Adopted(t.procs, i, status, k);
    forall j | 0 <= j < |b| && j != k ensures b[j].parent == t.procs[j].parent {}
    InitIsNot(t, i);
    if OneChild(t, i) {
      OnlyFirstChild(t, i);
    } else {
      var m, n :| 0 <= m < n < |t.procs| && t.procs[m].parent == pid && t.procs[n].parent == pid;
      assert Meets(t.procs[m], ChildOf(pid));
      assert b[n].parent == pid;
    }
  }

  lemma OnlyFirstChild(t: Table, i: nat)
    requires i < |t.procs| && OneChild(t, i)
    ensures var k := Find(t.procs, ChildOf(t.procs[i].pid));
            && (k != -1 ==> t.procs[k].parent == t.procs[i].pid)
            && forall j :: 0 <= j < |t.procs| && j != k ==> t.procs[j].parent != t.procs[i].pid
  {
    var pid := t.procs[i].pid;
    var k := Find(t.procs, ChildOf(pid));
    forall j | 0 <= j < |t.procs| ensures Meets(t.procs[j], ChildOf(pid)) <==> t.procs[j].parent == pid {}
  }

  lemma InitIsNot(t: Table, i: nat)
    requires Inv(t) && i < |t.procs| && t.procs[i].parent != NO_PARENT
    ensures t.procs[i].pid != INIT_PID && t.procs[i].parent != t.procs[i].pid
  {
    assert KinOk(t.procs, t.left, t.procs[i]);
  }

  lemma LeftBehindIs(procs: seq<Proc>, pid: int)
    ensures var k := Find(procs, ChildOf(pid));
            && (k != -1 ==> procs[k].parent == pid)
            && forall j :: 0 <= j < |procs| && j != k && procs[j].parent == pid ==> procs[j].uid in LeftBehind(procs, pid)
  {
  }

  lemma ExitKeeps(t: Table, i: nat, status: int)
    requires Inv(t) && Enabled(t, Exit(i, status))
    ensures Inv(DoExit(t, i, status))
  {
    InitIsNot(t, i);
    hide Identities, Family, History, NoLostWakeup, LeftBehind;
    AdoptsFirst(t, i, status);
    var pid := t.procs[i].pid;
    var k := Find(t.procs, ChildOf(pid));
    LeftBehindIs(t.procs, pid);
    AdoptedIdentities(t.procs, t.next, i, status, k);
    AdoptedFamily(t.procs, t.left, t.next, i, status, k, t.left + LeftBehind(t.procs, pid));
    AdoptedWakeups(t.procs, i, status, k);
    AdoptedHistory(t, i, status, k);
  }

  lemma WokenThenHanging(procs: seq<Proc>, next: nat, i: nat, k: nat)
    requires Identities(procs, next) && NoLostWakeup(procs) && i < |procs| && k < |procs| && k != i && procs[k].pid == procs[i].parent
    requires procs[k].phase != Waiting && procs[i].phase == Leaving
    ensures NoLostWakeup(WithPhase(procs, i, Hanging))
  {
    var b := WithPhase(procs, i, Hanging);
    forall j | 0 <= j < |b| && b[j].phase == Waiting && b[j].pid != INIT_PID ensures NoHangingChild(b, b[j].pid) {
      assert NoHangingChild(procs, procs[j].pid);
      forall m | 0 <= m < |b| ensures !(b[m].parent == b[j].pid && b[m].phase == Hanging) {
        if m == i { assert j != k; } else { assert !(procs[m].parent == procs[j].pid && procs[m].phase == Hanging); }
      }
    }
  }

  lemma HangKeeps(t: Table, i: nat, k: nat)
    requires Inv(t) && i < |t.procs| && k < |t.procs| && k != i && t.procs[k].pid == t.procs[i].parent
    requires t.procs[k].phase != Waiting && t.procs[i].phase == Leaving
    ensures Inv(t.(procs := WithPhase(t.procs, i, Hanging)))
  {
    hide Identities, Family, History, NoLostWakeup, NoHangingChild;
    var b := WithPhase(t.procs, i, Hanging);
    WokenThenHanging(t.procs, t.next, i, k);
    SameIdentities(t.procs, b, t.next);
    SameFamily(t.procs, b, t.left);
    SameHistory(t, b);
  }

  /** The second step finds the parent, wakes it if it waits, and hangs the process. It fails only
      for a process that was left behind. */
  lemma LeaveKeeps(t: Table, i: nat)
    requires Inv(t) && Enabled(t, Leave(i))
    ensures DoLeave(t, i).Some? ==> Inv(DoLeave(t, i).value)
    ensures DoLeave(t, i).None? <==> !Present(t.procs, t.procs[i].parent)
    ensures DoLeave(t, i).None? ==> t.procs[i].uid in t.left
  {
    hide Inv;
    LeavingHasParent(t, i);
    var k := Find(t.procs, HasPid(t.procs[i].parent));
    if k != -1 {
      if t.procs[k].phase == Waiting {
        PhaseKeeps(t, k, Woken);
        HangKeeps(t.(procs := WithPhase(t.procs, k, Woken)), i, k);
      } else {
        HangKeeps(t, i, k);
      }
    }
  }

  lemma LeavingHasParent(t: Table, i: nat)
    requires Inv(t) && i < |t.procs| && t.procs[i].phase == Leaving
    ensures var k := Find(t.procs, HasPid(t.procs[i].parent));
            k != i && (k != -1 <==> Present(t.procs, t.procs[i].parent)) && (k == -1 ==> t.procs[i].uid in t.left)
  {
    assert KinOk(t.procs, t.left, t.procs[i]);
    forall j | 0 <= j < |t.procs| ensures Meets(t.procs[j], HasPid(t.procs[i].parent)) <==> t.procs[j].pid == t.procs[i].parent {}
  }

  // ----- all runs

  /** A step fails only when a process that was left behind leaves and nobody has its parent's pid. */
  lemma StepKeeps(t: Table, s: Step)
    requires Inv(t) && Enabled(t, s)
    ensures Next(t, s).Some? ==> Inv(Next(t, s).value)
    ensures Next(t, s).None? <==> s.Leave? && t.procs[s.i].uid in t.left && !Present(t.procs, t.procs[s.i].parent)
  {
    hide Inv, DoWait, DoExit, DoLeave, Present;
    match s
    case Fork(i, pid) => ForkKeeps(t, i, pid);
    case Wait(i) => WaitKeeps(t, i);
    case Exit(i, status) => ExitKeeps(t, i, status);
    case Leave(i) => LeaveKeeps(t, i);
  }

  const BOOT := Table([Proc(1, NO_PARENT, Live, 0, 0), Proc(2, NO_PARENT, Live, 0, 1), Proc(3, NO_PARENT, Live, 0, 2)], 3, map[], [], {})

  ghost predicate ProcessRun(tables: seq<Table>, steps: seq<Step>) {
    && |tables| == |steps| + 1 && tables[0] == BOOT
    && forall n :: 0 <= n < |steps| ==> Enabled(tables[n], steps[n]) && Next(tables[n], steps[n]) == Some(tables[n + 1])
  }

  lemma BootOk()
    ensures Inv(BOOT)
  {
    assert BOOT.procs[0].pid == INIT_PID;
  }

  /** In every run no parent but init waits while a child of it hangs, and everyone reaped was
      reaped once, under its pid, with the status it gave to exit. */
  lemma {:induction false} RunKeeps(tables: seq<Table>, steps: seq<Step>)
    requires ProcessRun(tables, steps)
    ensures var t := tables[|steps|]; NoLostWakeup(t.procs) && History(t) && Inv(t)
    decreases |steps|
  {
    hide Inv, NoLostWakeup, History, Next, Enabled;
    if steps == [] {
      BootOk();
    } else {
      var n := |steps| - 1;
      RunKeeps(tables[..n + 1], steps[..n]);
      StepKeeps(tables[n], steps[n]);
    }
    InvSays(tables[|steps|]);
  }

  lemma InvSays(t: Table)
    requires Inv(t)
    ensures NoLostWakeup(t.procs) && History(t)
  {
  }

  /** Step `n` of the run is an exit that leaves process `u` behind: `u` was a child of the exiting
      process, and not the first one. */
  ghost predicate LeftAt(tables: seq<Table>, steps: seq<Step>, n: int, u: nat) {
    && 0 <= n < |steps| < |tables| && steps[n].Exit? && steps[n].i < |tables[n].procs|
    && u in LeftBehind(tables[n].procs, tables[n].procs[steps[n].i].pid)
  }

  /** Who is left behind in a run is decided at its exits. */
  lemma {:induction false} LeftIs(tables: seq<Table>, steps: seq<Step>, u: nat)
    requires ProcessRun(tables, steps)
    ensures u in tables[|steps|].left <==> exists n :: LeftAt(tables, steps, n, u)
    decreases |steps|
  {
    hide Next, LeftBehind, Find;
    if steps != [] {
      var n := |steps| - 1;
      LeftIs(tables[..n + 1], steps[..n], u);
      assert Next(tables[n], steps[n]) == Some(tables[n + 1]);
      LeftStep(tables[n], steps[n]);
      if u in tables[n].left {
        var m :| LeftAt(tables[..n + 1], steps[..n], m, u);
        assert LeftAt(tables, steps, m, u);
      }
      if u in tables[n + 1].left && u !in tables[n].left { assert LeftAt(tables, steps, n, u); }
      if m :| LeftAt(tables, steps, m, u) {
        if m < n { assert LeftAt(tables[..n + 1], steps[..n], m, u); }
      }
    }
  }

  lemma LeftStep(t: Table, s: Step)
    requires Enabled(t, s) && Next(t, s).Some?
    ensures Next(t, s).value.left == if s.Exit? then t.left + LeftBehind(t.procs, t.procs[s.i].pid) else t.left
  {
    hide LeftBehind, Find;
  }

  /** In every run, a process on its way out finds no parent if and only if its parent exited while
      it was not the parent's first child, and nobody has the parent's pid any more. */
  lemma WhoFindsNoParent(tables: seq<Table>, steps: seq<Step>, i: nat)
    requires ProcessRun(tables, steps) && Enabled(tables[|steps|], Leave(i))
    ensures var t := tables[|steps|];
            Next(t, Leave(i)).None? <==>
              (exists n :: LeftAt(tables, steps, n, t.procs[i].uid)) && !Present(t.procs, t.procs[i].parent)
  {
    hide Next, Inv, LeftAt, Present, NoLostWakeup, History;
    var t := tables[|steps|];
    RunKeeps(tables, steps);
    StepKeeps(t, Leave(i));
    LeftIs(tables, steps, t.procs[i].uid);
  }

  /** As long as every process has at most one child when it exits, nobody is left behind and no
      step fails. */
  lemma OneChildRun(tables: seq<Table>, steps: seq<Step>, i: nat)
    requires ProcessRun(tables, steps) && Enabled(tables[|steps|], Leave(i))
    requires forall n :: 0 <= n < |steps| && steps[n].Exit? ==> steps[n].i < |tables[n].procs| && OneChild(tables[n], steps[n].i)
    ensures Next(tables[|steps|], Leave(i)).Some?
  {
    var u := tables[|steps|].procs[i].uid;
    hide Next, Enabled, Present, ProcessRun, LeftBehind, OneChild, Find;
    WhoFindsNoParent(tables, steps, i);
    if n :| LeftAt(tables, steps, n, u) { NobodyLeft(tables[n], steps[n].i); }
  }

  lemma NobodyLeft(t: Table, i: nat)
    requires i < |t.procs| && OneChild(t, i)
    ensures LeftBehind(t.procs, t.procs[i].pid) == {}
  {
    OnlyFirstChild(t, i);
  }

  // ----- init

  ghost predicate InitWaits(procs: seq<Proc>) {
    exists m :: 0 <= m < |procs| && procs[m].pid == INIT_PID && procs[m].phase == Waiting
  }

  /** Init waits although a child of it hangs. */
  ghost predicate InitMisses(procs: seq<Proc>) {
    InitWaits(procs) && !NoHangingChild(procs, INIT_PID)
  }

  /** The first child of process `i` hangs. */
  predicate FirstChildHangs(t: Table, i: nat)
    requires i < |t.procs|
  {
    var k := Find(t.procs, ChildOf(t.procs[i].pid));
    k != -1 && t.procs[k].phase == Hanging
  }

  /** Init comes to miss a child at one kind of step only: a process exits, while init waits, whose
      first child hangs already. Init inherits that child and is not woken. */
  lemma InitMissesAtExit(t: Table, s: Step)
    requires Inv(t) && Enabled(t, s) && Next(t, s).Some? && !InitMisses(t.procs)
    ensures InitMisses(Next(t, s).value.procs) <==> s.Exit? && InitWaits(t.procs) && FirstChildHangs(t, s.i)
  {
    hide Inv, InitMisses, InitWaits, FirstChildHangs, DoWait, DoExit, DoLeave;
    match s
    case Fork(i, pid) => InitAfterFork(t, i, pid);
    case Wait(i) => InitAfterWait(t, i);
    case Exit(i, status) => InitAfterExit(t, i, status);
    case Leave(i) => InitAfterLeave(t, i);
  }

  lemma InitAfterFork(t: Table, i: nat, pid: int)
    requires Inv(t) && Enabled(t, Fork(i, pid)) && !InitMisses(t.procs)
    ensures !InitMisses(Next(t, Fork(i, pid)).value.procs)
  {
    var x := Proc(pid, t.procs[i].pid, Live, 0, t.next);
    var b := t.procs + [x];
    hide Inv, NoHangingChild;
    if InitWaits(b) {
      var m :| 0 <= m < |b| && b[m].pid == INIT_PID && b[m].phase == Waiting;
      assert t.procs[m].pid == INIT_PID;
      ForkHanging(t.procs, x, INIT_PID);
    }
  }

  lemma InitAfterWait(t: Table, i: nat)
    requires Inv(t) && Enabled(t, Wait(i)) && !InitMisses(t.procs)
    ensures !InitMisses(DoWait(t, i).procs)
  {
    hide Inv, NoHangingChild, Without;
    var me := t.procs[i];
    var k := Find(t.procs, HangingChildOf(me.pid));
    if k != -1 {
      var b := WithPhase(t.procs, i, Live);
      StillNoneHangs(t.procs, i, Live);
      WithoutIs(b, k);
      assert DoWait(t, i).procs == Without(b, k);
      RemovedInit(b, k);
    } else if Find(t.procs, ChildOf(me.pid)) == -1 {
      StillNoneHangs(t.procs, i, Live);
    } else {
      NoneHangs(t.procs, me.pid);
      StillNoneHangs(t.procs, i, Waiting);
    }
  }

  lemma StillNoneHangs(procs: seq<Proc>, i: nat, ph: Phase)
    requires i < |procs| && !InitMisses(procs) && !Gone(ph) && (ph == Waiting ==> NoHangingChild(procs, procs[i].pid))
    ensures !InitMisses(WithPhase(procs, i, ph))
  {
    hide NoHangingChild;
    var b := WithPhase(procs, i, ph);
    if InitWaits(b) {
      var m :| 0 <= m < |b| && b[m].pid == INIT_PID && b[m].phase == Waiting;
      if m != i { assert procs[m].pid == INIT_PID && procs[m].phase == Waiting; }
      HangingSame(procs, i, ph, INIT_PID);
    }
  }

  lemma RemovedInit(procs: seq<Proc>, k: nat)
    requires k < |procs| && !InitMisses(procs)
    ensures !InitMisses(Without(procs, k))
  {
    WithoutIs(procs, k);
    hide Without, NoHangingChild;
    var b := Without(procs, k);
    if InitWaits(b) {
      var m :| 0 <= m < |b| && b[m].pid == INIT_PID && b[m].phase == Waiting;
      assert procs[if m < k then m else m + 1].pid == INIT_PID;
      RemovedNoChild(procs, {}, k, INIT_PID);
    }
  }

  lemma InitAfterExit(t: Table, i: nat, status: int)
    requires Inv(t) && Enabled(t, Exit(i, status)) && !InitMisses(t.procs)
    ensures InitMisses(DoExit(t, i, status).procs) <==> InitWaits(t.procs) && FirstChildHangs(t, i)
  {
    InitIsNot(t, i);
    hide Inv, InitMisses, Adopted, LeftBehind;
    AdoptsFirst(t, i, status);
    var k := Find(t.procs, ChildOf(t.procs[i].pid));
    if k != -1 { InitIsNot(t, k); }
    InitAdopts(t.procs, i, status, k);
  }

  lemma InitAdopts(procs: seq<Proc>, i: nat, status: int, k: int)
    requires i < |procs| && -1 <= k < |procs| && k != i && procs[i].pid != INIT_PID && !InitMisses(procs)
    requires k != -1 ==> procs[k].pid != INIT_PID
    ensures InitMisses(Adopted(procs, i, status, k)) <==> InitWaits(procs) && k != -1 && procs[k].phase == Hanging
  {
    var b := Adopted(procs, i, status, k);
    forall m | 0 <= m < |b|
      ensures (b[m].pid == INIT_PID && b[m].phase == Waiting) <==> (procs[m].pid == INIT_PID && procs[m].phase == Waiting)
    {
    }
    assert InitWaits(b) <==> InitWaits(procs);
    if InitWaits(procs) {
      assert NoHangingChild(procs, INIT_PID);
      if k != -1 && procs[k].phase == Hanging { assert b[k].parent == INIT_PID && b[k].phase == Hanging; }
    }
  }

  lemma InitAfterLeave(t: Table, i: nat)
    requires Inv(t) && Enabled(t, Leave(i)) && !InitMisses(t.procs) && DoLeave(t, i).Some?
    ensures !InitMisses(DoLeave(t, i).value.procs)
  {
    LeavingHasParent(t, i);
    var k := Find(t.procs, HasPid(t.procs[i].parent));
    OnlyOne(t, k);
    hide Inv, LeftBehind;
    var a := if t.procs[k].phase == Waiting then WithPhase(t.procs, k, Woken) else t.procs;
    if t.procs[k].phase == Waiting { StillNoneHangs(t.procs, k, Woken); }
    var b := WithPhase(a, i, Hanging);
    if InitWaits(b) {
      var m :| 0 <= m < |b| && b[m].pid == INIT_PID && b[m].phase == Waiting;
      assert a[m].pid == INIT_PID && a[m].phase == Waiting && m != k;
      assert NoHangingChild(a, INIT_PID);
    }
  }

  lemma OnlyOne(t: Table, k: nat)
    requires Inv(t) && k < |t.procs|
    ensures forall m :: 0 <= m < |t.procs| && t.procs[m].pid == t.procs[k].pid ==> m == k
  {
    hide Family, NoLostWakeup, History;
  }

  // ----- two runs from boot

  lemma FindAt(procs: seq<Proc>, q: Query, k: nat)
    requires k < |procs| && Meets(procs[k], q) && forall i :: 0 <= i < k ==> !Meets(procs[i], q)
    ensures Find(procs, q) == k
  {
  }

  lemma FindNone(procs: seq<Proc>, q: Query)
    requires forall i :: 0 <= i < |procs| ==> !Meets(procs[i], q)
    ensures Find(procs, q) == -1
  {
  }

  lemma SameTable(t: Table, u: Table)
    requires t.procs == u.procs && t.next == u.next && t.exits == u.exits && t.reaped == u.reaped && t.left == u.left
    ensures t == u
  {
  }

  const INIT := Proc(1, NO_PARENT, Live, 0, 0)
  const KMAIN := Proc(2, NO_PARENT, Live, 0, 1)
  const IDLE := Proc(3, NO_PARENT, Live, 0, 2)

  /** Init forks 4 and waits, 4 forks 5, 5 forks 6. */
  function Generations(n: nat): Table {
    var init := if n >= 2 then INIT.(phase := Waiting) else INIT;
    var four, five, six := [Proc(4, 1, Live, 0, 3)], [Proc(5, 4, Live, 0, 4)], [Proc(6, 5, Live, 0, 5)];
    if n == 0 then BOOT
    else if n <= 2 then Table([init, KMAIN, IDLE] + four, 4, map[], [], {})
    else if n == 3 then Table([init, KMAIN, IDLE] + four + five, 5, map[], [], {})
    else Table([init, KMAIN, IDLE] + four + five + six, 6, map[], [], {})
  }

  const GROWING: seq<Step> := [Fork(0, 4), Wait(0), Fork(3, 5), Fork(4, 6)]

  /** Then 6 exits and leaves. */
  const SIX_EXITS := Table(Generations(4).procs[5 := Proc(6, 5, Leaving, 7, 5)], 6, map[5 := 7], [], {})
  const SIX_HANGS := Table(Generations(4).procs[5 := Proc(6, 5, Hanging, 7, 5)], 6, map[5 := 7], [], {})

  /** And 5 exits. */
  const FIVE_EXITS :=
    Table(Generations(4).procs[4 := Proc(5, 4, Leaving, 0, 4)][5 := Proc(6, 1, Hanging, 7, 5)], 6, map[5 := 7, 4 := 0], [], {})

  lemma Growing(n: nat)
    requires n < 4
    ensures Enabled(Generations(n), GROWING[n]) && Next(Generations(n), GROWING[n]) == Some(Generations(n + 1))
  {
    hide Find;
    var procs := Generations(n).procs;
    if n == 1 {
      FindNone(procs, HangingChildOf(1));
      FindAt(procs, ChildOf(1), 3);
    } else {
      FindNone(procs, HasPid(if n == 0 then 4 else n + 3));
    }
    SameTable(Next(Generations(n), GROWING[n]).value, Generations(n + 1));
  }

  lemma SixLeaves()
    ensures Enabled(Generations(4), Exit(5, 7)) && Next(Generations(4), Exit(5, 7)) == Some(SIX_EXITS)
    ensures Enabled(SIX_EXITS, Leave(5)) && Next(SIX_EXITS, Leave(5)) == Some(SIX_HANGS)
  {
    hide Find;
    FindNone(Generations(4).procs, ChildOf(6));
    FindNone(SIX_EXITS.procs, ChildOf(6));
    assert LeftBehind(Generations(4).procs, 6) == {};
    SameTable(Next(Generations(4), Exit(5, 7)).value, SIX_EXITS);
    FindAt(SIX_EXITS.procs, HasPid(5), 4);
    SameTable(Next(SIX_EXITS, Leave(5)).value, SIX_HANGS);
  }

  lemma FiveLeaves()
    ensures Enabled(SIX_HANGS, Exit(4, 0)) && Next(SIX_HANGS, Exit(4, 0)) == Some(FIVE_EXITS)
  {
    hide Find;
    var procs := SIX_HANGS.procs;
    FindAt(procs, ChildOf(5), 5);
    FindAt(procs[4 := Proc(5, 4, Leaving, 0, 4)], ChildOf(5), 5);
    assert LeftBehind(procs, 5) == {};
    SameTable(Next(SIX_HANGS, Exit(4, 0)).value, FIVE_EXITS);
  }

  /** Init can come to miss a child: a run from boot after which it waits while a child of it hangs. */
  lemma InitMayMissAChild() returns (tables: seq<Table>, steps: seq<Step>)
    ensures ProcessRun(tables, steps) && InitMisses(tables[|steps|].procs)
  {
    hide Enabled, Next, Find;
    tables := [Generations(0), Generations(1), Generations(2), Generations(3), Generations(4), SIX_EXITS, SIX_HANGS, FIVE_EXITS];
    steps := GROWING + [Exit(5, 7), Leave(5), Exit(4, 0)];
    forall n | 0 <= n < |steps| ensures Enabled(tables[n], steps[n]) && Next(tables[n], steps[n]) == Some(tables[n + 1]) {
      if n < 4 { Growing(n); }
      SixLeaves();
      FiveLeaves();
    }
    assert FIVE_EXITS.procs[0].pid == INIT_PID && FIVE_EXITS.procs[5].parent == INIT_PID;
  }

  // Init forks 4, which forks 5 and 6 and exits; 5 goes to init, 6 is left behind. Init reaps 4,
  // and 6 exits.
  const CHILDREN := Table([INIT, KMAIN, IDLE, Proc(4, 1, Live, 0, 3), Proc(5, 4, Live, 0, 4), Proc(6, 4, Live, 0, 5)], 6, map[], [], {})
  const FOUR_EXITS := Table([INIT, KMAIN, IDLE, Proc(4, 1, Leaving, 0, 3), Proc(5, 1, Live, 0, 4), Proc(6, 4, Live, 0, 5)], 6,
                            map[3 := 0], [], {5})
  const FOUR_HANGS := Table([INIT, KMAIN, IDLE, Proc(4, 1, Hanging, 0, 3), Proc(5, 1, Live, 0, 4), Proc(6, 4, Live, 0, 5)], 6,
                            map[3 := 0], [], {5})
  const FOUR_REAPED := Table([INIT, KMAIN, IDLE, Proc(5, 1, Live, 0, 4), Proc(6, 4, Live, 0, 5)], 6, map[3 := 0], [Reap(3, 4, 0)], {5})
  const LAST_EXITS := Table([INIT, KMAIN, IDLE, Proc(5, 1, Live, 0, 4), Proc(6, 4, Leaving, 0, 5)], 6, map[3 := 0, 5 := 0], [Reap(3, 4, 0)], {5})

  lemma ChildrenBorn()
    ensures Enabled(BOOT, Fork(0, 4)) && Next(BOOT, Fork(0, 4)) == Some(Generations(1))
    ensures var t := Table(CHILDREN.procs[..5], 5, map[], [], {});
            && Enabled(Generations(1), Fork(3, 5)) && Next(Generations(1), Fork(3, 5)) == Some(t)
            && Enabled(t, Fork(3, 6)) && Next(t, Fork(3, 6)) == Some(CHILDREN)
  {
    hide Find;
    FindNone(BOOT.procs, HasPid(4));
    FindNone(Generations(1).procs, HasPid(5));
    FindNone(CHILDREN.procs[..5], HasPid(6));
    var t := Table(CHILDREN.procs[..5], 5, map[], [], {});
    SameTable(Next(Generations(1), Fork(3, 5)).value, t);
    SameTable(Next(t, Fork(3, 6)).value, CHILDREN);
  }

  lemma FourLeaves()
    ensures Enabled(CHILDREN, Exit(3, 0)) && Next(CHILDREN, Exit(3, 0)) == Some(FOUR_EXITS)
    ensures Enabled(FOUR_EXITS, Leave(3)) && Next(FOUR_EXITS, Leave(3)) == Some(FOUR_HANGS)
  {
    hide Find;
    FindAt(CHILDREN.procs, ChildOf(4), 4);
    FindAt(CHILDREN.procs[3 := Proc(4, 1, Leaving, 0, 3)], ChildOf(4), 4);
    assert CHILDREN.procs[5].parent == 4 && LeftBehind(CHILDREN.procs, 4) == {5};
    SameTable(Next(CHILDREN, Exit(3, 0)).value, FOUR_EXITS);
    FindAt(FOUR_EXITS.procs, HasPid(1), 0);
    SameTable(Next(FOUR_EXITS, Leave(3)).value, FOUR_HANGS);
  }

  lemma FourIsReaped()
    ensures Enabled(FOUR_HANGS, Wait(0)) && Next(FOUR_HANGS, Wait(0)) == Some(FOUR_REAPED)
    ensures Enabled(FOUR_REAPED, Exit(4, 0)) && Next(FOUR_REAPED, Exit(4, 0)) == Some(LAST_EXITS)
  {
    hide Find;
    FindAt(FOUR_HANGS.procs, HangingChildOf(1), 3);
    SameTable(Next(FOUR_HANGS, Wait(0)).value, FOUR_REAPED);
    FindNone(FOUR_REAPED.procs, ChildOf(6));
    FindNone(LAST_EXITS.procs, ChildOf(6));
    assert LeftBehind(FOUR_REAPED.procs, 6) == {};
    SameTable(Next(FOUR_REAPED, Exit(4, 0)).value, LAST_EXITS);
  }

  /** A process with two children exits and is reaped; its second child, on its way out, finds no
      parent. */
  lemma SecondChildFindsNoParent() returns (tables: seq<Table>, steps: seq<Step>)
    ensures ProcessRun(tables, steps) && Enabled(tables[|steps|], Leave(4)) && Next(tables[|steps|], Leave(4)).None?
  {
    hide Enabled, Next, Find;
    tables := [BOOT, Generations(1), Table(CHILDREN.procs[..5], 5, map[], [], {}), CHILDREN, FOUR_EXITS, FOUR_HANGS, FOUR_REAPED, LAST_EXITS];
    steps := [Fork(0, 4), Fork(3, 5), Fork(3, 6), Exit(3, 0), Leave(3), Wait(0), Exit(4, 0)];
    ChildrenBorn();
    FourLeaves();
    FourIsReaped();
    LastFindsNone();
  }

  lemma LastFindsNone()
    ensures Enabled(LAST_EXITS, Leave(4)) && Next(LAST_EXITS, Leave(4)).None?
  {
    hide Find;
    FindNone(LAST_EXITS.procs, HasPid(4));
  }

  // ----- the same on the list itself

  lemma ExitFacts(t: Table, i: nat, status: int)
    requires Inv(t) && Enabled(t, Exit(i, status))
    ensures |DoExit(t, i, status).procs| == |t.procs| && DoExit(t, i, status).procs[i].pid == t.procs[i].pid
    ensures Inv(DoExit(t, i, status)) && (NoChild(DoExit(t, i, status).procs, t.procs[i].pid) <==> OneChild(t, i))
  {
    hide Inv, NoChild, OneChild, LeftBehind, Find;
    ExitKeeps(t, i, status);
    ExitLeavesNoChild(t, i, status);
  }

  datatype WaitResult = Reaped(pid: int, status: int) | NoChildren | Blocked

  class AllList {
    var procs: seq<Proc>
    ghost var next: nat
    ghost var exits: map<nat, int>
    ghost var reaped: seq<Reap>
    ghost var left: set<nat>

    ghost function View(): Table
      reads this
    {
      Table(procs, next, exits, reaped, left)
    }

    method ListTraversal(q: Query) returns (k: int)
      ensures k == Find(procs, q)
    {
      k := 0;
      while k < |procs|
        invariant 0 <= k <= |procs| && forall i :: 0 <= i < k ==> !Meets(procs[i], q)
      {
        if Meets(procs[k], q) {
          return;
        }
        k := k + 1;
      }
      k := -1;
    }

    /** One turn of the loop of sys_wait, for the process at place `i`. */
    method SysWaitTurn(i: nat) returns (r: WaitResult)
      requires i < |procs|
      modifies this
      ensures View() == DoWait(old(View()), i)
      ensures r.Reaped? <==> Find(old(procs), HangingChildOf(old(procs[i].pid))) != -1
      ensures r.Reaped? ==> var c := old(procs)[Find(old(procs), HangingChildOf(old(procs[i].pid)))]; r == Reaped(c.pid, c.exitStatus)
      ensures r.NoChildren? <==> Find(old(procs), ChildOf(old(procs[i].pid))) == -1
      ensures var me := old(procs[i]);
              && (r.Blocked? ==> procs == old(procs)[i := me.(phase := Waiting)])
              && (r.NoChildren? ==> procs == old(procs)[i := me.(phase := Live)])
              && (r.Reaped? ==> Without(old(procs)[i := me.(phase := Live)], Find(old(procs), HangingChildOf(me.pid))) == procs)
      ensures reaped == if r.Reaped? then old(reaped) + [Reap(old(procs)[Find(old(procs), HangingChildOf(old(procs[i].pid)))].uid, r.pid, r.status)]
                        else old(reaped)
      ensures Inv(old(View())) && Enabled(old(View()), Wait(i)) ==> Inv(View())
    {
      hide Inv;
      ghost var t := View();
      if Inv(t) && Enabled(t, Wait(i)) { WaitKeeps(t, i); }
      var ppid := procs[i].pid;
      var childElem := ListTraversal(HangingChildOf(ppid));
      if childElem != -1 {
        assert Meets(procs[childElem], ChildOf(ppid));
        var child := procs[childElem];
        r := Reaped(child.pid, child.exitStatus);
        procs := WithPhase(procs, i, Live);
        procs := procs[..childElem] + procs[childElem + 1..];
        reaped := reaped + [Reap(child.uid, child.pid, child.exitStatus)];
        return;
      }
      childElem := ListTraversal(ChildOf(ppid));
      if childElem == -1 {
        procs := WithPhase(procs, i, Live);
        r := NoChildren;
      } else {
        procs := WithPhase(procs, i, Waiting);
        r := Blocked;
      }
    }

    /** sys_exit up to the release of resources; false where it panics for want of a parent. */
    method SysExitAdopt(i: nat, status: int) returns (ok: bool)
      requires i < |procs|
      modifies this
      ensures ok <==> old(procs)[i].parent != NO_PARENT
      ensures ok ==> View() == DoExit(old(View()), i, status)
      ensures ok ==> var leaving := old(procs)[i := old(procs[i]).(exitStatus := status, phase := Leaving)];
                     var k := Find(leaving, ChildOf(leaving[i].pid));
                     procs == if k == -1 then leaving else leaving[k := leaving[k].(parent := 1)]
      ensures ok && Inv(old(View())) && old(procs)[i].phase == Live ==>
                Inv(View()) && (NoChild(procs, procs[i].pid) <==> OneChild(old(View()), i))
    {
      hide Inv, NoChild, OneChild, LeftBehind;
      ghost var t := View();
      if Inv(t) && Enabled(t, Exit(i, status)) { ExitFacts(t, i, status); }
      if procs[i].parent == NO_PARENT {
        return false;
      }
      procs := procs[i := procs[i].(exitStatus := status, phase := Leaving)];
      exits := exits[procs[i].uid := status];
      left := left + LeftBehind(t.procs, procs[i].pid);
      var k := ListTraversal(ChildOf(procs[i].pid));
      if k != -1 {
        procs := procs[k := procs[k].(parent := INIT_PID)];
      }
      ok := true;
    }

    /** sys_exit from there on; false where the source would dereference null. */
    method SysExitLeave(i: nat) returns (ok: bool)
      requires i < |procs|
      modifies this
      ensures ok <==> DoLeave(old(View()), i).Some?
      ensures ok ==> Some(View()) == DoLeave(old(View()), i)
      ensures ok <==> exists k :: 0 <= k < |old(procs)| && old(procs)[k].pid == old(procs[i]).parent
      ensures ok ==> |procs| == |old(procs)| && procs[i] == old(procs[i]).(phase := Hanging)
      ensures ok ==> var k := Find(old(procs), HasPid(old(procs[i]).parent));
                     && (k != i ==> procs[k] == old(procs)[k].(phase := if old(procs)[k].phase == Waiting then Woken else old(procs)[k].phase))
                     && forall j :: 0 <= j < |procs| && j != i && j != k ==> procs[j] == old(procs)[j]
      ensures !ok ==> View() == old(View())
      ensures Inv(old(View())) && Enabled(old(View()), Leave(i)) ==> Inv(View()) && (!ok ==> procs[i].uid in left)
    {
      hide Inv, Present;
      ghost var t := View();
      if Inv(t) && Enabled(t, Leave(i)) { LeaveKeeps(t, i); }
      var k := ListTraversal(HasPid(procs[i].parent));
      if k == -1 {
        return false;
      }
      if procs[k].phase == Waiting {
        procs := WithPhase(procs, k, Woken);
      }
      procs := WithPhase(procs, i, Hanging);
      ok := true;
    }
  }
}
