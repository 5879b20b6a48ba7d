/**
 * fork, wait and exit: the process tree of userprog/wait_exit.c, userprog/fork.c and thread/thread.c.
 * System calls run with interrupts off, so a step is a stretch up to the next place where a lock may block.
 */
module Processes {
  import opened Basics

  type Tid = nat  // the PCB; a page used again for another process is another Tid

  const INIT_PID := 1
  const NO_PARENT := -1
  const MAX_PID := 1024

  datatype Status = Live | Waiting | Hanging | Died

  /** What a thread is in the middle of. */
  datatype Pc =
    | Calm
    | Forking(pid: int, parent: int)              // has the child's pid, has yet to add the child to the lists
    | InWait(child: Tid)                          // in the loop of sys_wait, having seen that child
    | Reaping(child: Tid, pid: int, status: int)  // in thread_exit for the child, before it leaves the list
    | Freeing(pid: int, status: int)              // in thread_exit, before the pid is given back
    | Exiting                                     // in sys_exit, past the adoption of the children

  /** user says that the thread has a page directory, which sys_fork asks for. */
  datatype Proc = Proc(pid: int, parent: int, status: Status, exitStatus: int, user: bool, pc: Pc)

  /** What a call of sys_wait hands out. */
  datatype Reaped = Reaped(child: Tid, reaper: Tid, pid: int, status: int)

  /**
   * all is thread_all_list and pids the bitmap of pids.  The rest is auxiliary: who has a pid, who is between
   * taking a pid and using it, what sys_exit was given, and what the waits have returned.
   */
  datatype Tree = Tree(procs: map<Tid, Proc>, all: seq<Tid>, pids: set<int>,
                       byPid: map<int, Tid>, held: map<int, Tid>, codes: map<Tid, int>, log: seq<Reaped>)

  /** The assignment of an int32 to the int8 exit_status. */
  function Int8(x: int): (r: int)
    ensures -128 <= r < 128 && (r - x) % 256 == 0
    ensures -128 <= x < 128 ==> r == x
  {
    (x + 128) % 256 - 128
  }

  // ---------------------------------------------------------------- what holds between steps

  predicate Ended(x: Proc) { x.pc == Exiting || x.status == Hanging || x.status == Died }

  predicate CanParent(x: Proc) { x.user && !Ended(x) }

  predicate ListedIn(procs: map<Tid, Proc>, all: seq<Tid>) {
    NoDup(all) && (forall t :: t in all ==> t in procs) && (forall t :: t in procs ==> t in all)
  }

  predicate Listed(s: Tree) { ListedIn(s.procs, s.all) }

  /** No two threads in the list have the same pid. */
  predicate Indexed(s: Tree) {
    && (forall t :: t in s.procs ==> s.procs[t].pid in s.byPid && s.byPid[s.procs[t].pid] == t)
    && (forall p :: p in s.byPid ==> s.byPid[p] in s.procs && s.procs[s.byPid[p]].pid == p)
  }

  predicate Holds(x: Proc, p: int) {
    (x.pc.Forking? || x.pc.Freeing?) && x.pc.pid == p
  }

  /** A pid is taken exactly while a thread has it or is about to use it or give it back. */
  predicate PidsExact(s: Tree) {
    && s.pids == s.byPid.Keys + s.held.Keys && s.byPid.Keys !! s.held.Keys
    && (forall p :: p in s.pids ==> 1 <= p <= MAX_PID)
    && (forall t :: t in s.procs && (s.procs[t].pc.Forking? || s.procs[t].pc.Freeing?) ==>
          s.procs[t].pc.pid in s.held && s.held[s.procs[t].pc.pid] == t)
    && (forall p :: p in s.held ==> s.held[p] in s.procs && Holds(s.procs[s.held[p]], p))
  }

  /** p is the pid of a thread that may have children. */
  predicate Adoptive(s: Tree, p: int) {
    p in s.byPid && s.byPid[p] in s.procs && CanParent(s.procs[s.byPid[p]])
  }

  /** Every parent_pid but -1 names a thread that has not exited. */
  predicate Parented(s: Tree) {
    && Adoptive(s, INIT_PID) && s.procs[s.byPid[INIT_PID]].parent == NO_PARENT
    && (forall t :: t in s.procs && s.procs[t].parent != NO_PARENT ==> Adoptive(s, s.procs[t].parent))
    && (forall t :: t in s.procs && Ended(s.procs[t]) ==> s.procs[t].parent != NO_PARENT)
    && (forall t :: t in s.procs && s.procs[t].pc.Forking? ==>
          s.procs[t].pc.parent == NO_PARENT || (s.procs[t].pc.parent == s.procs[t].pid && s.procs[t].user))
  }

  /** No WAITING parent other than init has a HANGING child. */
  predicate WaitsInTime(s: Tree) {
    forall t :: t in s.procs && s.procs[t].status == Hanging && s.procs[t].parent in s.byPid
                && s.procs[t].parent != INIT_PID && s.byPid[s.procs[t].parent] in s.procs ==>
      s.procs[s.byPid[s.procs[t].parent]].status != Waiting
  }

  /** A call of sys_wait sleeps only while it has a child, and cleans up after one child of its own. */
  predicate WaitOk(s: Tree, x: Proc) {
    && (x.status == Waiting ==> x.pc.InWait? && x.pc.child in s.procs && s.procs[x.pc.child].parent == x.pid
                                && s.procs[x.pc.child].status != Died)
    && (x.status != Live && x.status != Waiting ==> x.pc == Calm)
    && (x.pc.Reaping? ==> x.pc.child in s.procs && s.procs[x.pc.child].status == Died
                          && s.procs[x.pc.child].parent == x.pid && s.procs[x.pc.child].pid == x.pc.pid)
  }

  /** A child that is DIED is in the hands of its parent. */
  predicate Mourned(s: Tree, c: Tid)
    requires c in s.procs
  {
    var p := s.procs[c].parent;
    p in s.byPid && s.byPid[p] in s.procs && s.procs[s.byPid[p]].pc.Reaping? && s.procs[s.byPid[p]].pc.child == c
  }

  predicate Waits(s: Tree) {
    forall t :: t in s.procs ==> WaitOk(s, s.procs[t]) && (s.procs[t].status == Died ==> Mourned(s, t))
  }

  predicate Recorded(s: Tree, e: Reaped) {
    && e.child in s.codes && e.status == Int8(s.codes[e.child])
    && (e.child in s.procs ==> s.procs[e.child].status == Died)
  }

  function ReapedSet(log: seq<Reaped>): set<Tid> {
    set i | 0 <= i < |log| :: log[i].child
  }

  /** Every exited child has been handed to exactly one wait, with its status, or is still there to be handed out. */
  predicate Accounted(s: Tree) {
    && (forall i, j :: 0 <= i < j < |s.log| ==> s.log[i].child != s.log[j].child)
    && (forall i :: 0 <= i < |s.log| ==> Recorded(s, s.log[i]))
    && (forall t :: t in s.procs ==> (Ended(s.procs[t]) <==> t in s.codes))
    && (forall t :: t in s.procs && t in s.codes ==> s.procs[t].exitStatus == Int8(s.codes[t]))
    && (forall t :: t in s.codes && (t !in s.procs || s.procs[t].status == Died) ==> t in ReapedSet(s.log))
  }

  predicate Inv(s: Tree) {
    Listed(s) && Indexed(s) && PidsExact(s) && Parented(s) && WaitsInTime(s) && Waits(s) && Accounted(s)
  }

  // ---------------------------------------------------------------- steps

  datatype Action =
    | TakePid(t: Tid, pid: int, fork: bool)  // fork_pid, or allocate_pid for a kernel thread
    | AddChild(t: Tid, child: Tid)           // the new PCB goes on the lists
    | Wait(t: Tid)                           // once around the loop of sys_wait
    | LeaveList(t: Tid)                      // thread_exit takes the reaped child off the list
    | GiveBack(t: Tid)                       // thread_exit gives the pid back and sys_wait returns
    | ExitBegin(t: Tid, code: int)           // sys_exit up to the release of the resources
    | ExitEnd(t: Tid)                        // the rest of sys_exit
    | KernelExit(t: Tid)                     // thread_exit of a kernel thread by itself

  predicate LowestFree(pids: set<int>, p: int) {
    1 <= p <= MAX_PID && p !in pids && forall q :: 1 <= q < p ==> q in pids
  }

  /** The first thread of the list whose parent is ppid, and who hangs if hanging is asked for. */
  function FirstChild(procs: map<Tid, Proc>, all: seq<Tid>, ppid: int, hanging: bool): (k: nat)
    requires forall t :: t in all ==> t in procs
    ensures k <= |all|
    ensures k < |all| ==> procs[all[k]].parent == ppid && (hanging ==> procs[all[k]].status == Hanging)
    ensures forall i :: 0 <= i < k ==> procs[all[i]].parent != ppid || (hanging && procs[all[i]].status != Hanging)
  {
    if all == [] then 0
    else if procs[all[0]].parent == ppid && (hanging ==> procs[all[0]].status == Hanging) then 0
    else 1 + FirstChild(procs, all[1..], ppid, hanging)
  }

  predicate Enabled(s: Tree, a: Action) {
    a.t in s.procs && s.procs[a.t].status == Live &&
    var me := s.procs[a.t];
    match a
    case TakePid(_, p, fork) => me.pc == Calm && LowestFree(s.pids, p) && (fork ==> me.user)
    case AddChild(_, child) => me.pc.Forking? && child !in s.procs && child !in s.codes
    case Wait(_) => me.pc == Calm || me.pc.InWait?
    case LeaveList(_) => me.pc.Reaping?
    case GiveBack(_) => me.pc.Freeing?
    case ExitBegin(_, _) => me.pc == Calm && me.parent != NO_PARENT  // otherwise it panics
    case ExitEnd(_) => me.pc == Exiting
    case KernelExit(_) => me.pc == Calm && !me.user && me.parent == NO_PARENT
  }

  function Adopt(procs: map<Tid, Proc>, pid: int): (r: map<Tid, Proc>)
    ensures r.Keys == procs.Keys
    ensures forall t :: t in procs ==> r[t] == if procs[t].parent == pid then procs[t].(parent := INIT_PID) else procs[t]
  {
    map t | t in procs :: if procs[t].parent == pid then procs[t].(parent := INIT_PID) else procs[t]
  }

  function Put(s: Tree, t: Tid, x: Proc): Tree {
    s.(procs := s.procs[t := x])
  }

  function Drop(s: Tree, t: Tid): Tree
    requires t in s.procs
  {
    s.(procs := s.procs - {t}, all := Without(s.all, t), byPid := s.byPid - {s.procs[t].pid})
  }

  function Reap(s: Tree, t: Tid, c: Tid): Tree
    requires t in s.procs && c in s.procs
  {
    var x := s.procs[c];
    s.(procs := s.procs[c := x.(status := Died)][t := s.procs[t].(pc := Reaping(c, x.pid, x.exitStatus))],
       log := s.log + [Reaped(c, t, x.pid, x.exitStatus)])
  }

  function Sleep(s: Tree, t: Tid, c: Tid): Tree
    requires t in s.procs
  {
    Put(s, t, s.procs[t].(status := Waiting, pc := InWait(c)))
  }

  function WaitOnce(s: Tree, t: Tid): Tree
    requires t in s.procs && forall u :: u in s.all ==> u in s.procs
  {
    var me := s.procs[t];
    var h := FirstChild(s.procs, s.all, me.pid, true);
    var k := FirstChild(s.procs, s.all, me.pid, false);
    if h < |s.all| then Reap(s, t, s.all[h])
    else if k == |s.all| then Put(s, t, me.(pc := Calm))  // returns -1
    else Sleep(s, t, s.all[k])
  }

  function Take(s: Tree, t: Tid, p: int, fork: bool): Tree
    requires t in s.procs
  {
    var me := s.procs[t];
    Put(s, t, me.(pc := Forking(p, if fork then me.pid else NO_PARENT))).(pids := s.pids + {p}, held := s.held[p := t])
  }

  function Add(s: Tree, t: Tid, c: Tid): Tree
    requires t in s.procs && s.procs[t].pc.Forking?
  {
    var me := s.procs[t];
    var child := Proc(me.pc.pid, me.pc.parent, Live, me.exitStatus, me.pc.parent != NO_PARENT, Calm);
    s.(procs := s.procs[t := me.(pc := Calm)][c := child], all := s.all + [c],
       byPid := s.byPid[me.pc.pid := c], held := s.held - {me.pc.pid})
  }

  function Leave(s: Tree, t: Tid): Tree
    requires t in s.procs && s.procs[t].pc.Reaping? && s.procs[t].pc.child in s.procs
  {
    var me := s.procs[t];
    Put(Drop(s, me.pc.child), t, me.(pc := Freeing(me.pc.pid, me.pc.status))).(held := s.held[me.pc.pid := t])
  }

  function Give(s: Tree, t: Tid): Tree
    requires t in s.procs && s.procs[t].pc.Freeing?
  {
    var me := s.procs[t];
    Put(s, t, me.(pc := Calm)).(pids := s.pids - {me.pc.pid}, held := s.held - {me.pc.pid})
  }

  function Begin(s: Tree, t: Tid, code: int): Tree
    requires t in s.procs
  {
    var procs := Adopt(s.procs, s.procs[t].pid);
    s.(procs := procs[t := procs[t].(exitStatus := Int8(code), pc := Exiting)], codes := s.codes[t := code])
  }

  /** pid2thread finds the parent, which is woken if it waits. */
  function Finish(s: Tree, t: Tid): Tree
    requires t in s.procs && s.procs[t].parent in s.byPid && s.byPid[s.procs[t].parent] in s.procs
  {
    var u := s.byPid[s.procs[t].parent];
    var x := s.procs[u];
    var s1 := if x.status == Waiting then Put(s, u, x.(status := Live)) else s;
    Put(s1, t, s1.procs[t].(status := Hanging, pc := Calm))
  }

  function Vanish(s: Tree, t: Tid): Tree
    requires t in s.procs
  {
    Drop(s, t).(pids := s.pids - {s.procs[t].pid})
  }

  function Step(s: Tree, a: Action): Tree
    requires Inv(s) && Enabled(s, a)
  {
    match a
    case TakePid(t, p, fork) => Take(s, t, p, fork)
    case AddChild(t, c) => Add(s, t, c)
    case Wait(t) => WaitOnce(s, t)
    case LeaveList(t) => Leave(s, t)
    case GiveBack(t) => Give(s, t)
    case ExitBegin(t, code) => Begin(s, t, code)
    case ExitEnd(t) => Finish(s, t)
    case KernelExit(t) => Vanish(s, t)
  }


  // ---------------------------------------------------------------- what the steps keep

  lemma DropListed(s: Tree, t: Tid)
    requires t in s.procs && Listed(s)
    ensures ListedIn(s.procs - {t}, Without(s.all, t))
  {
    WithoutIs(s.all, t);
    hide Without, NoDup;
  }

  lemma PutListed(procs: map<Tid, Proc>, all: seq<Tid>, t: Tid, x: Proc)
    requires ListedIn(procs, all) && t in procs
    ensures ListedIn(procs[t := x], all)
  {
  }

  lemma ReapedMore(log: seq<Reaped>, e: Reaped)
    ensures ReapedSet(log + [e]) == ReapedSet(log) + {e.child}
  {
    var more := log + [e];
    assert more[|log|] == e;
    forall t | t in ReapedSet(log) ensures t in ReapedSet(more) {
      var i :| 0 <= i < |log| && log[i].child == t;
      assert more[i].child == t;
    }
  }

  lemma TakeLists(s: Tree, t: Tid, p: int, fork: bool)
    requires t in s.procs && s.procs[t].status == Live
    requires s.procs[t].pc == Calm && p !in s.pids && 1 <= p <= MAX_PID && (fork ==> s.procs[t].user)
    requires Listed(s) && Indexed(s)
    ensures var r := Take(s, t, p, fork); Listed(r) && Indexed(r)
  {
  }

  lemma TakePids(s: Tree, t: Tid, p: int, fork: bool)
    requires t in s.procs && s.procs[t].status == Live
    requires s.procs[t].pc == Calm && p !in s.pids && 1 <= p <= MAX_PID && (fork ==> s.procs[t].user)
    requires Indexed(s) && PidsExact(s)
    ensures var r := Take(s, t, p, fork); PidsExact(r)
  {
  }

  lemma TakeKin(s: Tree, t: Tid, p: int, fork: bool)
    requires t in s.procs && s.procs[t].status == Live
    requires s.procs[t].pc == Calm && p !in s.pids && 1 <= p <= MAX_PID && (fork ==> s.procs[t].user)
    requires Indexed(s) && Parented(s) && WaitsInTime(s)
    ensures var r := Take(s, t, p, fork); Parented(r) && WaitsInTime(r)
  {
  }

  lemma TakeWaits(s: Tree, t: Tid, p: int, fork: bool)
    requires t in s.procs && s.procs[t].status == Live
    requires s.procs[t].pc == Calm && p !in s.pids && 1 <= p <= MAX_PID && (fork ==> s.procs[t].user)
    requires Indexed(s) && Waits(s)
    ensures var r := Take(s, t, p, fork); Waits(r)
  {
  }

  lemma TakeRecords(s: Tree, t: Tid, p: int, fork: bool)
    requires t in s.procs && s.procs[t].status == Live
    requires s.procs[t].pc == Calm && p !in s.pids && 1 <= p <= MAX_PID && (fork ==> s.procs[t].user)
    requires Accounted(s)
    ensures var r := Take(s, t, p, fork); Accounted(r)
  {
    hide Int8, ReapedSet;
  }

  lemma AddLists(s: Tree, t: Tid, c: Tid)
    requires t in s.procs && s.procs[t].status == Live && s.procs[t].pc.Forking? && c !in s.procs && c !in s.codes
    requires Listed(s) && Indexed(s) && PidsExact(s)
    ensures var r := Add(s, t, c); Listed(r) && Indexed(r)
  {
  }

  lemma AddPids(s: Tree, t: Tid, c: Tid)
    requires t in s.procs && s.procs[t].status == Live && s.procs[t].pc.Forking? && c !in s.procs && c !in s.codes
    requires Indexed(s) && PidsExact(s)
    ensures var r := Add(s, t, c); PidsExact(r)
  {
  }

  lemma AddParents(s: Tree, t: Tid, c: Tid)
    requires t in s.procs && s.procs[t].status == Live && s.procs[t].pc.Forking? && c !in s.procs && c !in s.codes
    requires Indexed(s) && PidsExact(s) && Parented(s)
    ensures var r := Add(s, t, c); Parented(r)
  {
  }

  lemma AddInTime(s: Tree, t: Tid, c: Tid)
    requires t in s.procs && s.procs[t].status == Live && s.procs[t].pc.Forking? && c !in s.procs && c !in s.codes
    requires Indexed(s) && PidsExact(s) && Parented(s) && WaitsInTime(s)
    ensures var r := Add(s, t, c); WaitsInTime(r)
  {
  }

  lemma AddWaits(s: Tree, t: Tid, c: Tid)
    requires t in s.procs && s.procs[t].status == Live && s.procs[t].pc.Forking? && c !in s.procs && c !in s.codes
    requires Indexed(s) && PidsExact(s) && Waits(s)
    ensures var r := Add(s, t, c); Waits(r)
  {
  }

  lemma AddRecords(s: Tree, t: Tid, c: Tid)
    requires t in s.procs && s.procs[t].status == Live && s.procs[t].pc.Forking? && c !in s.procs && c !in s.codes
    requires Accounted(s)
    ensures var r := Add(s, t, c); Accounted(r)
  {
    hide Int8, ReapedSet;
  }

  lemma HangingIsCalm(s: Tree, c: Tid)
    requires c in s.procs && s.procs[c].status == Hanging && Waits(s)
    ensures s.procs[c].pc == Calm
  {
    assert WaitOk(s, s.procs[c]);
  }

  lemma ReapLists(s: Tree, t: Tid, c: Tid)
    requires t in s.procs && s.procs[t].status == Live && (s.procs[t].pc == Calm || s.procs[t].pc.InWait?)
    requires c in s.procs && s.procs[c].status == Hanging && s.procs[c].parent == s.procs[t].pid
    requires Listed(s) && Indexed(s)
    ensures var r := Reap(s, t, c); Listed(r) && Indexed(r)
  {
  }

  lemma ReapPids(s: Tree, t: Tid, c: Tid)
    requires t in s.procs && s.procs[t].status == Live && (s.procs[t].pc == Calm || s.procs[t].pc.InWait?)
    requires c in s.procs && s.procs[c].status == Hanging && s.procs[c].parent == s.procs[t].pid
    requires Indexed(s) && PidsExact(s) && Waits(s)
    ensures var r := Reap(s, t, c); PidsExact(r)
  {
    hide Waits;
    HangingIsCalm(s, c);
  }

  lemma ReapParents(s: Tree, t: Tid, c: Tid)
    requires t in s.procs && s.procs[t].status == Live && (s.procs[t].pc == Calm || s.procs[t].pc.InWait?)
    requires c in s.procs && s.procs[c].status == Hanging && s.procs[c].parent == s.procs[t].pid
    requires Indexed(s) && Parented(s) && Waits(s)
    ensures var r := Reap(s, t, c); Parented(r)
  {
    hide Waits;
    HangingIsCalm(s, c);
  }

  lemma ReapInTime(s: Tree, t: Tid, c: Tid)
    requires t in s.procs && s.procs[t].status == Live && (s.procs[t].pc == Calm || s.procs[t].pc.InWait?)
    requires c in s.procs && s.procs[c].status == Hanging && s.procs[c].parent == s.procs[t].pid
    requires Indexed(s) && Parented(s) && WaitsInTime(s) && Waits(s)
    ensures var r := Reap(s, t, c); WaitsInTime(r)
  {
  }

  lemma ReapWaits(s: Tree, t: Tid, c: Tid)
    requires t in s.procs && s.procs[t].status == Live && (s.procs[t].pc == Calm || s.procs[t].pc.InWait?)
    requires c in s.procs && s.procs[c].status == Hanging && s.procs[c].parent == s.procs[t].pid
    requires Indexed(s) && Waits(s)
    ensures var r := Reap(s, t, c); Waits(r)
  {
    hide Ended;
    var r := Reap(s, t, c);
    forall u | u in r.procs ensures WaitOk(r, r.procs[u]) && (r.procs[u].status == Died ==> Mourned(r, u)) {
      assert WaitOk(s, s.procs[u]) && (s.procs[u].status == Died ==> Mourned(s, u));
    }
  }

  lemma ReapRecords(s: Tree, t: Tid, c: Tid)
    requires t in s.procs && s.procs[t].status == Live && (s.procs[t].pc == Calm || s.procs[t].pc.InWait?)
    requires c in s.procs && s.procs[c].status == Hanging && s.procs[c].parent == s.procs[t].pid
    requires Waits(s) && Accounted(s)
    ensures var r := Reap(s, t, c); Accounted(r)
  {
    hide Int8, ReapedSet, Mourned;
    ReapedMore(s.log, Reaped(c, t, s.procs[c].pid, s.procs[c].exitStatus));
  }

  lemma SleepLists(s: Tree, t: Tid, c: Tid)
    requires t in s.procs && s.procs[t].status == Live && (s.procs[t].pc == Calm || s.procs[t].pc.InWait?)
    requires c in s.procs && s.procs[c].status != Died && s.procs[c].parent == s.procs[t].pid
    requires forall u :: u in s.procs && s.procs[u].parent == s.procs[t].pid ==> s.procs[u].status != Hanging
    requires Listed(s) && Indexed(s)
    ensures var r := Sleep(s, t, c); Listed(r) && Indexed(r)
  {
  }

  lemma SleepPids(s: Tree, t: Tid, c: Tid)
    requires t in s.procs && s.procs[t].status == Live && (s.procs[t].pc == Calm || s.procs[t].pc.InWait?)
    requires c in s.procs && s.procs[c].status != Died && s.procs[c].parent == s.procs[t].pid
    requires forall u :: u in s.procs && s.procs[u].parent == s.procs[t].pid ==> s.procs[u].status != Hanging
    requires Indexed(s) && PidsExact(s)
    ensures var r := Sleep(s, t, c); PidsExact(r)
  {
  }

  lemma SleepKin(s: Tree, t: Tid, c: Tid)
    requires t in s.procs && s.procs[t].status == Live && (s.procs[t].pc == Calm || s.procs[t].pc.InWait?)
    requires c in s.procs && s.procs[c].status != Died && s.procs[c].parent == s.procs[t].pid
    requires forall u :: u in s.procs && s.procs[u].parent == s.procs[t].pid ==> s.procs[u].status != Hanging
    requires Indexed(s) && Parented(s) && WaitsInTime(s)
    ensures var r := Sleep(s, t, c); Parented(r) && WaitsInTime(r)
  {
  }

  lemma SleepWaits(s: Tree, t: Tid, c: Tid)
    requires t in s.procs && s.procs[t].status == Live && (s.procs[t].pc == Calm || s.procs[t].pc.InWait?)
    requires c in s.procs && s.procs[c].status != Died && s.procs[c].parent == s.procs[t].pid
    requires forall u :: u in s.procs && s.procs[u].parent == s.procs[t].pid ==> s.procs[u].status != Hanging
    requires Indexed(s) && Waits(s)
    ensures var r := Sleep(s, t, c); Waits(r)
  {
  }

  lemma SleepRecords(s: Tree, t: Tid, c: Tid)
    requires t in s.procs && s.procs[t].status == Live && (s.procs[t].pc == Calm || s.procs[t].pc.InWait?)
    requires c in s.procs && s.procs[c].status != Died && s.procs[c].parent == s.procs[t].pid
    requires forall u :: u in s.procs && s.procs[u].parent == s.procs[t].pid ==> s.procs[u].status != Hanging
    requires Accounted(s)
    ensures var r := Sleep(s, t, c); Accounted(r)
  {
    hide Int8, ReapedSet;
  }

  lemma ReturnLists(s: Tree, t: Tid)
    requires t in s.procs && s.procs[t].status == Live && (s.procs[t].pc == Calm || s.procs[t].pc.InWait?)
    requires Listed(s) && Indexed(s)
    ensures var r := Put(s, t, s.procs[t].(pc := Calm)); Listed(r) && Indexed(r)
  {
  }

  lemma ReturnPids(s: Tree, t: Tid)
    requires t in s.procs && s.procs[t].status == Live && (s.procs[t].pc == Calm || s.procs[t].pc.InWait?)
    requires Indexed(s) && PidsExact(s)
    ensures var r := Put(s, t, s.procs[t].(pc := Calm)); PidsExact(r)
  {
  }

  lemma ReturnKin(s: Tree, t: Tid)
    requires t in s.procs && s.procs[t].status == Live && (s.procs[t].pc == Calm || s.procs[t].pc.InWait?)
    requires Indexed(s) && Parented(s) && WaitsInTime(s)
    ensures var r := Put(s, t, s.procs[t].(pc := Calm)); Parented(r) && WaitsInTime(r)
  {
  }

  lemma ReturnWaits(s: Tree, t: Tid)
    requires t in s.procs && s.procs[t].status == Live && (s.procs[t].pc == Calm || s.procs[t].pc.InWait?)
    requires Indexed(s) && Waits(s)
    ensures var r := Put(s, t, s.procs[t].(pc := Calm)); Waits(r)
  {
  }

  lemma ReturnRecords(s: Tree, t: Tid)
    requires t in s.procs && s.procs[t].status == Live && (s.procs[t].pc == Calm || s.procs[t].pc.InWait?)
    requires Accounted(s)
    ensures var r := Put(s, t, s.procs[t].(pc := Calm)); Accounted(r)
  {
    hide Int8, ReapedSet;
  }

  /** The child being reaped is DIED, is a child of its reaper, and has no children. */
  lemma ReapedChild(s: Tree, t: Tid)
    requires t in s.procs && s.procs[t].status == Live
    requires s.procs[t].pc.Reaping? && s.procs[t].pc.child in s.procs && Waits(s)
    ensures var c := s.procs[t].pc.child;
            c != t && s.procs[c].status == Died && s.procs[c].parent == s.procs[t].pid && s.procs[c].pid == s.procs[t].pc.pid
    ensures s.procs[s.procs[t].pc.child].pc == Calm
  {
    assert WaitOk(s, s.procs[t]);
    assert WaitOk(s, s.procs[s.procs[t].pc.child]);
  }

  lemma LeaveAdoptive(s: Tree, t: Tid, p: int)
    requires t in s.procs && s.procs[t].status == Live && s.procs[t].pc.Reaping? && s.procs[t].pc.child in s.procs
    requires s.procs[t].pc.child != t && s.procs[s.procs[t].pc.child].status == Died
    requires Indexed(s) && Adoptive(s, p)
    ensures Adoptive(Leave(s, t), p)
  {
  }

  lemma InitStays(s: Tree, t: Tid)
    requires t in s.procs && s.procs[t].pc.Reaping? && s.procs[t].pc.child in s.procs && s.procs[t].pc.child != t
    requires Adoptive(s, INIT_PID) && Adoptive(Leave(s, t), INIT_PID)
    ensures Leave(s, t).procs[Leave(s, t).byPid[INIT_PID]].parent == s.procs[s.byPid[INIT_PID]].parent
  {
  }

  lemma FinishOther(s: Tree, t: Tid)
    requires t in s.procs && s.procs[t].pc == Exiting && s.procs[t].parent in s.byPid && Parented(s)
    ensures s.byPid[s.procs[t].parent] != t
  {
    assert Ended(s.procs[t]);
    assert Adoptive(s, s.procs[t].parent);
  }

  lemma FinishAdoptive(s: Tree, t: Tid, p: int)
    requires t in s.procs && s.procs[t].pc == Exiting && Adoptive(s, p)
    requires s.procs[t].parent in s.byPid && s.byPid[s.procs[t].parent] in s.procs
    ensures Adoptive(Finish(s, t), p)
  {
  }

  lemma LeaveLists(s: Tree, t: Tid)
    requires t in s.procs && s.procs[t].status == Live && s.procs[t].pc.Reaping? && s.procs[t].pc.child in s.procs
    requires Listed(s) && Indexed(s) && Waits(s)
    ensures var r := Leave(s, t); Listed(r) && Indexed(r)
  {
    hide ListedIn, Without;
    var me := s.procs[t];
    assert me.pc.child != t;
    DropListed(s, me.pc.child);
    PutListed(s.procs - {me.pc.child}, Without(s.all, me.pc.child), t, me.(pc := Freeing(me.pc.pid, me.pc.status)));
  }

  lemma LeavePids(s: Tree, t: Tid)
    requires t in s.procs && s.procs[t].status == Live && s.procs[t].pc.Reaping? && s.procs[t].pc.child in s.procs
    requires Indexed(s) && PidsExact(s) && Waits(s)
    ensures var r := Leave(s, t); PidsExact(r)
  {
    hide Waits;
    ReapedChild(s, t);
  }

  lemma LeaveParents(s: Tree, t: Tid)
    requires t in s.procs && s.procs[t].status == Live && s.procs[t].pc.Reaping? && s.procs[t].pc.child in s.procs
    requires Indexed(s) && Parented(s) && Waits(s)
    ensures var r := Leave(s, t); Parented(r)
  {
    hide Waits, Adoptive, Indexed;
    ReapedChild(s, t);
    var r, c := Leave(s, t), s.procs[t].pc.child;
    LeaveAdoptive(s, t, INIT_PID);
    forall u | u in r.procs && r.procs[u].parent != NO_PARENT ensures Adoptive(r, r.procs[u].parent) {
      LeaveAdoptive(s, t, s.procs[u].parent);
    }
    InitStays(s, t);
  }

  lemma LeaveInTime(s: Tree, t: Tid)
    requires t in s.procs && s.procs[t].status == Live && s.procs[t].pc.Reaping? && s.procs[t].pc.child in s.procs
    requires Indexed(s) && Parented(s) && WaitsInTime(s) && Waits(s)
    ensures var r := Leave(s, t); WaitsInTime(r)
  {
  }

  lemma LeaveWaits(s: Tree, t: Tid)
    requires t in s.procs && s.procs[t].status == Live && s.procs[t].pc.Reaping? && s.procs[t].pc.child in s.procs
    requires Indexed(s) && Parented(s) && Waits(s)
    ensures var r := Leave(s, t); Waits(r)
  {
    hide Ended;
    ReapedChild(s, t);
    var r := Leave(s, t);
    forall u | u in r.procs ensures WaitOk(r, r.procs[u]) && (r.procs[u].status == Died ==> Mourned(r, u)) {
      assert WaitOk(s, s.procs[u]) && (s.procs[u].status == Died ==> Mourned(s, u));
    }
  }

  lemma LeaveRecords(s: Tree, t: Tid)
    requires t in s.procs && s.procs[t].status == Live && s.procs[t].pc.Reaping? && s.procs[t].pc.child in s.procs
    requires Waits(s) && Accounted(s)
    ensures var r := Leave(s, t); Accounted(r)
  {
    hide Int8, ReapedSet;
  }

  lemma GiveLists(s: Tree, t: Tid)
    requires t in s.procs && s.procs[t].status == Live && s.procs[t].pc.Freeing?
    requires Listed(s) && Indexed(s)
    ensures var r := Give(s, t); Listed(r) && Indexed(r)
  {
  }

  lemma GivePids(s: Tree, t: Tid)
    requires t in s.procs && s.procs[t].status == Live && s.procs[t].pc.Freeing?
    requires Indexed(s) && PidsExact(s)
    ensures var r := Give(s, t); PidsExact(r)
  {
  }

  lemma GiveKin(s: Tree, t: Tid)
    requires t in s.procs && s.procs[t].status == Live && s.procs[t].pc.Freeing?
    requires Indexed(s) && Parented(s) && WaitsInTime(s)
    ensures var r := Give(s, t); Parented(r) && WaitsInTime(r)
  {
  }

  lemma GiveWaits(s: Tree, t: Tid)
    requires t in s.procs && s.procs[t].status == Live && s.procs[t].pc.Freeing?
    requires Indexed(s) && Waits(s)
    ensures var r := Give(s, t); Waits(r)
  {
  }

  lemma GiveRecords(s: Tree, t: Tid)
    requires t in s.procs && s.procs[t].status == Live && s.procs[t].pc.Freeing?
    requires Accounted(s)
    ensures var r := Give(s, t); Accounted(r)
  {
    hide Int8, ReapedSet;
  }

  lemma BeginLists(s: Tree, t: Tid, code: int)
    requires t in s.procs && s.procs[t].status == Live && s.procs[t].pc == Calm && s.procs[t].parent != NO_PARENT
    requires Listed(s) && Indexed(s)
    ensures var r := Begin(s, t, code); Listed(r) && Indexed(r)
  {
  }

  lemma BeginPids(s: Tree, t: Tid, code: int)
    requires t in s.procs && s.procs[t].status == Live && s.procs[t].pc == Calm && s.procs[t].parent != NO_PARENT
    requires Indexed(s) && PidsExact(s)
    ensures var r := Begin(s, t, code); PidsExact(r)
  {
  }

  lemma BeginAdoptive(s: Tree, t: Tid, code: int, p: int)
    requires t in s.procs && Indexed(s) && Adoptive(s, p) && p != s.procs[t].pid
    ensures Adoptive(Begin(s, t, code), p)
  {
    assert s.byPid[p] != t;
  }

  lemma BeginParents(s: Tree, t: Tid, code: int)
    requires t in s.procs && s.procs[t].status == Live && s.procs[t].pc == Calm && s.procs[t].parent != NO_PARENT
    requires Indexed(s) && PidsExact(s) && Parented(s)
    ensures var r := Begin(s, t, code); Parented(r)
  {
    var r, pid := Begin(s, t, code), s.procs[t].pid;
    assert s.byPid[INIT_PID] != t && pid != INIT_PID && pid != NO_PARENT;
    BeginAdoptive(s, t, code, INIT_PID);
    hide Adoptive, PidsExact, Indexed;
    forall u | u in r.procs && r.procs[u].parent != NO_PARENT ensures Adoptive(r, r.procs[u].parent) {
      if s.procs[u].parent != pid { BeginAdoptive(s, t, code, s.procs[u].parent); }
    }
  }

  lemma BeginInTime(s: Tree, t: Tid, code: int)
    requires t in s.procs && s.procs[t].status == Live && s.procs[t].pc == Calm && s.procs[t].parent != NO_PARENT
    requires Indexed(s) && Parented(s) && WaitsInTime(s)
    ensures var r := Begin(s, t, code); WaitsInTime(r)
  {
  }

  lemma BeginWaits(s: Tree, t: Tid, code: int)
    requires t in s.procs && s.procs[t].status == Live && s.procs[t].pc == Calm
    requires Indexed(s) && Waits(s)
    ensures var r := Begin(s, t, code); Waits(r)
  {
    var r := Begin(s, t, code);
    forall u | u in r.procs ensures WaitOk(r, r.procs[u]) && (r.procs[u].status == Died ==> Mourned(r, u)) {
      assert WaitOk(s, s.procs[u]);
      assert u != t ==> s.procs[u].pid != s.procs[t].pid;
      assert s.procs[u].status == Died ==> Mourned(s, u);
    }
  }

  lemma BeginRecords(s: Tree, t: Tid, code: int)
    requires t in s.procs && s.procs[t].status == Live && s.procs[t].pc == Calm && s.procs[t].parent != NO_PARENT
    requires Accounted(s)
    ensures var r := Begin(s, t, code); Accounted(r)
  {
    hide Int8, ReapedSet;
  }

  lemma FinishLists(s: Tree, t: Tid)
    requires t in s.procs && s.procs[t].status == Live && s.procs[t].pc == Exiting
    requires s.procs[t].parent in s.byPid && s.byPid[s.procs[t].parent] in s.procs
    requires Listed(s) && Indexed(s)
    ensures var r := Finish(s, t); Listed(r) && Indexed(r)
  {
  }

  lemma FinishPids(s: Tree, t: Tid)
    requires t in s.procs && s.procs[t].status == Live && s.procs[t].pc == Exiting
    requires s.procs[t].parent in s.byPid && s.byPid[s.procs[t].parent] in s.procs
    requires Indexed(s) && PidsExact(s) && Parented(s)
    ensures var r := Finish(s, t); PidsExact(r)
  {
    hide Parented, Adoptive;
    FinishOther(s, t);
  }

  lemma FinishParents(s: Tree, t: Tid)
    requires t in s.procs && s.procs[t].status == Live && s.procs[t].pc == Exiting
    requires s.procs[t].parent in s.byPid && s.byPid[s.procs[t].parent] in s.procs
    requires Indexed(s) && Parented(s)
    ensures var r := Finish(s, t); Parented(r)
  {
    var r := Finish(s, t);
    forall p | Adoptive(s, p) ensures Adoptive(r, p) {
      FinishAdoptive(s, t, p);
    }
    assert s.procs[s.byPid[INIT_PID]].parent == r.procs[s.byPid[INIT_PID]].parent;
    hide Adoptive, Indexed;
  }

  lemma FinishInTime(s: Tree, t: Tid)
    requires t in s.procs && s.procs[t].status == Live && s.procs[t].pc == Exiting
    requires s.procs[t].parent in s.byPid && s.byPid[s.procs[t].parent] in s.procs
    requires Indexed(s) && Parented(s) && WaitsInTime(s)
    ensures var r := Finish(s, t); WaitsInTime(r)
  {
  }

  lemma FinishWaits(s: Tree, t: Tid)
    requires t in s.procs && s.procs[t].status == Live && s.procs[t].pc == Exiting
    requires s.procs[t].parent in s.byPid && s.byPid[s.procs[t].parent] in s.procs
    requires Indexed(s) && Parented(s) && Waits(s)
    ensures var r := Finish(s, t); Waits(r)
  {
    hide Parented, Adoptive;
    FinishOther(s, t);
    var r := Finish(s, t);
    forall u | u in r.procs ensures WaitOk(r, r.procs[u]) && (r.procs[u].status == Died ==> Mourned(r, u)) {
      assert WaitOk(s, s.procs[u]) && (s.procs[u].status == Died ==> Mourned(s, u));
    }
  }

  lemma FinishRecords(s: Tree, t: Tid)
    requires t in s.procs && s.procs[t].status == Live && s.procs[t].pc == Exiting
    requires s.procs[t].parent in s.byPid && s.byPid[s.procs[t].parent] in s.procs
    requires Indexed(s) && Parented(s) && Accounted(s)
    ensures var r := Finish(s, t); Accounted(r)
  {
    hide Int8, ReapedSet, Parented, Adoptive, Indexed;
    FinishOther(s, t);
    var r := Finish(s, t);
    forall i | 0 <= i < |s.log| ensures Recorded(r, s.log[i]) {
      assert Recorded(s, s.log[i]);
    }
  }

  lemma VanishLists(s: Tree, t: Tid)
    requires t in s.procs && s.procs[t].status == Live
    requires s.procs[t].pc == Calm && !s.procs[t].user && s.procs[t].parent == NO_PARENT
    requires Listed(s) && Indexed(s)
    ensures var r := Vanish(s, t); Listed(r) && Indexed(r)
  {
    hide ListedIn, Without;
    DropListed(s, t);
  }

  lemma VanishPids(s: Tree, t: Tid)
    requires t in s.procs && s.procs[t].status == Live
    requires s.procs[t].pc == Calm && !s.procs[t].user && s.procs[t].parent == NO_PARENT
    requires Indexed(s) && PidsExact(s)
    ensures var r := Vanish(s, t); PidsExact(r)
  {
  }

  lemma VanishKin(s: Tree, t: Tid)
    requires t in s.procs && s.procs[t].status == Live
    requires s.procs[t].pc == Calm && !s.procs[t].user && s.procs[t].parent == NO_PARENT
    requires Indexed(s) && Parented(s) && WaitsInTime(s)
    ensures var r := Vanish(s, t); Parented(r) && WaitsInTime(r)
  {
  }

  lemma VanishWaits(s: Tree, t: Tid)
    requires t in s.procs && s.procs[t].status == Live
    requires s.procs[t].pc == Calm && !s.procs[t].user && s.procs[t].parent == NO_PARENT
    requires Indexed(s) && PidsExact(s) && Parented(s) && Waits(s)
    ensures var r := Vanish(s, t); Waits(r)
  {
  }

  lemma VanishRecords(s: Tree, t: Tid)
    requires t in s.procs && s.procs[t].status == Live
    requires s.procs[t].pc == Calm && !s.procs[t].user && s.procs[t].parent == NO_PARENT
    requires Accounted(s)
    ensures var r := Vanish(s, t); Accounted(r)
  {
    hide Int8, ReapedSet;
  }

  lemma {:induction false} NoSuchChild(s: Tree, ppid: int, hanging: bool, t: Tid)
    requires Listed(s) && FirstChild(s.procs, s.all, ppid, hanging) == |s.all| && t in s.procs
    ensures s.procs[t].parent != ppid || (hanging && s.procs[t].status != Hanging)
  {
    var i :| 0 <= i < |s.all| && s.all[i] == t;
  }

  lemma WaitKeeps(s: Tree, t: Tid)
    requires Inv(s) && Enabled(s, Wait(t))
    ensures Inv(WaitOnce(s, t))
  {
    hide Listed, Indexed, PidsExact, Parented, WaitsInTime, Waits, Accounted;
    ListedAll(s);
    var ppid := s.procs[t].pid;
    var h, k := FirstChild(s.procs, s.all, ppid, true), FirstChild(s.procs, s.all, ppid, false);
    if h < |s.all| {
      var c := s.all[h];
      ReapLists(s, t, c);
      ReapPids(s, t, c);
      ReapParents(s, t, c);
      ReapInTime(s, t, c);
      ReapWaits(s, t, c);
      ReapRecords(s, t, c);
    } else if k == |s.all| {
      ReturnLists(s, t);
      ReturnPids(s, t);
      ReturnKin(s, t);
      ReturnWaits(s, t);
      ReturnRecords(s, t);
    } else {
      var c := s.all[k];
      forall u | u in s.procs && s.procs[u].parent == ppid ensures s.procs[u].status != Hanging {
        NoSuchChild(s, ppid, true, u);
      }
      OwnChildLives(s, t, c);
      SleepLists(s, t, c);
      SleepPids(s, t, c);
      SleepKin(s, t, c);
      SleepWaits(s, t, c);
      SleepRecords(s, t, c);
    }
  }

  lemma OwnChildLives(s: Tree, t: Tid, c: Tid)
    requires t in s.procs && c in s.procs && Indexed(s) && Waits(s)
    requires s.procs[c].parent == s.procs[t].pid && !s.procs[t].pc.Reaping?
    ensures s.procs[c].status != Died
  {
    assert s.procs[c].status == Died ==> Mourned(s, c);
  }

  lemma ListedAll(s: Tree)
    requires Listed(s)
    ensures forall u :: u in s.all ==> u in s.procs
  {
  }

  lemma ReapedThere(s: Tree, t: Tid)
    requires t in s.procs && s.procs[t].pc.Reaping? && Waits(s)
    ensures s.procs[t].pc.child in s.procs
  {
  }

  /** The parent that sys_exit looks up is there. */
  lemma ParentThere(s: Tree, t: Tid)
    requires t in s.procs && s.procs[t].pc == Exiting && Parented(s)
    ensures s.procs[t].parent in s.byPid && s.byPid[s.procs[t].parent] in s.procs
  {
  }

  lemma TakeKeeps(s: Tree, t: Tid, p: int, fork: bool)
    requires Inv(s) && Enabled(s, TakePid(t, p, fork))
    ensures Inv(Step(s, TakePid(t, p, fork)))
  {
    hide Listed, Indexed, PidsExact, Parented, WaitsInTime, Waits, Accounted, Take;
    TakeLists(s, t, p, fork);
    TakePids(s, t, p, fork);
    TakeKin(s, t, p, fork);
    TakeWaits(s, t, p, fork);
    TakeRecords(s, t, p, fork);
  }

  lemma AddKeeps(s: Tree, t: Tid, c: Tid)
    requires Inv(s) && Enabled(s, AddChild(t, c))
    ensures Inv(Step(s, AddChild(t, c)))
  {
    hide Listed, Indexed, PidsExact, Parented, WaitsInTime, Waits, Accounted, Add;
    AddLists(s, t, c);
    AddPids(s, t, c);
    AddParents(s, t, c);
    AddInTime(s, t, c);
    AddWaits(s, t, c);
    AddRecords(s, t, c);
  }

  lemma LeaveKeeps(s: Tree, t: Tid)
    requires Inv(s) && Enabled(s, LeaveList(t))
    ensures Inv(Step(s, LeaveList(t)))
  {
    hide Listed, Indexed, PidsExact, Parented, WaitsInTime, Waits, Accounted, Leave;
    ReapedThere(s, t);
    LeaveLists(s, t);
    LeavePids(s, t);
    LeaveParents(s, t);
    LeaveInTime(s, t);
    LeaveWaits(s, t);
    LeaveRecords(s, t);
  }

  lemma GiveKeeps(s: Tree, t: Tid)
    requires Inv(s) && Enabled(s, GiveBack(t))
    ensures Inv(Step(s, GiveBack(t)))
  {
    hide Listed, Indexed, PidsExact, Parented, WaitsInTime, Waits, Accounted, Give;
    GiveLists(s, t);
    GivePids(s, t);
    GiveKin(s, t);
    GiveWaits(s, t);
    GiveRecords(s, t);
  }

  lemma BeginKeeps(s: Tree, t: Tid, code: int)
    requires Inv(s) && Enabled(s, ExitBegin(t, code))
    ensures Inv(Step(s, ExitBegin(t, code)))
  {
    hide Listed, Indexed, PidsExact, Parented, WaitsInTime, Waits, Accounted, Begin;
    BeginLists(s, t, code);
    BeginPids(s, t, code);
    BeginParents(s, t, code);
    BeginInTime(s, t, code);
    BeginWaits(s, t, code);
    BeginRecords(s, t, code);
  }

  lemma FinishKeeps(s: Tree, t: Tid)
    requires Inv(s) && Enabled(s, ExitEnd(t))
    ensures Inv(Step(s, ExitEnd(t)))
  {
    hide Listed, Indexed, PidsExact, Parented, WaitsInTime, Waits, Accounted, Finish;
    ParentThere(s, t);
    FinishLists(s, t);
    FinishPids(s, t);
    FinishParents(s, t);
    FinishInTime(s, t);
    FinishWaits(s, t);
    FinishRecords(s, t);
  }

  lemma VanishKeeps(s: Tree, t: Tid)
    requires Inv(s) && Enabled(s, KernelExit(t))
    ensures Inv(Step(s, KernelExit(t)))
  {
    hide Listed, Indexed, PidsExact, Parented, WaitsInTime, Waits, Accounted, Vanish;
    VanishLists(s, t);
    VanishPids(s, t);
    VanishKin(s, t);
    VanishWaits(s, t);
    VanishRecords(s, t);
  }

  lemma StepKeeps(s: Tree, a: Action)
    requires Inv(s) && Enabled(s, a)
    ensures Inv(Step(s, a))
  {
    hide Inv, Step, WaitOnce;
    match a {
      case TakePid(t, p, fork) => TakeKeeps(s, t, p, fork);
      case AddChild(t, c) => AddKeeps(s, t, c);
      case Wait(t) => WaitKeeps(s, t); WaitStep(s, t);
      case LeaveList(t) => LeaveKeeps(s, t);
      case GiveBack(t) => GiveKeeps(s, t);
      case ExitBegin(t, code) => BeginKeeps(s, t, code);
      case ExitEnd(t) => FinishKeeps(s, t);
      case KernelExit(t) => VanishKeeps(s, t);
    }
  }

  lemma WaitStep(s: Tree, t: Tid)
    requires Inv(s) && Enabled(s, Wait(t))
    ensures Step(s, Wait(t)) == WaitOnce(s, t)
  {
    hide Listed, Indexed, PidsExact, Parented, WaitsInTime, Waits, Accounted, WaitOnce;
    ListedAll(s);
  }

  // ---------------------------------------------------------------- every run

  /** What thread_init leaves: init with pid 1, then main and idle. */
  function BootTree(): Tree {
    Tree(map[0 := Proc(1, NO_PARENT, Live, 0, true, Calm), 1 := Proc(2, NO_PARENT, Live, 0, false, Calm),
             2 := Proc(3, NO_PARENT, Live, 0, false, Calm)],
         [0, 1, 2], {1, 2, 3}, map[1 := 0, 2 := 1, 3 := 2], map[], map[], [])
  }

  lemma BootedInv()
    ensures Inv(BootTree())
  {
    hide BootTree, Listed, Indexed, PidsExact, Parented, WaitsInTime, Waits, Accounted;
    BootedLists();
    BootedPids();
    BootedKin();
  }

  lemma BootedLists()
    ensures Listed(BootTree()) && Indexed(BootTree())
  {
  }

  lemma BootedPids()
    ensures PidsExact(BootTree())
  {
    var s := BootTree();
    assert s.byPid.Keys == {1, 2, 3} && s.held.Keys == {};
  }

  lemma BootedKin()
    ensures Parented(BootTree()) && WaitsInTime(BootTree()) && Waits(BootTree()) && Accounted(BootTree())
  {
  }

  function Booted(): (s: Tree)
    ensures Inv(s)
  {
    BootedInv();
    BootTree()
  }

  predicate CanRun(s: Tree, acts: seq<Action>)
    requires Inv(s)
    decreases |acts|
  {
    acts == [] || (Enabled(s, acts[0]) && (StepKeeps(s, acts[0]); CanRun(Step(s, acts[0]), acts[1..])))
  }

  function Run(s: Tree, acts: seq<Action>): (r: Tree)
    requires Inv(s) && CanRun(s, acts)
    ensures Inv(r)
    decreases |acts|
  {
    if acts == [] then s else
    StepKeeps(s, acts[0]);
    Run(Step(s, acts[0]), acts[1..])
  }

  lemma ParentOf(s: Tree, t: Tid)
    requires Inv(s) && t in s.procs && s.procs[t].parent != NO_PARENT
    ensures Adoptive(s, s.procs[t].parent)
  {
  }

  /** In every run every parent_pid other than -1 names exactly one thread, and that one has not exited. */
  lemma ParentsAreAlive(acts: seq<Action>, t: Tid)
    requires CanRun(Booted(), acts)
    requires t in Run(Booted(), acts).procs && Run(Booted(), acts).procs[t].parent != NO_PARENT
    ensures var s := Run(Booted(), acts);
            exists u :: u in s.procs && s.procs[u].pid == s.procs[t].parent && !Ended(s.procs[u])
                        && forall v :: v in s.procs && s.procs[v].pid == s.procs[t].parent ==> v == u
  {
    var s := Run(Booted(), acts);
    hide Run, CanRun, Booted;
    ParentOf(s, t);
    var u := s.byPid[s.procs[t].parent];
    hide PidsExact, Parented, WaitsInTime, Waits, Accounted;
    assert u in s.procs && s.procs[u].pid == s.procs[t].parent;
  }

  /** A HANGING thread has no children. */
  lemma HangingIsChildless(acts: seq<Action>, t: Tid, c: Tid)
    requires CanRun(Booted(), acts)
    requires t in Run(Booted(), acts).procs && c in Run(Booted(), acts).procs
    requires Run(Booted(), acts).procs[t].status == Hanging
    ensures Run(Booted(), acts).procs[c].parent != Run(Booted(), acts).procs[t].pid
  {
    var s := Run(Booted(), acts);
    hide Run, CanRun, Booted;
    PidPositive(s, t);
    if s.procs[c].parent != NO_PARENT { ParentOf(s, c); }
    hide PidsExact, Parented, WaitsInTime, Waits, Accounted;
  }

  lemma PidPositive(s: Tree, t: Tid)
    requires Inv(s) && t in s.procs
    ensures s.procs[t].pid >= 1
  {
    hide Parented, WaitsInTime, Waits, Accounted;
    assert s.procs[t].pid in s.pids;
  }

  lemma FreePidHasNoChild(s: Tree, p: int, c: Tid)
    requires Inv(s) && p != NO_PARENT && p !in s.byPid && c in s.procs
    ensures s.procs[c].parent != p
  {
    if s.procs[c].parent != NO_PARENT { ParentOf(s, c); }
  }

  /** When a pid is given back, and when it is taken again, no thread has it as its parent. */
  lemma NoStaleChildren(acts: seq<Action>, a: Action, c: Tid)
    requires CanRun(Booted(), acts)
    requires Enabled(Run(Booted(), acts), a) && c in Run(Booted(), acts).procs
    ensures var s := Run(Booted(), acts);
            && (a.TakePid? ==> s.procs[c].parent != a.pid)
            && (a.AddChild? ==> s.procs[c].parent != s.procs[a.t].pc.pid)
            && (a.GiveBack? ==> s.procs[c].parent != s.procs[a.t].pc.pid)
            && (a.KernelExit? ==> s.procs[c].parent != s.procs[a.t].pid)
  {
    var s := Run(Booted(), acts);
    hide Run, CanRun, Booted;
    if a.TakePid? {
      PidFree(s, a.pid);
      FreePidHasNoChild(s, a.pid, c);
    } else if a.AddChild? || a.GiveBack? {
      HeldPidFree(s, a.t);
      FreePidHasNoChild(s, s.procs[a.t].pc.pid, c);
    } else if a.KernelExit? {
      KernelThreadChildless(s, a.t, c);
    }
  }

  lemma PidFree(s: Tree, p: int)
    requires Inv(s) && p !in s.pids
    ensures p !in s.byPid
  {
    assert PidsExact(s);
  }

  lemma HeldPidFree(s: Tree, t: Tid)
    requires Inv(s) && t in s.procs && (s.procs[t].pc.Forking? || s.procs[t].pc.Freeing?)
    ensures s.procs[t].pc.pid !in s.byPid && s.procs[t].pc.pid >= 1
  {
    hide Indexed, Parented, WaitsInTime, Waits, Accounted;
    assert s.procs[t].pc.pid in s.held && s.procs[t].pc.pid in s.pids;
  }

  lemma KernelThreadChildless(s: Tree, t: Tid, c: Tid)
    requires Inv(s) && t in s.procs && c in s.procs && !s.procs[t].user
    ensures s.procs[c].parent != s.procs[t].pid
  {
    PidPositive(s, t);
    if s.procs[c].parent != NO_PARENT { ParentOf(s, c); }
    hide PidsExact, Parented, WaitsInTime, Waits, Accounted;
  }

  /** No WAITING parent other than init has a HANGING child. */
  lemma WaitersAreWoken(acts: seq<Action>, u: Tid, c: Tid)
    requires CanRun(Booted(), acts)
    requires var s := Run(Booted(), acts);
             && u in s.procs && c in s.procs && s.procs[u].status == Waiting && s.procs[u].pid != INIT_PID
             && s.procs[c].parent == s.procs[u].pid
    ensures Run(Booted(), acts).procs[c].status != Hanging
  {
    var s := Run(Booted(), acts);
    hide Run, CanRun, Booted;
    hide PidsExact, Waits, Accounted, Parented;
    assert s.byPid[s.procs[u].pid] == u;
  }

  /** A waiting thread has a child that can still wake it or be found. */
  lemma WaitersHaveAChild(acts: seq<Action>, u: Tid)
    requires CanRun(Booted(), acts)
    requires u in Run(Booted(), acts).procs && Run(Booted(), acts).procs[u].status == Waiting
    ensures var s := Run(Booted(), acts);
            exists c :: c in s.procs && s.procs[c].parent == s.procs[u].pid && s.procs[c].status != Died
  {
    var s := Run(Booted(), acts);
    hide Run, CanRun, Booted;
    hide PidsExact, Indexed, Accounted, Parented, WaitsInTime;
    assert WaitOk(s, s.procs[u]);
    assert s.procs[u].pc.child in s.procs;
  }

  /** A child is handed to one wait at most, which returns the exit status cut to eight bits. */
  lemma ReapedOnce(acts: seq<Action>, i: nat, j: nat)
    requires CanRun(Booted(), acts)
    requires i < |Run(Booted(), acts).log| && j < |Run(Booted(), acts).log|
    ensures var s := Run(Booted(), acts);
            && s.log[i].child in s.codes && s.log[i].status == Int8(s.codes[s.log[i].child])
            && (s.log[i].child == s.log[j].child ==> i == j)
  {
    var s := Run(Booted(), acts);
    hide Run, CanRun, Booted;
    hide PidsExact, Indexed, Waits, Parented, WaitsInTime, Int8;
    assert Recorded(s, s.log[i]);
  }

  /** The child of the record is a HANGING child of the reaper, and the pid is the child's. */
  predicate HandsOver(s: Tree, e: Reaped) {
    && e.child in s.procs && e.reaper in s.procs
    && s.procs[e.child].parent == s.procs[e.reaper].pid && s.procs[e.child].status == Hanging
    && s.procs[e.child].pid == e.pid && s.procs[e.child].exitStatus == e.status
  }

  /** Only a wait hands out a child, and only one of the caller's that hangs. */
  lemma ReapsItsChild(s: Tree, a: Action)
    requires Inv(s) && Enabled(s, a)
    ensures var log := Step(s, a).log;
            log == s.log || (a.Wait? && |log| == |s.log| + 1 && log[..|s.log|] == s.log && log[|s.log|].reaper == a.t && HandsOver(s, log[|s.log|]))
  {
    hide Indexed, PidsExact, Parented, WaitsInTime, Accounted, FirstChild, NoDup;
    if a.LeaveList? { assert WaitOk(s, s.procs[a.t]); }
    if a.Wait? {
      var h := FirstChild(s.procs, s.all, s.procs[a.t].pid, true);
      if h < |s.all| { assert s.log + [Reaped(s.all[h], a.t, s.procs[s.all[h]].pid, s.procs[s.all[h]].exitStatus)] == WaitOnce(s, a.t).log; }
    }
  }

  lemma {:induction false} LogGrows(s: Tree, acts: seq<Action>)
    requires Inv(s) && CanRun(s, acts)
    ensures s.log <= Run(s, acts).log
    decreases |acts|
  {
    hide Inv, Enabled, Step, HandsOver;
    if acts != [] {
      StepKeeps(s, acts[0]);
      ReapsItsChild(s, acts[0]);
      LogGrows(Step(s, acts[0]), acts[1..]);
    }
  }

  /** Whatever a wait returned was, when it returned, a HANGING child of the caller, with its pid and its status. */
  lemma {:induction false} ReapedFromParent(s: Tree, acts: seq<Action>, i: nat)
    requires Inv(s) && CanRun(s, acts) && |s.log| <= i < |Run(s, acts).log|
    ensures exists n :: 0 <= n < |acts| && CanRun(s, acts[..n]) && HandsOver(Run(s, acts[..n]), Run(s, acts).log[i])
    decreases |acts|
  {
    hide Inv, Enabled, Step, HandsOver;
    if acts != [] {
      var s1 := Step(s, acts[0]);
      StepKeeps(s, acts[0]);
      ReapsItsChild(s, acts[0]);
      LogGrows(s1, acts[1..]);
      if i < |s1.log| {
        assert acts[..0] == [] && CanRun(s, acts[..0]) && Run(s, acts[..0]) == s;
        assert HandsOver(Run(s, acts[..0]), Run(s, acts).log[i]);
      } else {
        ReapedFromParent(s1, acts[1..], i);
        var n :| 0 <= n < |acts[1..]| && CanRun(s1, acts[1..][..n]) && HandsOver(Run(s1, acts[1..][..n]), Run(s1, acts[1..]).log[i]);
        assert acts[..n + 1][0] == acts[0] && acts[..n + 1][1..] == acts[1..][..n];
        assert HandsOver(Run(s, acts[..n + 1]), Run(s, acts).log[i]);
      }
    }
  }

  /** A thread that called exit is either still in the list or has been handed to a wait. */
  lemma NoneForgotten(acts: seq<Action>, t: Tid)
    requires CanRun(Booted(), acts) && t in Run(Booted(), acts).codes
    ensures var s := Run(Booted(), acts);
            (t in s.procs && Ended(s.procs[t])) || t in ReapedSet(s.log)
  {
    var s := Run(Booted(), acts);
    hide Run, CanRun, Booted;
    hide PidsExact, Indexed, Waits, Parented, WaitsInTime;
  }

  // ---------------------------------------------------------------- init and the orphans that hang

  function HangingOf(s: Tree, ppid: int): set<Tid> {
    set c | c in s.procs && s.procs[c].parent == ppid && s.procs[c].status == Hanging
  }

  /** init sleeps in sys_wait although a child of it could be reaped. */
  predicate Stranded(s: Tree)
    requires Adoptive(s, INIT_PID)
  {
    s.procs[s.byPid[INIT_PID]].status == Waiting && HangingOf(s, INIT_PID) != {}
  }

  lemma InitThere(s: Tree)
    requires Inv(s)
    ensures Adoptive(s, INIT_PID)
  {
  }

  lemma BeginHanging(s: Tree, t: Tid, code: int)
    requires t in s.procs && s.procs[t].status == Live
    ensures HangingOf(Begin(s, t, code), INIT_PID) == HangingOf(s, INIT_PID) + HangingOf(s, s.procs[t].pid)
  {
  }

  /** A parent that exits while init waits hands its hanging children to init without waking it. */
  lemma BeginStrands(s: Tree, t: Tid, code: int)
    requires t in s.procs && s.procs[t].status == Live && Indexed(s) && Adoptive(s, INIT_PID) && s.procs[t].pid != INIT_PID
    ensures Adoptive(Begin(s, t, code), INIT_PID)
    ensures Stranded(Begin(s, t, code)) <==>
            s.procs[s.byPid[INIT_PID]].status == Waiting && HangingOf(s, INIT_PID) + HangingOf(s, s.procs[t].pid) != {}
  {
    BeginAdoptive(s, t, code, INIT_PID);
    BeginHanging(s, t, code);
    hide HangingOf;
    assert s.byPid[INIT_PID] != t;
  }

  /** Whoever exits towards init wakes it. */
  lemma FinishUnstrands(s: Tree, t: Tid)
    requires t in s.procs && s.procs[t].status == Live && Adoptive(s, INIT_PID) && s.byPid[INIT_PID] != t
    requires s.procs[t].parent in s.byPid && s.byPid[s.procs[t].parent] in s.procs && s.byPid[s.procs[t].parent] != t
    requires Adoptive(Finish(s, t), INIT_PID) && !Stranded(s)
    ensures !Stranded(Finish(s, t))
  {
    if s.procs[t].parent != INIT_PID {
      assert HangingOf(Finish(s, t), INIT_PID) == HangingOf(s, INIT_PID);
    }
  }

  lemma WaitUnstrands(s: Tree, t: Tid)
    requires Listed(s) && t in s.procs && s.procs[t].status == Live
    requires Adoptive(s, INIT_PID) && s.procs[s.byPid[INIT_PID]].pid == INIT_PID
    requires Adoptive(WaitOnce(s, t), INIT_PID) && !Stranded(s)
    ensures !Stranded(WaitOnce(s, t))
  {
    hide Listed;
    ListedAll(s);
    var ppid := s.procs[t].pid;
    var h, k := FirstChild(s.procs, s.all, ppid, true), FirstChild(s.procs, s.all, ppid, false);
    hide FirstChild;
    if h < |s.all| {
      assert HangingOf(Reap(s, t, s.all[h]), INIT_PID) <= HangingOf(s, INIT_PID);
    } else if k < |s.all| && ppid == INIT_PID {
      forall c | c in s.procs && s.procs[c].parent == INIT_PID ensures s.procs[c].status != Hanging {
        NoSuchChild(s, INIT_PID, true, c);
      }
      assert HangingOf(WaitOnce(s, t), INIT_PID) == {};
    } else {
      assert HangingOf(WaitOnce(s, t), INIT_PID) == HangingOf(s, INIT_PID);
    }
  }

  /** Nothing changes for init and the hanging threads. */
  predicate SameForInit(s: Tree, r: Tree) {
    && INIT_PID in s.byPid && INIT_PID in r.byPid && r.byPid[INIT_PID] == s.byPid[INIT_PID]
    && s.byPid[INIT_PID] in s.procs && s.byPid[INIT_PID] in r.procs
    && r.procs[s.byPid[INIT_PID]].status == s.procs[s.byPid[INIT_PID]].status
    && HangingOf(r, INIT_PID) == HangingOf(s, INIT_PID)
  }

  lemma ForksAreQuiet(s: Tree, t: Tid, p: int, fork: bool, c: Tid)
    requires t in s.procs && Adoptive(s, INIT_PID)
    ensures SameForInit(s, Take(s, t, p, fork))
    ensures s.procs[t].pc.Freeing? ==> SameForInit(s, Give(s, t))
    ensures s.procs[t].pc.Forking? && s.procs[t].pc.pid != INIT_PID && c !in s.procs ==> SameForInit(s, Add(s, t, c))
  {
  }

  lemma LeavesAreQuiet(s: Tree, t: Tid)
    requires t in s.procs && Adoptive(s, INIT_PID) && Indexed(s)
    ensures s.procs[t].pid != INIT_PID && s.procs[t].status == Live ==> SameForInit(s, Vanish(s, t))
    ensures (s.procs[t].pc.Reaping? && s.procs[t].pc.child in s.procs && s.procs[s.procs[t].pc.child].status == Died
             && s.procs[t].pc.child != t) ==> SameForInit(s, Leave(s, t))
  {
  }

  lemma InitIsNot(s: Tree, t: Tid)
    requires Inv(s) && t in s.procs
    ensures Adoptive(s, INIT_PID) && s.procs[s.byPid[INIT_PID]].pid == INIT_PID
    ensures s.procs[t].parent != NO_PARENT || !s.procs[t].user ==> s.procs[t].pid != INIT_PID
    ensures s.procs[t].pc.Forking? ==> s.procs[t].pc.pid != INIT_PID
    ensures s.procs[t].pc.Reaping? ==>
              && s.procs[t].pc.child in s.procs && s.procs[s.procs[t].pc.child].status == Died
              && (s.procs[t].status == Live ==> s.procs[t].pc.child != t)
  {
    if s.procs[t].pc.Forking? { HeldPidFree(s, t); }
    hide PidsExact, WaitsInTime, Accounted, Listed;
  }

  /**
   * The rule that no WAITING parent has a HANGING child fails for init only, and a step breaks it exactly
   * when it is the exit of a thread with a hanging child while init waits.
   */
  lemma StrandedExactly(s: Tree, a: Action)
    requires Inv(s) && Enabled(s, a) && Adoptive(s, INIT_PID) && !Stranded(s)
    ensures Adoptive(Step(s, a), INIT_PID)
    ensures Stranded(Step(s, a)) <==>
            a.ExitBegin? && s.procs[s.byPid[INIT_PID]].status == Waiting && HangingOf(s, s.procs[a.t].pid) != {}
  {
    hide Listed, Indexed, PidsExact, Parented, WaitsInTime, Waits, Accounted;
    hide Take, Add, Give, Leave, Begin, Finish, Vanish, WaitOnce, HangingOf;
    StepKeeps(s, a);
    InitThere(Step(s, a));
    InitIsNot(s, a.t);
    match a {
      case ExitBegin(t, code) => BeginStrands(s, t, code);
      case ExitEnd(t) => ParentThere(s, t); ParentIsNot(s, t); FinishUnstrands(s, t);
      case Wait(t) => ListedAll(s); WaitUnstrands(s, t);
      case TakePid(t, p, fork) => ForksAreQuiet(s, t, p, fork, 0);
      case AddChild(t, c) => ForksAreQuiet(s, t, 0, false, c);
      case GiveBack(t) => ForksAreQuiet(s, t, 0, false, 0);
      case LeaveList(t) => LeavesAreQuiet(s, t);
      case KernelExit(t) => LeavesAreQuiet(s, t);
    }
  }

  lemma ParentIsNot(s: Tree, t: Tid)
    requires Inv(s) && t in s.procs && Ended(s.procs[t]) && Adoptive(s, INIT_PID)
    ensures s.byPid[INIT_PID] != t
    ensures s.procs[t].parent in s.byPid && s.byPid[s.procs[t].parent] in s.procs && s.byPid[s.procs[t].parent] != t
  {
    ParentOf(s, t);
  }

  lemma {:induction false} RunOn(s: Tree, a: seq<Action>, b: seq<Action>)
    requires Inv(s) && CanRun(s, a) && CanRun(Run(s, a), b)
    ensures CanRun(s, a + b) && Run(s, a + b) == Run(Run(s, a), b)
    decreases |a|
  {
    hide Inv, Enabled, Step;
    if a == [] {
      assert a + b == b;
    } else {
      StepKeeps(s, a[0]);
      RunOn(Step(s, a[0]), a[1..], b);
      assert (a + b)[0] == a[0] && (a + b)[1..] == a[1..] + b;
    }
  }

  lemma RunOne(s: Tree, a: Action)
    requires Inv(s) && Enabled(s, a)
    ensures CanRun(s, [a]) && Run(s, [a]) == Step(s, a)
  {
    hide Inv, Enabled, Step;
    StepKeeps(s, a);
    assert CanRun(Step(s, a), []);
  }

  /** A system in which all is calm: nobody has exited and nobody is in the middle of a call. */
  predicate Quiet(s: Tree) {
    Inv(s) && s.codes == map[] && forall t :: t in s.procs ==> s.procs[t].status == Live && s.procs[t].pc == Calm
  }

  lemma Fork(s: Tree, t: Tid, p: int, c: Tid) returns (acts: seq<Action>)
    requires Quiet(s) && t in s.procs && s.procs[t].user && LowestFree(s.pids, p) && c !in s.procs
    ensures CanRun(s, acts) && Quiet(Run(s, acts))
    ensures var r := Run(s, acts);
            && r.procs.Keys == s.procs.Keys + {c} && (forall u :: u in s.procs ==> r.procs[u] == s.procs[u])
            && r.procs[c].parent == s.procs[t].pid && r.procs[c].user && r.procs[c].pid == p && r.pids == s.pids + {p}
  {
    hide Inv, Run, CanRun;
    PidPositive(s, t);
    var a, b := TakePid(t, p, true), AddChild(t, c);
    acts := [a] + [b];
    RunOne(s, a);
    StepKeeps(s, a);
    var m := Step(s, a);
    RunOne(m, b);
    StepKeeps(m, b);
    RunOn(s, [a], [b]);
    assert m == Take(s, t, p, true) && Step(m, b) == Add(m, t, c);
    assert Add(m, t, c).procs[t] == s.procs[t];
  }

  lemma SleepsNow(s: Tree, t: Tid, c: Tid)
    requires Quiet(s) && t in s.procs && c in s.procs && s.procs[c].parent == s.procs[t].pid
    ensures Enabled(s, Wait(t)) && Inv(Step(s, Wait(t)))
    ensures var r := Step(s, Wait(t));
            && r.procs.Keys == s.procs.Keys && r.procs[t].status == Waiting && r.procs[t].pid == s.procs[t].pid
            && forall u :: u in s.procs && u != t ==> r.procs[u] == s.procs[u]
  {
    hide Inv, Step;
    StepKeeps(s, Wait(t));
    WaitStep(s, t);
    ListedOf(s);
    hide NoDup;
    var i :| 0 <= i < |s.all| && s.all[i] == c;
  }

  lemma ListedOf(s: Tree)
    requires Inv(s)
    ensures Listed(s)
  {
  }

  predicate Exited(s: Tree, t: Tid, r: Tree) {
    && t in s.procs && r.procs.Keys == s.procs.Keys
    && r.procs[t].status == Hanging && r.procs[t].parent == s.procs[t].parent
    && forall v :: v in s.procs && v != t ==>
         r.procs[v] == if s.procs[v].parent == s.procs[t].pid then s.procs[v].(parent := INIT_PID) else s.procs[v]
  }

  lemma ExitIs(s: Tree, t: Tid, u: Tid)
    requires t in s.procs && u in s.procs && t != u && s.procs[t].parent == s.procs[u].pid != s.procs[t].pid
    requires s.procs[u].pid in s.byPid && s.byPid[s.procs[u].pid] == u && s.procs[u].status == Live
    ensures var m := Begin(s, t, 0);
            && t in m.procs && m.procs[t].status == s.procs[t].status && m.procs[t].pc == Exiting
            && m.procs[t].parent in m.byPid && m.byPid[m.procs[t].parent] in m.procs && Exited(s, t, Finish(m, t))
  {
  }

  /** sys_exit of a thread whose parent is not waiting. */
  lemma Exits(s: Tree, t: Tid, u: Tid) returns (acts: seq<Action>)
    requires Inv(s) && t in s.procs && u in s.procs && s.procs[t].status == Live && s.procs[t].pc == Calm && t != u
    requires s.procs[t].parent == s.procs[u].pid && s.procs[u].status == Live
    ensures CanRun(s, acts) && Exited(s, t, Run(s, acts))
  {
    hide Inv, Run, CanRun, Exited, Begin, Finish;
    PidPositive(s, u);
    PidOf(s, t);
    PidOf(s, u);
    ExitIs(s, t, u);
    var a, b := ExitBegin(t, 0), ExitEnd(t);
    acts := [a] + [b];
    RunOne(s, a);
    StepKeeps(s, a);
    var m := Step(s, a);
    RunOne(m, b);
    RunOn(s, [a], [b]);
  }

  lemma PidOf(s: Tree, t: Tid)
    requires Inv(s) && t in s.procs
    ensures s.procs[t].pid in s.byPid && s.byPid[s.procs[t].pid] == t
  {
  }

  /** init has a child, which has a child, which has a child. */
  predicate Family(s: Tree) {
    && Quiet(s) && {0, 10, 11, 12} <= s.procs.Keys
    && s.procs[0].pid == INIT_PID && s.procs[10].pid == 4 && s.procs[11].pid == 5 && s.procs[12].pid == 6
    && s.procs[10].parent == INIT_PID && s.procs[11].parent == 4 && s.procs[12].parent == 5
  }

  lemma BootedQuiet()
    ensures Quiet(Booted()) && Booted().pids == {1, 2, 3} && Booted().procs.Keys == {0, 1, 2}
    ensures Booted().procs[0].pid == INIT_PID && Booted().procs[0].user
  {
    hide Inv;
  }

  lemma FamilyArises() returns (acts: seq<Action>)
    ensures CanRun(Booted(), acts) && Family(Run(Booted(), acts))
  {
    hide Booted, Inv, Run, CanRun, Quiet;
    BootedQuiet();
    var s0 := Booted();
    var a1 := Fork(s0, 0, 4, 10);
    var s1 := Run(s0, a1);
    var a2 := Fork(s1, 10, 5, 11);
    RunOn(s0, a1, a2);
    var s2 := Run(s1, a2);
    var a3 := Fork(s2, 11, 6, 12);
    RunOn(s0, a1 + a2, a3);
    acts := a1 + a2 + a3;
  }

  lemma FamilyStrands(s: Tree) returns (acts: seq<Action>)
    requires Family(s) && Inv(s)
    ensures CanRun(s, acts) && Adoptive(Run(s, acts), INIT_PID) && Stranded(Run(s, acts))
  {
    hide Inv, Run, CanRun, Adoptive;
    SleepsNow(s, 0, 10);
    RunOne(s, Wait(0));
    var s1 := Step(s, Wait(0));
    hide Step;
    var a2 := Exits(s1, 12, 11);
    RunOn(s, [Wait(0)], a2);
    var s2 := Run(s1, a2);
    var a3 := Exits(s2, 11, 10);
    RunOn(s, [Wait(0)] + a2, a3);
    var s3 := Run(s2, a3);
    InitThere(s3);
    PidOf(s3, 0);
    assert 12 in HangingOf(s3, INIT_PID);
    acts := [Wait(0)] + a2 + a3;
  }

  /** init waits, a grandchild's child hangs, and the parent of that one exits: init sleeps on. */
  lemma InitCanMissAnOrphan()
    ensures exists acts :: CanRun(Booted(), acts) && Adoptive(Run(Booted(), acts), INIT_PID) && Stranded(Run(Booted(), acts))
  {
    var a := FamilyArises();
    var s := Run(Booted(), a);
    hide *;
    var b := FamilyStrands(s);
    RunOn(Booted(), a, b);
  }

  // ---------------------------------------------------------------- the code

  /** list_traversal with find_child or find_hanging_child; the length of the list stands for NULL. */
  method TraverseForChild(procs: map<Tid, Proc>, all: seq<Tid>, ppid: int, hanging: bool) returns (k: nat)
    requires forall t :: t in all ==> t in procs
    ensures k == FirstChild(procs, all, ppid, hanging)
  {
    k := 0;
    while k < |all|
      invariant k <= |all| && FirstChild(procs, all, ppid, hanging) == k + FirstChild(procs, all[k..], ppid, hanging)
    {
      assert all[k..][0] == all[k] && all[k..][1..] == all[k + 1..];
      if procs[all[k]].parent == ppid && (hanging ==> procs[all[k]].status == Hanging) {
        return;
      }
      k := k + 1;
    }
  }

  /** list_traversal with init_adopt_a_child, which never stops the traversal. */
  method AdoptChildren(procs: map<Tid, Proc>, all: seq<Tid>, pid: int) returns (r: map<Tid, Proc>)
    requires ListedIn(procs, all)
    ensures r == Adopt(procs, pid)
  {
    r := procs;
    var k := 0;
    while k < |all|
      invariant k <= |all| && r.Keys == procs.Keys
      invariant forall i :: 0 <= i < k ==> r[all[i]] == Adopt(procs, pid)[all[i]]
      invariant forall i :: k <= i < |all| ==> r[all[i]] == procs[all[i]]
    {
      var t := all[k];
      if r[t].parent == pid {
        r := r[t := r[t].(parent := INIT_PID)];
      }
      k := k + 1;
    }
    forall t | t in procs ensures r[t] == Adopt(procs, pid)[t] {
      var i :| 0 <= i < |all| && all[i] == t;
    }
  }

  /** pid2thread; the length of the list stands for NULL. */
  method Pid2Thread(procs: map<Tid, Proc>, all: seq<Tid>, pid: int) returns (k: nat)
    requires ListedIn(procs, all)
    ensures k <= |all| && (k < |all| ==> procs[all[k]].pid == pid)
    ensures k == |all| ==> forall t :: t in procs ==> procs[t].pid != pid
  {
    k := 0;
    while k < |all|
      invariant k <= |all| && forall i :: 0 <= i < k ==> procs[all[i]].pid != pid
    {
      if procs[all[k]].pid == pid {
        return;
      }
      k := k + 1;
    }
  }

  /** The scan of the pid bitmap in allocate_pid; when all pids are taken bitmap_scan halts. */
  method ScanPids(pids: set<int>) returns (found: bool, p: int)
    ensures found ==> LowestFree(pids, p)
    ensures !found <==> forall q :: 1 <= q <= MAX_PID ==> q in pids
  {
    p := 1;
    while p <= MAX_PID && p in pids
      invariant 1 <= p <= MAX_PID + 1 && forall q :: 1 <= q < p ==> q in pids
    {
      p := p + 1;
    }
    found := p <= MAX_PID;
  }

  class ProcessTable {
    var procs: map<Tid, Proc>
    var all: seq<Tid>
    var pids: set<int>
    ghost var byPid: map<int, Tid>
    ghost var held: map<int, Tid>
    ghost var codes: map<Tid, int>
    ghost var log: seq<Reaped>

    ghost function State(): Tree
      reads this
    {
      Tree(procs, all, pids, byPid, held, codes, log)
    }

    constructor ()
      ensures State() == Booted() && Inv(State())
    {
      procs, all, pids := Booted().procs, [0, 1, 2], {1, 2, 3};
      byPid, held, codes, log := Booted().byPid, map[], map[], [];
      new;
      BootedInv();
    }

    /** Once around the loop of sys_wait. */
    method SysWait(t: Tid)
      requires Inv(State()) && Enabled(State(), Wait(t))
      modifies this
      ensures Inv(State()) && State() == Step(old(State()), Wait(t))
    {
      hide Indexed, PidsExact, Parented, WaitsInTime, Waits, Accounted;
      StepKeeps(State(), Wait(t));
      var ppid := procs[t].pid;
      var h := TraverseForChild(procs, all, ppid, true);
      if h < |all| {
        var c := all[h];
        var x := procs[c];
        log := log + [Reaped(c, t, x.pid, x.exitStatus)];
        procs := procs[c := x.(status := Died)][t := procs[t].(pc := Reaping(c, x.pid, x.exitStatus))];
        return;
      }
      var k := TraverseForChild(procs, all, ppid, false);
      if k == |all| {
        procs := procs[t := procs[t].(pc := Calm)];
      } else {
        procs := procs[t := procs[t].(status := Waiting, pc := InWait(all[k]))];
      }
    }

    /** sys_exit up to the release of the resources. */
    method SysExit(t: Tid, code: int)
      requires Inv(State()) && Enabled(State(), ExitBegin(t, code))
      modifies this
      ensures Inv(State()) && State() == Step(old(State()), ExitBegin(t, code))
    {
      hide Indexed, PidsExact, Parented, WaitsInTime, Waits, Accounted;
      StepKeeps(State(), ExitBegin(t, code));
      codes := codes[t := code];
      var adopted := AdoptChildren(procs, all, procs[t].pid);
      procs := adopted[t := adopted[t].(exitStatus := Int8(code), pc := Exiting)];
    }

    /** The rest of sys_exit: the parent is woken if it waits, and the thread hangs. */
    method Hang(t: Tid)
      requires Inv(State()) && Enabled(State(), ExitEnd(t))
      modifies this
      ensures Inv(State()) && State() == Step(old(State()), ExitEnd(t))
    {
      hide Inv, ListedIn;
      StepKeeps(State(), ExitEnd(t));
      ListedOf(State());
      ExitEndFacts(State(), t);
      var k := Pid2Thread(procs, all, procs[t].parent);
      ParentFound(State(), t, k);
      var u := all[k];
      if procs[u].status == Waiting {
        procs := procs[u := procs[u].(status := Live)];
      }
      procs := procs[t := procs[t].(status := Hanging, pc := Calm)];
    }
  }

  lemma ExitEndFacts(s: Tree, t: Tid)
    requires Inv(s) && t in s.procs && s.procs[t].pc == Exiting
    ensures s.procs[t].parent in s.byPid && s.byPid[s.procs[t].parent] in s.procs
  {
    ParentThere(s, t);
  }

  lemma ParentFound(s: Tree, t: Tid, k: nat)
    requires Inv(s) && t in s.procs && s.procs[t].parent in s.byPid && k <= |s.all|
    requires k < |s.all| ==> s.procs[s.all[k]].pid == s.procs[t].parent
    requires k == |s.all| ==> forall u :: u in s.procs ==> s.procs[u].pid != s.procs[t].parent
    ensures k < |s.all| && s.all[k] == s.byPid[s.procs[t].parent]
  {
    hide PidsExact, Parented, WaitsInTime, Waits, Accounted;
    assert s.byPid[s.procs[t].parent] in s.procs;
  }
}
