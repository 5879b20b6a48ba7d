/** What fork, wait and exit do as whole calls, with the children of a thread taken as a set. */
module ProcessCalls {
  import opened Basics
  import opened Processes

  function Children(s: Tree, t: Tid): set<Tid>
    requires t in s.procs
  {
    set c | c in s.procs && s.procs[c].parent == s.procs[t].pid
  }

  function HangingChildren(s: Tree, t: Tid): set<Tid>
    requires t in s.procs
  {
    set c | c in Children(s, t) && s.procs[c].status == Hanging
  }

  /** r has one record more than s, of a child of t that was hanging and is now dying. */
  predicate ReapsOne(s: Tree, r: Tree, t: Tid) {
    && |r.log| == |s.log| + 1 && r.log[..|s.log|] == s.log
    && var e := r.log[|s.log|];
       && e.reaper == t && HandsOver(s, e) && e.child != t && t in s.procs
       && r.procs == s.procs[e.child := s.procs[e.child].(status := Died)]
                            [t := s.procs[t].(pc := Reaping(e.child, e.pid, e.status))]
       && r == s.(procs := r.procs, log := r.log)
  }

  /** t sleeps until a child of its wakes it, and nothing else has changed. */
  predicate SleepsOn(s: Tree, r: Tree, t: Tid) {
    && t in s.procs && t in r.procs && r.procs[t].status == Waiting
    && r == s.(procs := s.procs[t := s.procs[t].(status := Waiting, pc := r.procs[t].pc)])
  }

  /** sys_wait has returned -1, and nothing else has changed. */
  predicate ComesBack(s: Tree, r: Tree, t: Tid) {
    t in s.procs && r == s.(procs := s.procs[t := s.procs[t].(pc := Calm)])
  }

  lemma ChildSets(s: Tree, t: Tid)
    requires Listed(s) && t in s.procs
    ensures var ppid := s.procs[t].pid;
            && (forall u :: u in s.all ==> u in s.procs)
            && (FirstChild(s.procs, s.all, ppid, true) < |s.all| <==> HangingChildren(s, t) != {})
            && (FirstChild(s.procs, s.all, ppid, false) < |s.all| <==> Children(s, t) != {})
  {
    hide NoDup;
    var ppid := s.procs[t].pid;
    var h, k := FirstChild(s.procs, s.all, ppid, true), FirstChild(s.procs, s.all, ppid, false);
    if h < |s.all| { assert s.all[h] in HangingChildren(s, t); }
    if k < |s.all| { assert s.all[k] in Children(s, t); }
    forall c | c in Children(s, t) ensures k < |s.all| {
      var i :| 0 <= i < |s.all| && s.all[i] == c;
    }
    forall c | c in HangingChildren(s, t) ensures h < |s.all| {
      var i :| 0 <= i < |s.all| && s.all[i] == c;
    }
  }

  /**
   * Once around the loop of sys_wait: a child is handed out exactly when one hangs, the caller sleeps exactly when it
   * has children and none hangs, and it comes back with -1 exactly when it has none.
   */
  lemma WaitExactly(s: Tree, t: Tid)
    requires Inv(s) && Enabled(s, Wait(t))
    ensures var r := Step(s, Wait(t));
            && (ReapsOne(s, r, t) <==> HangingChildren(s, t) != {})
            && (SleepsOn(s, r, t) <==> Children(s, t) != {} && HangingChildren(s, t) == {})
            && (ComesBack(s, r, t) <==> Children(s, t) == {})
  {
    hide Indexed, PidsExact, Parented, WaitsInTime, Waits, Accounted, FirstChild, NoDup, Children, HangingChildren;
    ChildSets(s, t);
    var r := Step(s, Wait(t));
    var h := FirstChild(s.procs, s.all, s.procs[t].pid, true);
    if HangingChildren(s, t) != {} {
      assert ReapsOne(s, r, t);
    }
  }

  lemma TwoSteps(s: Tree, a: Action, b: Action)
    requires Inv(s) && Enabled(s, a)
    ensures Inv(Step(s, a))
    ensures Enabled(Step(s, a), b) ==> CanRun(s, [a, b]) && Run(s, [a, b]) == Step(Step(s, a), b) && Inv(Step(Step(s, a), b))
  {
    hide Inv, Enabled, Step;
    StepKeeps(s, a);
    var s1 := Step(s, a);
    if Enabled(s1, b) {
      StepKeeps(s1, b);
      RunOne(s, a);
      RunOne(s1, b);
      RunOn(s, [a], [b]);
      assert [a] + [b] == [a, b];
    }
  }

  /**
   * sys_wait of a thread with a child that hangs, up to its return: the child is out of the list, its pid is free, the
   * call returns that pid and the status, and no other thread has changed.
   */
  lemma WaitReaps(s: Tree, t: Tid)
    requires Inv(s) && Enabled(s, Wait(t)) && HangingChildren(s, t) != {}
    ensures var acts := [Wait(t), LeaveList(t), GiveBack(t)];
            && CanRun(s, acts)
            && var r := Run(s, acts);
               && |r.log| == |s.log| + 1 && r.log[..|s.log|] == s.log
               && var e := r.log[|s.log|];
                  && e.reaper == t && e.child in HangingChildren(s, t) && HandsOver(s, e)
                  && r.procs == s.procs[t := s.procs[t].(pc := Calm)] - {e.child} && e.child !in r.all
                  && r.pids == s.pids - {e.pid}
  {
    hide Inv, CanRun, Run, Step, HangingChildren, HandsOver, Children;
    WaitExactly(s, t);
    StepKeeps(s, Wait(t));
    var s1 := Step(s, Wait(t));
    var e := s1.log[|s.log|];
    HandedIs(s, e, t);
    LeaveThenGive(s1, t, e);
    TwoSteps(s1, LeaveList(t), GiveBack(t));
    RunOne(s, Wait(t));
    RunOn(s, [Wait(t)], [LeaveList(t), GiveBack(t)]);
    assert [Wait(t)] + [LeaveList(t), GiveBack(t)] == [Wait(t), LeaveList(t), GiveBack(t)];
    var r := Step(Step(s1, LeaveList(t)), GiveBack(t));
    assert r.procs == s.procs[t := s.procs[t].(pc := Calm)] - {e.child};
  }

  lemma HandedIs(s: Tree, e: Reaped, t: Tid)
    requires HandsOver(s, e) && e.reaper == t
    ensures t in s.procs && e.child in HangingChildren(s, t) && e.child in s.procs
  {
  }

  lemma ReapingChild(s: Tree, t: Tid)
    requires Inv(s) && t in s.procs && s.procs[t].status == Live && s.procs[t].pc.Reaping?
    ensures s.procs[t].pc.child in s.procs && s.procs[t].pc.child != t && Listed(s)
  {
    hide Listed, Indexed, PidsExact, Parented, WaitsInTime, Accounted;
    assert WaitOk(s, s.procs[t]);
  }

  lemma LeaveEffect(s: Tree, t: Tid)
    requires t in s.procs && s.procs[t].pc.Reaping? && s.procs[t].pc.child in s.procs && s.procs[t].pc.child != t && Listed(s)
    ensures var r, x := Leave(s, t), s.procs[t].pc;
            && r.log == s.log && r.procs == (s.procs - {x.child})[t := s.procs[t].(pc := Freeing(x.pid, x.status))]
            && x.child !in r.all && r.pids == s.pids
  {
    hide NoDup, Without;
    WithoutIs(s.all, s.procs[t].pc.child);
  }

  lemma StepsAre(s: Tree, t: Tid)
    requires Inv(s)
    ensures Enabled(s, LeaveList(t)) ==> t in s.procs && s.procs[t].pc.Reaping? && s.procs[t].pc.child in s.procs && Step(s, LeaveList(t)) == Leave(s, t)
    ensures Enabled(s, GiveBack(t)) ==> t in s.procs && s.procs[t].pc.Freeing? && Step(s, GiveBack(t)) == Give(s, t)
  {
    hide Listed, Indexed, PidsExact, Parented, WaitsInTime, Accounted, Leave, Give;
  }

  /** The two steps of thread_exit for the child. */
  lemma LeaveThenGive(s: Tree, t: Tid, e: Reaped)
    requires Inv(s) && t in s.procs && s.procs[t].status == Live && s.procs[t].pc == Reaping(e.child, e.pid, e.status)
    ensures Enabled(s, LeaveList(t)) && Enabled(Step(s, LeaveList(t)), GiveBack(t)) && Inv(Step(s, LeaveList(t)))
    ensures e.child in s.procs && e.child != t
    ensures var r := Step(Step(s, LeaveList(t)), GiveBack(t));
            && r.log == s.log && r.procs == (s.procs - {e.child})[t := s.procs[t].(pc := Calm)]
            && e.child !in r.all && r.pids == s.pids - {e.pid}
  {
    hide Inv, Step, Leave, Listed;
    ReapingChild(s, t);
    StepKeeps(s, LeaveList(t));
    StepsAre(s, t);
    LeaveEffect(s, t);
    StepsAre(Step(s, LeaveList(t)), t);
  }

  /**
   * sys_exit, up to the state in which the parent can find it: the thread hangs with its status cut to eight bits, init
   * has its children, and the parent runs if it was waiting. Everything else is as it was.
   */
  lemma ExitHangs(s: Tree, t: Tid, code: int)
    requires Inv(s) && Enabled(s, ExitBegin(t, code))
    ensures var acts := [ExitBegin(t, code), ExitEnd(t)];
            CanRun(s, acts) && Exited(s, Run(s, acts), t, code)
  {
    hide Inv, CanRun, Run, Int8, Step, Begin, Finish, Exited;
    StepKeeps(s, ExitBegin(t, code));
    BeginIs(s, t, code);
    var s1 := Step(s, ExitBegin(t, code));
    TwoSteps(s, ExitBegin(t, code), ExitEnd(t));
    FinishIs(s1, t);
    ExitEffect(s, t, code);
  }

  predicate Exited(s: Tree, r: Tree, t: Tid, code: int) {
    && t in s.procs && r.procs.Keys == s.procs.Keys && r.all == s.all && r.pids == s.pids && r.log == s.log
    && r.procs[t].status == Hanging && r.procs[t].exitStatus == Int8(code) && r.procs[t].pid == s.procs[t].pid
    && (forall u :: u in s.procs ==> r.procs[u].parent == if u in Children(s, t) then INIT_PID else s.procs[u].parent)
    && (forall u :: u in s.procs && u != t ==> OnlyWoken(s.procs[u], r.procs[u], r.procs[t].parent))
  }

  /** Apart from its parent, the thread is as before, but that the one with pid ppid no longer waits. */
  predicate OnlyWoken(x: Proc, y: Proc, ppid: int) {
    y == x.(parent := y.parent, status := if x.status == Waiting && x.pid == ppid then Live else x.status)
  }

  lemma BeginIs(s: Tree, t: Tid, code: int)
    requires Inv(s) && Enabled(s, ExitBegin(t, code))
    ensures t in s.procs && Indexed(s) && Step(s, ExitBegin(t, code)) == Begin(s, t, code)
    ensures Enabled(Begin(s, t, code), ExitEnd(t))
  {
    hide Listed, Indexed, PidsExact, Parented, WaitsInTime, Waits, Accounted, Int8;
  }

  lemma FinishIs(s: Tree, t: Tid)
    requires Inv(s) && Enabled(s, ExitEnd(t))
    ensures s.procs[t].parent in s.byPid && s.byPid[s.procs[t].parent] in s.procs && Step(s, ExitEnd(t)) == Finish(s, t)
    ensures s.byPid[s.procs[t].parent] != t && Indexed(s)
  {
    hide Listed, PidsExact, WaitsInTime, Waits, Accounted, Finish;
    ParentThere(s, t);
  }

  /** What the adoption and the wake-up make of thread u. */
  lemma ExitAt(s: Tree, t: Tid, code: int, u: Tid)
    requires t in s.procs && u in s.procs
    requires var s1 := Begin(s, t, code);
             && s1.procs[t].parent in s1.byPid && s1.byPid[s1.procs[t].parent] in s1.procs
             && s1.byPid[s1.procs[t].parent] != t && Indexed(s1)
    ensures var r := Finish(Begin(s, t, code), t);
            && u in r.procs && t in r.procs && r.procs[t].parent == Begin(s, t, code).procs[t].parent
            && r.procs[u].parent == (if u in Children(s, t) then INIT_PID else s.procs[u].parent)
            && (u != t ==> OnlyWoken(s.procs[u], r.procs[u], r.procs[t].parent))
  {
    hide Int8;
  }

  lemma ExitEffect(s: Tree, t: Tid, code: int)
    requires t in s.procs
    requires var s1 := Begin(s, t, code);
             && s1.procs[t].parent in s1.byPid && s1.byPid[s1.procs[t].parent] in s1.procs
             && s1.byPid[s1.procs[t].parent] != t && Indexed(s1)
    ensures Exited(s, Finish(Begin(s, t, code), t), t, code)
  {
    hide Int8, OnlyWoken, Children, Indexed;
    var r := Finish(Begin(s, t, code), t);
    forall u | u in s.procs
      ensures u in r.procs && r.procs[u].parent == (if u in Children(s, t) then INIT_PID else s.procs[u].parent)
      ensures u != t ==> OnlyWoken(s.procs[u], r.procs[u], r.procs[t].parent)
    {
      ExitAt(s, t, code, u);
    }
  }

  /**
   * sys_fork, as far as the process tree goes: the child is at the end of the list, alive, with the lowest free pid and
   * the caller as its parent; the caller and all others are as they were.
   */
  lemma ForkAdds(s: Tree, t: Tid, p: int, c: Tid)
    requires Inv(s) && Enabled(s, TakePid(t, p, true)) && c !in s.procs && c !in s.codes
    ensures var acts := [TakePid(t, p, true), AddChild(t, c)];
            && CanRun(s, acts)
            && var r := Run(s, acts);
               && (forall q :: 1 <= q < p ==> q in s.pids) && p !in s.pids && r.pids == s.pids + {p}
               && r.all == s.all + [c] && r.log == s.log
               && r.procs == s.procs[c := Proc(p, s.procs[t].pid, Live, s.procs[t].exitStatus, true, Calm)]
  {
    hide Inv, CanRun, Run, Step;
    TakeIs(s, t, p);
    TwoSteps(s, TakePid(t, p, true), AddChild(t, c));
    AddIs(Step(s, TakePid(t, p, true)), t, c);
    NotNoParent(s, t);
    assert s.procs[t := s.procs[t]] == s.procs;
  }

  lemma TakeIs(s: Tree, t: Tid, p: int)
    requires Inv(s) && Enabled(s, TakePid(t, p, true))
    ensures Step(s, TakePid(t, p, true)) == Take(s, t, p, true)
  {
    hide Listed, Indexed, PidsExact, Parented, WaitsInTime, Waits, Accounted, Take;
  }

  lemma AddIs(s: Tree, t: Tid, c: Tid)
    requires Inv(s) && Enabled(s, AddChild(t, c))
    ensures Step(s, AddChild(t, c)) == Add(s, t, c)
  {
    hide Listed, Indexed, PidsExact, Parented, WaitsInTime, Waits, Accounted, Add;
  }

  /** -1 is no pid. */
  lemma NotNoParent(s: Tree, t: Tid)
    requires Inv(s) && t in s.procs
    ensures s.procs[t].pid != NO_PARENT
  {
    hide Listed, Parented, WaitsInTime, Waits, Accounted;
    assert s.procs[t].pid in s.pids;
  }
}
