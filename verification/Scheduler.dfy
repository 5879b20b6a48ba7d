/** Threads, the ready list and the scheduler of thread/thread.c, and the timer's time slices. */
module Scheduler {
  import opened Basics

  type Tid = nat

  datatype Status = Running | Ready | Blocked | Waiting | Hanging {
    /** The three states that thread_block accepts and thread_unblock asks for. */
    predicate Asleep() { Blocked? || Waiting? || Hanging? }
  }

  datatype Thread = Thread(status: Status, ticks: nat, priority: nat)

  datatype Sched = Sched(threads: map<Tid, Thread>, ready: seq<Tid>, cur: Tid, idle: Tid)

  function With(s: Sched, t: Tid, st: Status): Sched
    requires t in s.threads
  {
    s.(threads := s.threads[t := s.threads[t].(status := st)])
  }

  /** The ready list holds each READY thread exactly once and nothing else. */
  predicate ReadyExact(s: Sched) {
    && NoDup(s.ready)
    && (forall t :: t in s.ready ==> t in s.threads && s.threads[t].status == Ready)
    && (forall t :: t in s.threads && s.threads[t].status == Ready ==> t in s.ready)
  }

  /** What schedule needs: nobody but the current thread can be RUNNING, and idle only ever waits to be needed. */
  predicate Schedulable(s: Sched) {
    && ReadyExact(s)
    && (forall t :: t in s.threads && s.threads[t].status == Running ==> t == s.cur)
    && (forall t :: t in s.threads ==> s.threads[t].ticks <= s.threads[t].priority)
    && s.idle in s.threads && !s.threads[s.idle].status.Waiting? && !s.threads[s.idle].status.Hanging?
  }

  /** Between operations exactly one thread, the current one, is RUNNING. */
  predicate SchedOk(s: Sched) {
    Schedulable(s) && s.cur in s.threads && s.threads[s.cur].status == Running
  }

  // ---------------------------------------------------------------- the operations on values
  // Each ASSERT of the source is a precondition, so that using the function proves that it cannot fire.

  function Unblock(s: Sched, t: Tid): Sched
    requires t in s.threads && s.threads[t].status.Asleep() && t !in s.ready
  {
    With(s, t, Ready).(ready := [t] + s.ready)
  }

  /** The time slice is over: to the back of the list with a full slice. */
  function PutBack(s: Sched): Sched
    requires s.cur in s.threads && s.cur !in s.ready
  {
    var th := s.threads[s.cur];
    s.(threads := s.threads[s.cur := Thread(Ready, th.priority, th.priority)], ready := s.ready + [s.cur])
  }

  function Dispatch(s: Sched): Sched
    requires s.ready != [] && s.ready[0] in s.threads
  {
    With(s, s.ready[0], Running).(ready := s.ready[1..], cur := s.ready[0])
  }

  function Preempted(s: Sched): Sched
    requires Schedulable(s)
  {
    if s.cur in s.threads && s.threads[s.cur].status == Running then PutBack(s) else s
  }

  /** The list as schedule leaves it for list_pop. */
  function Refilled(s: Sched): Sched
    requires Schedulable(s)
  {
    PreemptedKeeps(s);
    var s1 := Preempted(s);
    if s1.ready == [] then Unblock(s1, s.idle) else s1
  }

  function Schedule(s: Sched): Sched
    requires Schedulable(s)
  {
    RefilledKeeps(s);
    Dispatch(Refilled(s))
  }

  function Block(s: Sched, st: Status): Sched
    requires SchedOk(s) && st.Asleep() && (s.cur == s.idle ==> st == Blocked)
  {
    BlockSchedulable(s, st);
    Schedule(With(s, s.cur, st))
  }

  function Yield(s: Sched): Sched
    requires SchedOk(s)
  {
    YieldSchedulable(s);
    Schedule(With(s, s.cur, Ready).(ready := s.ready + [s.cur]))
  }

  function Tick(s: Sched): Sched
    requires SchedOk(s)
  {
    var th := s.threads[s.cur];
    if th.ticks == 0 then Schedule(s) else s.(threads := s.threads[s.cur := th.(ticks := th.ticks - 1)])
  }

  function Start(s: Sched, t: Tid, priority: nat): Sched
    requires t !in s.threads && t !in s.ready
  {
    s.(threads := s.threads[t := Thread(Ready, priority, priority)], ready := s.ready + [t])
  }

  function Gone(s: Sched, t: Tid): Sched {
    s.(threads := s.threads - {t}, ready := Without(s.ready, t))
  }

  /** thread_exit; the PCB of t is no longer a thread. */
  function Exit(s: Sched, t: Tid): Sched
    requires SchedOk(s) && t in s.threads && t != s.idle
  {
    GoneSchedulable(s, t);
    if t == s.cur then Schedule(Gone(s, t)) else Gone(s, t)
  }

  // ---------------------------------------------------------------- what the operations keep

  /** Nothing but the idle thread is put to sleep or woken by a switch. */
  predicate SleepersKept(s: Sched, r: Sched) {
    && r.threads.Keys == s.threads.Keys && r.idle == s.idle
    && forall t :: t in s.threads && t != s.idle ==>
         if s.threads[t].status.Asleep() then r.threads[t] == s.threads[t] else !r.threads[t].status.Asleep()
  }

  predicate NoneRunning(s: Sched) {
    forall t :: t in s.threads ==> s.threads[t].status != Running
  }

  lemma PreemptedKeeps(s: Sched)
    requires Schedulable(s)
    ensures Schedulable(Preempted(s)) && NoneRunning(Preempted(s)) && SleepersKept(s, Preempted(s))
    ensures Preempted(s).threads[s.idle].status == s.threads[s.idle].status || Preempted(s).ready != []
  {
    var r := Preempted(s);
    if s.cur in s.threads && s.threads[s.cur].status == Running {
      assert r.ready[|s.ready|] == s.cur && r.ready[..|s.ready|] == s.ready;
    }
  }

  /** Whenever the list is empty as schedule looks at it, idle is BLOCKED and can be woken. */
  lemma IdleIsBlocked(s: Sched)
    requires Schedulable(s) && NoneRunning(s) && s.ready == []
    ensures s.threads[s.idle].status == Blocked
  {
    NotReadyIn(s, s.idle);
  }

  lemma NotReadyIn(s: Sched, t: Tid)
    requires ReadyExact(s) && t in s.threads && t !in s.ready
    ensures s.threads[t].status != Ready
  {
  }

  /** list_pop never finds an empty list. */
  lemma RefilledKeeps(s: Sched)
    requires Schedulable(s)
    ensures Schedulable(Refilled(s)) && NoneRunning(Refilled(s)) && SleepersKept(s, Refilled(s))
    ensures Refilled(s).ready != []
  {
    PreemptedKeeps(s);
    var s1 := Preempted(s);
    hide Preempted;
    if s1.ready == [] {
      IdleIsBlocked(s1);
      assert Unblock(s1, s.idle).ready == [s.idle];
    }
  }

  lemma DispatchKeeps(s: Sched)
    requires Schedulable(s) && s.ready != [] && NoneRunning(s)
    ensures SchedOk(Dispatch(s)) && SleepersKept(s, Dispatch(s))
  {
    TailOf(s.ready);
    hide NoDup;
  }

  /** schedule always finds a thread and leaves exactly one RUNNING. */
  lemma ScheduleKeeps(s: Sched)
    requires Schedulable(s)
    ensures SchedOk(Schedule(s)) && SleepersKept(s, Schedule(s))
  {
    hide Dispatch, ReadyExact, Refilled;
    RefilledKeeps(s);
    DispatchKeeps(Refilled(s));
  }

  lemma BlockSchedulable(s: Sched, st: Status)
    requires SchedOk(s) && st.Asleep() && (s.cur == s.idle ==> st == Blocked)
    ensures Schedulable(With(s, s.cur, st))
  {
  }

  lemma YieldSchedulable(s: Sched)
    requires SchedOk(s)
    ensures Schedulable(With(s, s.cur, Ready).(ready := s.ready + [s.cur]))
  {
    var r := With(s, s.cur, Ready).(ready := s.ready + [s.cur]);
    assert r.ready[|s.ready|] == s.cur && r.ready[..|s.ready|] == s.ready;
  }

  lemma BlockKeeps(s: Sched, st: Status)
    requires SchedOk(s) && st.Asleep() && (s.cur == s.idle ==> st == Blocked)
    ensures SchedOk(Block(s, st)) && SleepersKept(With(s, s.cur, st), Block(s, st))
  {
    BlockSchedulable(s, st);
    ScheduleKeeps(With(s, s.cur, st));
  }

  lemma YieldKeeps(s: Sched)
    requires SchedOk(s)
    ensures SchedOk(Yield(s)) && SleepersKept(s, Yield(s))
  {
    YieldSchedulable(s);
    ScheduleKeeps(With(s, s.cur, Ready).(ready := s.ready + [s.cur]));
  }

  lemma UnblockKeeps(s: Sched, t: Tid)
    requires SchedOk(s) && t in s.threads && s.threads[t].status.Asleep()
    ensures t !in s.ready && SchedOk(Unblock(s, t))
  {
    var r := Unblock(s, t);
    assert r.ready[1..] == s.ready && r.ready[0] == t;
  }

  /** A thread that is woken is the next to run, whether the caller gives way or its slice ends. */
  lemma WokenRunsNext(s: Sched, t: Tid)
    requires SchedOk(s) && t in s.threads && s.threads[t].status.Asleep()
    ensures t !in s.ready && SchedOk(Unblock(s, t)) && Yield(Unblock(s, t)).cur == t
    ensures s.threads[s.cur].ticks == 0 ==> Tick(Unblock(s, t)).cur == t
  {
    UnblockKeeps(s, t);
    var r := Unblock(s, t);
    YieldSchedulable(r);
    PreemptedKeeps(r);
    PreemptedKeeps(With(r, r.cur, Ready).(ready := r.ready + [r.cur]));
    hide ReadyExact;
    assert (r.ready + [r.cur])[0] == t;
  }

  lemma TickKeeps(s: Sched)
    requires SchedOk(s)
    ensures SchedOk(Tick(s)) && SleepersKept(s, Tick(s))
  {
    if s.threads[s.cur].ticks == 0 { ScheduleKeeps(s); }
  }

  lemma StartKeeps(s: Sched, t: Tid, priority: nat)
    requires SchedOk(s) && t !in s.threads
    ensures t !in s.ready && SchedOk(Start(s, t, priority))
  {
    var r := Start(s, t, priority);
    assert r.ready[|s.ready|] == t && r.ready[..|s.ready|] == s.ready;
  }

  lemma GoneSchedulable(s: Sched, t: Tid)
    requires SchedOk(s) && t in s.threads && t != s.idle
    ensures Schedulable(Gone(s, t))
  {
    WithoutIs(s.ready, t);
  }

  lemma ExitKeeps(s: Sched, t: Tid)
    requires SchedOk(s) && t in s.threads && t != s.idle
    ensures SchedOk(Exit(s, t)) && SleepersKept(Gone(s, t), Exit(s, t))
  {
    GoneSchedulable(s, t);
    if t == s.cur { ScheduleKeeps(Gone(s, t)); }
  }

  const INIT: Tid := 0
  const MAIN: Tid := 1
  const IDLE: Tid := 2

  /** What thread_init leaves: init and idle are ready, main runs. */
  function Boot(): (s: Sched)
    ensures SchedOk(s)
  {
    Sched(map[INIT := Thread(Ready, 31, 31), MAIN := Thread(Running, 31, 31), IDLE := Thread(Ready, 10, 10)],
          [INIT, IDLE], MAIN, IDLE)
  }

  // ---------------------------------------------------------------- the scheduler's variables

  class Kernel {
    var threads: map<Tid, Thread>
    var ready: seq<Tid>
    var cur: Tid
    const idle: Tid

    constructor ()
      ensures State() == Boot()
    {
      threads, ready, cur, idle := Boot().threads, [INIT, IDLE], MAIN, IDLE;
    }

    function State(): Sched
      reads this
    {
      Sched(threads, ready, cur, idle)
    }

    method SetStatus(t: Tid, st: Status)
      requires t in threads
      modifies this`threads
      ensures State() == With(old(State()), t, st)
    {
      threads := threads[t := threads[t].(status := st)];
    }

    /** The caller, and not this method, has made the current thread fit to be switched out. */
    method Reschedule()
      requires Schedulable(State())
      modifies this`threads, this`ready, this`cur
      ensures SchedOk(State()) && State() == Schedule(old(State()))
    {
      hide ReadyExact;
      PreemptedKeeps(State());
      RefilledKeeps(State());
      ScheduleKeeps(State());
      if cur in threads && threads[cur].status == Running {
        NotReady(State(), cur);
        ready := ready + [cur];
        threads := threads[cur := Thread(Ready, threads[cur].priority, threads[cur].priority)];
      }
      if ready == [] {
        IdleIsBlocked(State());
        Wake(idle);
      }
      var next := ready[0];
      ready := ready[1..];
      SetStatus(next, Running);
      cur := next;
    }

    method Wake(t: Tid)
      requires t in threads && threads[t].status.Asleep() && t !in ready
      modifies this`threads, this`ready
      ensures State() == Unblock(old(State()), t)
    {
      ready := [t] + ready;
      SetStatus(t, Ready);
    }

    method ThreadBlock(st: Status)
      requires SchedOk(State()) && st.Asleep() && (cur == idle ==> st == Blocked)
      modifies this`threads, this`ready, this`cur
      ensures SchedOk(State()) && State() == Block(old(State()), st)
    {
      BlockSchedulable(State(), st);
      SetStatus(cur, st);
      Reschedule();
    }

    method ThreadUnblock(t: Tid)
      requires SchedOk(State()) && t in threads && threads[t].status.Asleep()
      modifies this`threads, this`ready
      ensures SchedOk(State()) && t !in old(ready) && State() == Unblock(old(State()), t)
    {
      UnblockKeeps(State(), t);
      Wake(t);
    }

    method ThreadYield()
      requires SchedOk(State())
      modifies this`threads, this`ready, this`cur
      ensures SchedOk(State()) && State() == Yield(old(State()))
    {
      NotReady(State(), cur);
      YieldSchedulable(State());
      ready := ready + [cur];
      SetStatus(cur, Ready);
      Reschedule();
    }

    method ThreadStart(t: Tid, priority: nat)
      requires SchedOk(State()) && t !in threads
      modifies this`threads, this`ready
      ensures SchedOk(State()) && State() == Start(old(State()), t, priority)
    {
      StartKeeps(State(), t, priority);
      threads := threads[t := Thread(Ready, priority, priority)];
      ready := ready + [t];
    }

    method ThreadExit(t: Tid)
      requires SchedOk(State()) && t in threads && t != idle
      modifies this`threads, this`ready, this`cur
      ensures SchedOk(State()) && State() == Exit(old(State()), t)
    {
      ExitKeeps(State(), t);
      GoneSchedulable(State(), t);
      ready := Unlink(ready, t);
      threads := threads - {t};
      if t == cur {
        Reschedule();
      }
    }

    /** The handler of the timer interrupt. */
    method TimerInterrupt()
      requires SchedOk(State())
      modifies this`threads, this`ready, this`cur
      ensures SchedOk(State()) && State() == Tick(old(State()))
    {
      TickKeeps(State());
      if threads[cur].ticks == 0 {
        Reschedule();
      } else {
        threads := threads[cur := threads[cur].(ticks := threads[cur].ticks - 1)];
      }
    }
  }

  lemma NotReady(s: Sched, t: Tid)
    requires ReadyExact(s) && t in s.threads && s.threads[t].status != Ready
    ensures t !in s.ready
  {
  }

  // ---------------------------------------------------------------- round robin

  function Ticks(s: Sched, n: nat): (r: Sched)
    requires SchedOk(s)
    ensures SchedOk(r)
    decreases n
  {
    if n == 0 then s else
    TickKeeps(s);
    Ticks(Tick(s), n - 1)
  }

  /** Interrupts until the first k threads of the list have each used up what they have. */
  function Slices(s: Sched, k: nat): nat
    requires k <= |s.ready| && forall t :: t in s.ready ==> t in s.threads
  {
    if k == 0 then 0 else Slices(s, k - 1) + s.threads[s.ready[k - 1]].ticks + 1
  }

  /** When the thread at place k of the list gets the processor, counted in timer interrupts. */
  function Turn(s: Sched, k: nat): nat
    requires SchedOk(s) && k < |s.ready|
  {
    s.threads[s.cur].ticks + 1 + Slices(s, k)
  }

  lemma {:induction false} SlicesSame(s: Sched, r: Sched, k: nat)
    requires k <= |s.ready| && (forall t :: t in s.ready ==> t in s.threads)
    requires r.ready == s.ready && forall t :: t in s.ready ==> t in r.threads && r.threads[t] == s.threads[t]
    ensures Slices(r, k) == Slices(s, k)
  {
    if k > 0 { SlicesSame(s, r, k - 1); }
  }

  /** The list moves up by one place. */
  lemma {:induction false} SlicesShift(s: Sched, r: Sched, k: nat)
    requires 0 < k <= |s.ready| <= |r.ready| && (forall t :: t in s.ready ==> t in s.threads)
    requires forall t :: t in r.ready ==> t in r.threads
    requires forall i :: 0 < i < |s.ready| ==> r.ready[i - 1] == s.ready[i] && r.threads[s.ready[i]].ticks == s.threads[s.ready[i]].ticks
    ensures Slices(s, k) == s.threads[s.ready[0]].ticks + 1 + Slices(r, k - 1)
  {
    if k > 1 {
      SlicesShift(s, r, k - 1);
      assert r.ready[k - 2] == s.ready[k - 1];
    } else {
      assert Slices(s, 0) == 0;
    }
  }

  /** The head of the list runs, the thread that ran is last on it with so many ticks, and the others are as they were. */
  predicate MovesOn(s: Sched, r: Sched, ticks: nat)
    requires s.ready != []
  {
    && r.cur == s.ready[0] && r.ready == s.ready[1..] + [s.cur] && r.threads.Keys == s.threads.Keys && r.idle == s.idle
    && forall t :: t in s.threads ==>
         r.threads[t] == if t == s.cur then Thread(Ready, ticks, s.threads[t].priority)
                         else if t == s.ready[0] then s.threads[t].(status := Running)
                         else s.threads[t]
  }

  /** The slice of the current thread is over: it goes to the back with a full slice, or goes on with one if it is alone. */
  lemma Rotates(s: Sched)
    requires SchedOk(s) && s.threads[s.cur].ticks == 0
    ensures s.ready != [] ==> MovesOn(s, Tick(s), s.threads[s.cur].priority)
    ensures s.ready == [] ==>
              Tick(s) == s.(threads := s.threads[s.cur := Thread(Running, s.threads[s.cur].priority, s.threads[s.cur].priority)])
  {
    PreemptedKeeps(s);
    NotReady(s, s.cur);
    if s.ready != [] {
      assert (s.ready + [s.cur])[1..] == s.ready[1..] + [s.cur];
    } else {
      assert (s.ready + [s.cur])[1..] == [];
    }
  }

  /** thread_yield: to the back with the rest of its slice; nothing changes for a thread that is alone. */
  lemma YieldGoesBack(s: Sched)
    requires SchedOk(s)
    ensures s.ready != [] ==> MovesOn(s, Yield(s), s.threads[s.cur].ticks)
    ensures s.ready == [] ==> Yield(s) == s
  {
    YieldSchedulable(s);
    NotReady(s, s.cur);
    var r := With(s, s.cur, Ready).(ready := s.ready + [s.cur]);
    PreemptedKeeps(r);
    if s.ready != [] {
      assert r.ready[1..] == s.ready[1..] + [s.cur];
    } else {
      assert r.ready[1..] == [];
      assert Yield(s).threads == s.threads;
    }
  }

  predicate SameTicks(s: Sched, r: Sched, t: Tid) {
    t in s.threads && t in r.threads && r.threads[t].ticks == s.threads[t].ticks && r.threads[t].priority == s.threads[t].priority
  }

  /**
   * Over a run of timer interrupts alone, the thread at place k of the ready list first runs after exactly
   * the rest of the current slice and the slices of those before it, and it still has the ticks it had.
   */
  lemma {:induction false} RoundRobin(s: Sched, k: nat, n: nat)
    requires SchedOk(s) && k < |s.ready| && n <= Turn(s, k)
    ensures Ticks(s, n).cur == s.ready[k] <==> n == Turn(s, k)
    ensures SameTicks(s, Ticks(s, n), s.ready[k])
    decreases n
  {
    NotReady(s, s.cur);
    if n > 0 {
      TickKeeps(s);
      if s.threads[s.cur].ticks > 0 {
        SlicesSame(s, Tick(s), k);
        RoundRobin(Tick(s), k, n - 1);
      } else {
        Rotates(s);
        NextTurn(s, k, n);
      }
    }
  }

  lemma ReadyKnown(s: Sched)
    requires SchedOk(s)
    ensures forall t :: t in s.ready ==> t in s.threads
  {
  }

  /** The others have moved up by one place with the ticks they had. */
  lemma MovesUp(s: Sched, r: Sched, ticks: nat)
    requires s.ready != [] && MovesOn(s, r, ticks) && s.cur !in s.ready && forall t :: t in s.ready ==> t in s.threads
    ensures |r.ready| == |s.ready| && r.ready[|s.ready| - 1] == s.cur
    ensures forall t :: t in s.ready ==> SameTicks(s, r, t)
    ensures forall i :: 0 < i < |s.ready| ==> r.ready[i - 1] == s.ready[i] && r.threads[s.ready[i]].ticks == s.threads[s.ready[i]].ticks
  {
    forall i | 0 < i < |s.ready| ensures r.ready[i - 1] == s.ready[i] && r.threads[s.ready[i]].ticks == s.threads[s.ready[i]].ticks {
      assert s.ready[i] in s.ready;
    }
  }

  lemma HeadRuns(s: Sched, r: Sched, ticks: nat)
    requires s.ready != [] && MovesOn(s, r, ticks)
    ensures r.cur == s.ready[0]
  {
  }

  lemma CurNotReady(s: Sched)
    requires SchedOk(s)
    ensures s.cur !in s.ready
  {
    NotReady(s, s.cur);
  }

  lemma {:induction false} NextTurn(s: Sched, k: nat, n: nat)
    requires SchedOk(s) && k < |s.ready| && 0 < n <= Turn(s, k) && s.threads[s.cur].ticks == 0
    ensures Ticks(s, n).cur == s.ready[k] <==> n == Turn(s, k)
    ensures SameTicks(s, Ticks(s, n), s.ready[k])
    decreases n, 0
  {
    hide Tick, Schedulable, MovesOn;
    TickKeeps(s);
    Rotates(s);
    var r := Tick(s);
    ReadyKnown(s);
    ReadyKnown(r);
    CurNotReady(s);
    MovesUp(s, r, s.threads[s.cur].priority);
    HeadRuns(s, r, s.threads[s.cur].priority);
    if k == 0 {
      assert Ticks(r, 0).cur == s.ready[0];
    } else {
      SlicesShift(s, r, k);
      RoundRobin(r, k - 1, n - 1);
    }
  }

  lemma {:induction false} TicksAdd(s: Sched, a: nat, b: nat)
    requires SchedOk(s)
    ensures Ticks(s, a + b) == Ticks(Ticks(s, a), b)
    decreases a
  {
    hide SchedOk;
    if a > 0 {
      TickKeeps(s);
      TicksAdd(Tick(s), a - 1, b);
    }
  }

  /** While the slice lasts the thread goes on, and nothing changes but its ticks. */
  lemma {:induction false} TicksDown(s: Sched, n: nat)
    requires SchedOk(s) && n <= s.threads[s.cur].ticks
    ensures var th := s.threads[s.cur]; Ticks(s, n) == s.(threads := s.threads[s.cur := th.(ticks := th.ticks - n)])
    decreases n
  {
    hide Schedulable;
    TickKeeps(s);
    if n > 0 {
      TicksDown(Tick(s), n - 1);
    } else {
      assert s.threads == s.threads[s.cur := s.threads[s.cur]];
    }
  }

  /** The state in which the current thread has just been switched out. */
  lemma SliceEnds(s: Sched)
    requires SchedOk(s) && s.ready != []
    ensures MovesOn(s, Ticks(s, s.threads[s.cur].ticks + 1), s.threads[s.cur].priority)
  {
    hide Tick, Schedulable, MovesOn;
    var n := s.threads[s.cur].ticks;
    TicksDown(s, n);
    TicksAdd(s, n, 1);
    var s0 := Ticks(s, n);
    Rotates(s0);
    TickKeeps(s0);
    assert Ticks(s0, 1) == Ticks(Tick(s0), 0);
    CurNotReady(s);
    MovesOnLater(s, s0, Tick(s0), s.threads[s.cur].priority);
  }

  lemma MovesOnLater(s: Sched, s0: Sched, r: Sched, ticks: nat)
    requires s.cur in s.threads && s0 == s.(threads := s.threads[s.cur := s.threads[s.cur].(ticks := 0)])
    requires s.ready != [] && s.cur !in s.ready && MovesOn(s0, r, ticks)
    ensures MovesOn(s, r, ticks)
  {
  }

  /**
   * A whole round of timer interrupts: the current thread runs to the end of its slice, then every thread of the list
   * has its own, and after exactly those the thread runs again, with a full slice.
   */
  lemma ComesRound(s: Sched, n: nat)
    requires SchedOk(s) && s.ready != [] && n <= s.threads[s.cur].ticks + 1 + Slices(s, |s.ready|)
    ensures Ticks(s, n).cur == s.cur <==>
              n <= s.threads[s.cur].ticks || n == s.threads[s.cur].ticks + 1 + Slices(s, |s.ready|)
    ensures n > s.threads[s.cur].ticks ==>
              s.cur in Ticks(s, n).threads && Ticks(s, n).threads[s.cur].ticks == s.threads[s.cur].priority
  {
    hide Tick, Schedulable, ReadyExact;
    var first := s.threads[s.cur].ticks + 1;
    ReadyKnown(s);
    if n < first {
      TicksDown(s, n);
    } else {
      SliceEnds(s);
      TicksAdd(s, first, n - first);
      var r := Ticks(s, first);
      RoundIs(s, r);
      RoundRobin(r, |s.ready| - 1, n - first);
    }
  }

  lemma RoundIs(s: Sched, r: Sched)
    requires SchedOk(s) && SchedOk(r) && s.ready != [] && MovesOn(s, r, s.threads[s.cur].priority)
    ensures |r.ready| == |s.ready| && r.ready[|s.ready| - 1] == s.cur
    ensures Turn(r, |s.ready| - 1) == Slices(s, |s.ready|)
  {
    hide Schedulable, MovesOn;
    ReadyKnown(s);
    ReadyKnown(r);
    CurNotReady(s);
    MovesUp(s, r, s.threads[s.cur].priority);
    HeadRuns(s, r, s.threads[s.cur].priority);
    SlicesShift(s, r, |s.ready|);
  }

  /** thread_start: the new thread waits for the slices of all that were ready before it, and then has a full one. */
  lemma StartWaits(s: Sched, t: Tid, priority: nat, n: nat)
    requires SchedOk(s) && t !in s.threads && n <= s.threads[s.cur].ticks + 1 + Slices(s, |s.ready|)
    ensures t !in s.ready && SchedOk(Start(s, t, priority))
    ensures var r := Ticks(Start(s, t, priority), n);
            && (r.cur == t <==> n == s.threads[s.cur].ticks + 1 + Slices(s, |s.ready|))
            && t in r.threads && r.threads[t].ticks == priority
  {
    StartKeeps(s, t, priority);
    var r := Start(s, t, priority);
    SlicesPrefix(s, r, |s.ready|);
    RoundRobin(r, |s.ready|, n);
  }

  lemma {:induction false} SlicesPrefix(s: Sched, r: Sched, k: nat)
    requires k <= |s.ready| <= |r.ready| && (forall t :: t in s.ready ==> t in s.threads)
    requires r.ready[..|s.ready|] == s.ready && forall t :: t in r.ready ==> t in r.threads
    requires forall t :: t in s.ready ==> t in r.threads && r.threads[t] == s.threads[t]
    ensures Slices(r, k) == Slices(s, k)
  {
    if k > 0 {
      SlicesPrefix(s, r, k - 1);
      assert r.ready[k - 1] == s.ready[k - 1];
    }
  }
}
