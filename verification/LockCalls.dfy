/** What lock_acquire and lock_release do as whole calls: counted over every run, and followed when nothing interrupts. */
module LockCalls {
  import opened Basics
  import opened Scheduler
  import opened Locks

  // ---------------------------------------------------------------- counting the calls of a run

  datatype Call = NoCall | Acquiring | Releasing

  /** The calls of one thread on one lock: the one it is in, and those it has returned from. */
  datatype Tally = Tally(call: Call, acquired: nat, released: nat)

  const NONE := Tally(NoCall, 0, 0)

  /** One action of thread cur; out says that it has left sync.c after it. */
  function Note(c: Tally, t: Tid, l: LockId, cur: Tid, a: Action, out: bool): Tally {
    if cur != t then c else
    match a
    case Acquire(x) => if x == l then c.(call := Acquiring) else c
    case Release(x) => if x == l then c.(call := Releasing) else c
    case Advance =>
      if !out then c else
      (match c.call
       case NoCall => c
       case Acquiring => Tally(NoCall, c.acquired + 1, c.released)
       case Releasing => Tally(NoCall, c.acquired, c.released + 1))
    case _ => c
  }

  predicate IsOut(sys: Sys, t: Tid) { t in sys.local && sys.local[t].phase == Out }

  /** The tally after a run. */
  function Tallied(sys: Sys, acts: seq<Action>, t: Tid, l: LockId, c: Tally): Tally
    requires Inv(sys) && CanRun(sys, acts)
    decreases |acts|
  {
    if acts == [] then c else
    InvBasics(sys); CurRuns(sys); StepKeeps(sys, acts[0]);
    var sys' := Step(sys, acts[0]);
    Tallied(sys', acts[1..], t, l, Note(c, t, l, sys.s.cur, acts[0], IsOut(sys', t)))
  }

  /** The thread is not in a call on the lock. */
  predicate Away(x: Local, l: LockId) { x.phase == Out || x.lock != l }

  /** What the tally has to be for a thread in this state. */
  predicate Matches(x: Local, l: LockId, c: Tally) {
    if Away(x, l) then c.call == NoCall && x.held[l] + c.released == c.acquired
    else if x.phase in {Entering, InDown, Got, Checking, Setting, Nesting} then
      c.call == Acquiring && x.held[l] + c.released == c.acquired
    else if x.phase in {Zeroing, Upping} then c.call == Releasing && x.held[l] + 1 + c.released == c.acquired
    else c.call == Releasing && x.held[l] + c.released == c.acquired
  }

  predicate MatchesIn(sys: Sys, t: Tid, l: LockId, c: Tally) {
    if t in sys.local then Matches(sys.local[t], l, c) else c.call == NoCall && c.acquired == c.released
  }

  /** A release that lets go has something to let go. */
  lemma HeldToDrop(sys: Sys)
    requires Basic(sys) && Enabled(sys, Advance) && Inv(sys)
    ensures var x := sys.local[sys.s.cur]; x.phase in {Dropping, Clearing} ==> x.held[x.lock] >= 1
  {
    hide Inv, LockOk, Seats, SeatOk;
    MyLock(sys);
    InvBasics(sys);
    var x := sys.local[sys.s.cur];
    SeatFacts(Seats(sys, x.lock), sys.locks[x.lock], sys.s.cur);
    DropDepth(Seats(sys, x.lock)[sys.s.cur]);
  }

  lemma DropDepth(x: Seat)
    requires SeatOk(x)
    ensures x.phase in {Dropping, Clearing} ==> x.depth >= 1
  {
  }

  lemma AdvanceNoted(sys: Sys, l: LockId, c: Tally)
    requires Basic(sys) && Enabled(sys, Advance) && Wellformed(sys) && AssertsHold(sys, Advance)
    requires var x := sys.local[sys.s.cur]; x.phase in {Dropping, Clearing} ==> x.held[x.lock] >= 1
    requires MatchesIn(sys, sys.s.cur, l, c)
    ensures var r := NextStatement(sys); MatchesIn(r, sys.s.cur, l, Note(c, sys.s.cur, l, sys.s.cur, Advance, IsOut(r, sys.s.cur)))
  {
    hide Wellformed, Block, Unblock, AssertsHold;
  }

  lemma OtherNoted(sys: Sys, a: Action, t: Tid, l: LockId, c: Tally)
    requires Basic(sys) && Enabled(sys, a) && Wellformed(sys) && AssertsHold(sys, a) && !(a.Advance? && sys.s.cur == t)
    requires MatchesIn(sys, t, l, c) && (t in sys.local <==> t in sys.s.threads)
    ensures var r := Step(sys, a); MatchesIn(r, t, l, Note(c, t, l, sys.s.cur, a, IsOut(r, t)))
  {
    hide Wellformed, Block, Unblock, AssertsHold, Tick, Yield, Start, Exit;
  }

  lemma StepNoted(sys: Sys, a: Action, t: Tid, l: LockId, c: Tally)
    requires Basic(sys) && Enabled(sys, a) && Inv(sys) && MatchesIn(sys, t, l, c)
    ensures Wellformed(sys) && AssertsHold(sys, a)
    ensures var r := Step(sys, a); MatchesIn(r, t, l, Note(c, t, l, sys.s.cur, a, IsOut(r, t)))
  {
    hide Inv, Wellformed, AssertsHold, MatchesIn, Note, NextStatement;
    InvBasics(sys);
    StepKeeps(sys, a);
    if a.Advance? && sys.s.cur == t {
      HeldToDrop(sys);
      AdvanceNoted(sys, l, c);
    } else {
      OtherNoted(sys, a, t, l, c);
    }
  }

  lemma {:induction false} TallyMatches(sys: Sys, acts: seq<Action>, t: Tid, l: LockId, c: Tally)
    requires Inv(sys) && CanRun(sys, acts) && MatchesIn(sys, t, l, c)
    ensures MatchesIn(Run(sys, acts), t, l, Tallied(sys, acts, t, l, c))
    decreases |acts|
  {
    hide Inv, Enabled, Step, MatchesIn, Note, Basic, Wellformed;
    if acts != [] {
      InvBasics(sys);
      CurRuns(sys);
      StepKeeps(sys, acts[0]);
      StepNoted(sys, acts[0], t, l, c);
      var sys' := Step(sys, acts[0]);
      TallyMatches(sys', acts[1..], t, l, Note(c, t, l, sys.s.cur, acts[0], IsOut(sys', t)));
    }
  }

  // ---------------------------------------------------------------- what the counts say

  /** A thread that is not in a call on the lock holds it exactly when it has acquires to undo, and as often. */
  lemma HolderByCount(sys: Sys, t: Tid, l: LockId, c: Tally)
    requires Inv(sys) && t in sys.local && l in sys.locks && Away(sys.local[t], l) && MatchesIn(sys, t, l, c)
    ensures c.released <= c.acquired
    ensures sys.locks[l].holder == Some(t) <==> c.released < c.acquired
    ensures c.released < c.acquired ==> sys.locks[l].repeat == c.acquired - c.released && sys.locks[l].value == 0
  {
    hide LockOk, Inv, Seats, Wellformed;
    InvBasics(sys);
    CurRuns(sys);
    SeatAt(sys, t, l);
    SeatAway(sys, t, l);
    HolderIs(Seats(sys, l), sys.locks[l], t);
    if c.released < c.acquired { HolderValue(Seats(sys, l), sys.locks[l], t); }
  }

  lemma SeatAway(sys: Sys, t: Tid, l: LockId)
    requires Basic(sys) && t in sys.local && Away(sys.local[t], l)
    ensures t in Seats(sys, l) && Seats(sys, l)[t].phase == Out
  {
  }

  lemma HolderValue(seats: map<Tid, Seat>, k: Lock, t: Tid)
    requires LockOk(seats, k) && t in seats && seats[t].depth >= 1
    ensures k.value == 0
  {
    hide Woken, NoDup, OwnerOk, SeatOk;
    assert Owns(seats[t]);
  }

  /**
   * In every run: the nesting count of a lock is the number of lock_acquire calls that its holder has returned from
   * less the number of lock_release calls, and whoever has returned from as many of the one as of the other does not
   * hold it.
   */
  lemma CountIsCalls(acts: seq<Action>, l: LockId, t: Tid)
    requires CanRun(Booted(), acts)
    requires var sys := Run(Booted(), acts); l in sys.locks && t in sys.local && Away(sys.local[t], l)
    ensures var k, c := Run(Booted(), acts).locks[l], Tallied(Booted(), acts, t, l, NONE);
            && c.released <= c.acquired && (k.holder == Some(t) <==> c.released < c.acquired)
            && (c.released < c.acquired ==> k.repeat == c.acquired - c.released && k.value == 0)
  {
    StartMatches(t, l);
    hide Inv, CanRun, Run, Booted, Tallied, MatchesIn;
    TallyMatches(Booted(), acts, t, l, NONE);
    HolderByCount(Run(Booted(), acts), t, l, Tallied(Booted(), acts, t, l, NONE));
  }

  lemma StartMatches(t: Tid, l: LockId)
    ensures MatchesIn(Booted(), t, l, NONE)
  {
  }

  /** When every acquire has been undone and nobody is in a call, the lock is free for the next one. */
  lemma FreeWhenUndone(acts: seq<Action>, l: LockId)
    requires CanRun(Booted(), acts) && l in Run(Booted(), acts).locks
    requires forall t :: t in Run(Booted(), acts).local ==>
               var c := Tallied(Booted(), acts, t, l, NONE); Away(Run(Booted(), acts).local[t], l) && c.acquired == c.released
    ensures var k := Run(Booted(), acts).locks[l]; k.value == 1 && k.holder == None && k.repeat == 0 && k.waiters == []
  {
    hide Inv, CanRun, Run, Booted, Tallied, Away, LockOk, Wellformed, NoSeat;
    var sys := Run(Booted(), acts);
    InvBasics(sys);
    CurRuns(sys);
    LockThere(sys, l);
    forall t | t in sys.local ensures NoSeat(sys, t, l) {
      assert Away(sys.local[t], l);
      CountIsCalls(acts, l, t);
      NoSeatFor(sys, t, l);
    }
    AllFree(sys, l);
  }

  /** The thread is nothing to the lock. */
  predicate NoSeat(sys: Sys, t: Tid, l: LockId) {
    Basic(sys) && t in sys.local && Seats(sys, l)[t] == Seat(Out, 0, false)
  }

  lemma NoSeatFor(sys: Sys, t: Tid, l: LockId)
    requires Inv(sys) && t in sys.local && l in sys.locks && Away(sys.local[t], l) && sys.locks[l].holder != Some(t)
    ensures NoSeat(sys, t, l)
  {
    hide LockOk, Inv, Wellformed;
    InvBasics(sys);
    CurRuns(sys);
    SeatAt(sys, t, l);
    SeatAway(sys, t, l);
    HolderIs(Seats(sys, l), sys.locks[l], t);
  }

  lemma AllFree(sys: Sys, l: LockId)
    requires l in sys.locks && Basic(sys) && LockOk(Seats(sys, l), sys.locks[l])
    requires forall t :: t in sys.local ==> NoSeat(sys, t, l)
    ensures var k := sys.locks[l]; k.value == 1 && k.holder == None && k.repeat == 0 && k.waiters == []
  {
    hide Woken, NoDup, OwnerOk, SeatOk;
    var seats, k := Seats(sys, l), sys.locks[l];
    forall t | t in seats ensures !seats[t].asleep && !Owns(seats[t]) {
      assert NoSeat(sys, t, l);
    }
    HeadIsIn(k.waiters);
  }

  lemma HeadIsIn(q: seq<Tid>)
    ensures q != [] ==> exists t :: t in q
  {
    if q != [] {
      assert q[0] in q;
    }
  }

  // ---------------------------------------------------------------- calls that nothing interrupts

  lemma Nothing(sys: Sys)
    requires Inv(sys)
    ensures CanRun(sys, []) && Run(sys, []) == sys
  {
  }

  lemma First(sys: Sys, a: Action, acts: seq<Action>)
    requires Basic(sys) && Enabled(sys, a) && Inv(sys)
    ensures Wellformed(sys) && AssertsHold(sys, a) && Inv(Step(sys, a))
    ensures CanRun(Step(sys, a), acts) ==> CanRun(sys, [a] + acts) && Run(sys, [a] + acts) == Run(Step(sys, a), acts)
  {
    hide Inv, Enabled, Step, AssertsHold;
    StepKeeps(sys, a);
    assert ([a] + acts)[1..] == acts && ([a] + acts)[0] == a;
  }

  /** The running thread t is about to do what phase says, on lock l. */
  predicate Stands(sys: Sys, t: Tid, phase: Phase, l: LockId) {
    Basic(sys) && sys.s.cur == t && sys.local[t].phase == phase && sys.local[t].lock == l && l in sys.locks
  }

  /** One statement that does not sleep or wake: the thread goes on, and only its lock changes. */
  lemma Goes(sys: Sys, t: Tid, phase: Phase, l: LockId, acts: seq<Action>)
    requires Stands(sys, t, phase, l) && phase !in {Out, Upping} && Inv(sys)
    requires phase in {Entering, InDown} ==> sys.locks[l].value > 0
    ensures Enabled(sys, Advance) && Wellformed(sys) && AssertsHold(sys, Advance)
    ensures var r, k := Step(sys, Advance), sys.locks[l];
            && Inv(r) && r.s == sys.s
            && Stands(r, t, (match phase
                             case Entering => Got case InDown => Got case Got => Checking case Checking => Setting
                             case Testing => if k.repeat > 1 then Dropping else Ending
                             case Ending => Clearing case Clearing => Zeroing case Zeroing => Upping
                             case _ => Out), l)
            && r.locks == sys.locks[l := (match phase
                                          case Entering => k.(value := k.value - 1, owner := Some(t))
                                          case InDown => k.(value := k.value - 1, owner := Some(t))
                                          case Got => k.(holder := Some(t))
                                          case Setting => k.(repeat := 1)
                                          case Nesting => k.(repeat := k.repeat + 1)
                                          case Dropping => k.(repeat := if k.repeat > 0 then k.repeat - 1 else 0)
                                          case Clearing => k.(holder := None)
                                          case Zeroing => k.(repeat := 0)
                                          case _ => k)]
            && (CanRun(r, acts) ==> CanRun(sys, [Advance] + acts) && Run(sys, [Advance] + acts) == Run(r, acts))
  {
    hide Inv, Wellformed, AssertsHold, CanRun, Run, Block, Unblock;
    First(sys, Advance, acts);
  }

  /** lock_acquire by the holder: one more. */
  lemma AcquireAgain(sys: Sys, l: LockId)
    requires Basic(sys) && Enabled(sys, Acquire(l)) && sys.locks[l].holder == Some(sys.s.cur) && Inv(sys)
    ensures var acts := [Acquire(l), Advance];
            && CanRun(sys, acts)
            && var r, k := Run(sys, acts), sys.locks[l];
               Stands(r, sys.s.cur, Out, l) && r.s == sys.s && r.locks == sys.locks[l := k.(repeat := k.repeat + 1)]
  {
    hide Inv, Wellformed, AssertsHold, CanRun, Run, NextStatement;
    var t := sys.s.cur;
    First(sys, Acquire(l), [Advance]);
    var s1 := Step(sys, Acquire(l));
    Goes(s1, t, Nesting, l, []);
    Nothing(Step(s1, Advance));
    assert [Advance] + [] == [Advance] && [Acquire(l)] + [Advance] == [Acquire(l), Advance];
    assert sys.locks[l := sys.locks[l]] == sys.locks;
  }

  /** The three statements after sema_down. */
  lemma BecomesHolder(sys: Sys, t: Tid, l: LockId)
    requires Stands(sys, t, Got, l) && Inv(sys)
    ensures CanRun(sys, [Advance, Advance, Advance])
    ensures var r := Run(sys, [Advance, Advance, Advance]);
            Stands(r, t, Out, l) && r.s == sys.s && r.locks == sys.locks[l := sys.locks[l].(holder := Some(t), repeat := 1)]
  {
    hide Inv, Wellformed, AssertsHold, CanRun, Run, NextStatement;
    Goes(sys, t, Got, l, [Advance, Advance]);
    var s3 := Step(sys, Advance);
    Goes(s3, t, Checking, l, [Advance]);
    var s4 := Step(s3, Advance);
    Goes(s4, t, Setting, l, []);
    Nothing(Step(s4, Advance));
    assert [Advance] + [] == [Advance] && [Advance] + [Advance] == [Advance, Advance];
    assert [Advance] + [Advance, Advance] == [Advance, Advance, Advance];
  }

  /** lock_acquire of a free lock: the caller is the holder, once. */
  lemma AcquireFree(sys: Sys, l: LockId)
    requires Basic(sys) && Enabled(sys, Acquire(l)) && sys.locks[l].value == 1 && Inv(sys)
    ensures var acts := [Acquire(l), Advance, Advance, Advance, Advance];
            && CanRun(sys, acts)
            && var r := Run(sys, acts);
               && Stands(r, sys.s.cur, Out, l) && r.s == sys.s && r.locks.Keys == sys.locks.Keys
               && r.locks[l].value == 0 && r.locks[l].holder == Some(sys.s.cur) && r.locks[l].repeat == 1
               && r.locks[l].waiters == sys.locks[l].waiters
               && forall x :: x in sys.locks && x != l ==> r.locks[x] == sys.locks[x]
  {
    hide Inv, Wellformed, AssertsHold, CanRun, Run, NextStatement;
    var t, a4, a3, a1 := sys.s.cur, [Advance, Advance, Advance, Advance], [Advance, Advance, Advance], [Advance];
    FreeHasNoHolder(sys, l);
    First(sys, Acquire(l), a4);
    var s1 := Step(sys, Acquire(l));
    Goes(s1, t, Entering, l, a3);
    var s2 := Step(s1, Advance);
    BecomesHolder(s2, t, l);
    assert a1 + a3 == a4;
    assert [Acquire(l)] + a4 == [Acquire(l), Advance, Advance, Advance, Advance];
  }

  lemma FreeHasNoHolder(sys: Sys, l: LockId)
    requires l in sys.locks && sys.locks[l].value == 1 && Inv(sys)
    ensures sys.locks[l].holder == None && sys.locks[l].repeat == 0
  {
    hide Inv, Seats, Woken, OwnerOk, SeatOk, NoDup;
    LockThere(sys, l);
  }

  /** lock_acquire of a lock that another thread has: the caller goes to the end of the waiters, asleep. */
  lemma AcquireTaken(sys: Sys, l: LockId)
    requires Basic(sys) && Enabled(sys, Acquire(l)) && sys.locks[l].value == 0 && sys.locks[l].holder != Some(sys.s.cur) && Inv(sys)
    ensures var acts := [Acquire(l), Advance];
            && CanRun(sys, acts)
            && var r, t := Run(sys, acts), sys.s.cur;
               && t in r.s.threads && r.s.threads[t].status == Blocked && r.s.cur != t
               && r.locks == sys.locks[l := sys.locks[l].(waiters := sys.locks[l].waiters + [t])]
  {
    hide Inv, Wellformed, AssertsHold, CanRun, Run, Block;
    var t := sys.s.cur;
    First(sys, Acquire(l), [Advance]);
    var s1 := Step(sys, Acquire(l));
    First(s1, Advance, []);
    var s2 := Step(s1, Advance);
    Nothing(s2);
    InvBasics(s1);
    CurRuns(s1);
    AsleepNow(s1.s);
    assert [Advance] + [] == [Advance] && [Acquire(l)] + [Advance] == [Acquire(l), Advance];
    assert sys.locks[l := sys.locks[l]] == sys.locks;
  }

  lemma AsleepNow(s: Sched)
    requires SchedOk(s) && s.cur != s.idle
    ensures var r := Block(s, Blocked); s.cur in r.threads && r.threads[s.cur].status == Blocked && r.cur != s.cur
  {
    BlockKeeps(s, Blocked);
  }

  /** lock_release by a holder that has acquired the lock more than once: one less. */
  lemma ReleaseInner(sys: Sys, l: LockId)
    requires Basic(sys) && sys.local[sys.s.cur].phase == Out && l in sys.locks && sys.s.cur != sys.s.idle
    requires sys.locks[l].holder == Some(sys.s.cur) && sys.locks[l].repeat > 1 && Inv(sys)
    ensures var acts := [Release(l), Advance, Advance];
            && CanRun(sys, acts)
            && var r, k := Run(sys, acts), sys.locks[l];
               Stands(r, sys.s.cur, Out, l) && r.s == sys.s && r.locks == sys.locks[l := k.(repeat := k.repeat - 1)]
  {
    hide Inv, Wellformed, AssertsHold, CanRun, Run, NextStatement;
    var t, a2, a1 := sys.s.cur, [Advance, Advance], [Advance];
    ReleaseAssert(sys, l);
    First(sys, Release(l), a2);
    var s1 := Step(sys, Release(l));
    Goes(s1, t, Testing, l, a1);
    var s2 := Step(s1, Advance);
    Goes(s2, t, Dropping, l, []);
    Nothing(Step(s2, Advance));
    assert a1 + [] == a1 && a1 + a1 == a2 && [Release(l)] + a2 == [Release(l), Advance, Advance];
    assert sys.locks[l := sys.locks[l]] == sys.locks;
  }

  /** The last three statements: no holder, no count, and sema_up. */
  lemma LetsGo(sys: Sys, t: Tid, l: LockId)
    requires Stands(sys, t, Clearing, l) && Inv(sys)
    ensures CanRun(sys, [Advance, Advance, Advance])
    ensures var r, q := Run(sys, [Advance, Advance, Advance]), sys.locks[l].waiters;
            && Stands(r, t, Out, l) && r.locks.Keys == sys.locks.Keys
            && r.locks[l].value == 1 && r.locks[l].holder == None && r.locks[l].repeat == 0
            && r.locks[l].waiters == (if q == [] then [] else q[1..])
            && (q != [] ==> q[0] in r.s.threads && r.s.threads[q[0]].status == Ready)
            && forall x :: x in sys.locks && x != l ==> r.locks[x] == sys.locks[x]
  {
    hide Inv, Wellformed, AssertsHold, CanRun, Run, NextStatement;
    Goes(sys, t, Clearing, l, [Advance, Advance]);
    var s4 := Step(sys, Advance);
    Goes(s4, t, Zeroing, l, [Advance]);
    LastUp(Step(s4, Advance), t, l);
    assert [Advance] + [Advance] == [Advance, Advance];
    assert [Advance] + [Advance, Advance] == [Advance, Advance, Advance];
  }

  /** The last lock_release up to the statements that change the lock. */
  lemma LastToClear(sys: Sys, l: LockId, acts: seq<Action>) returns (u: Sys)
    requires Basic(sys) && sys.local[sys.s.cur].phase == Out && l in sys.locks && sys.s.cur != sys.s.idle
    requires sys.locks[l].holder == Some(sys.s.cur) && sys.locks[l].repeat == 1 && Inv(sys)
    ensures Stands(u, sys.s.cur, Clearing, l) && Inv(u) && u.s == sys.s && u.locks == sys.locks
    ensures CanRun(u, acts) ==>
              && CanRun(sys, [Release(l), Advance, Advance] + acts)
              && Run(sys, [Release(l), Advance, Advance] + acts) == Run(u, acts)
  {
    hide Inv, Wellformed, AssertsHold, CanRun, Run, NextStatement;
    var t, a1 := sys.s.cur, [Advance] + acts;
    ReleaseAssert(sys, l);
    First(sys, Release(l), [Advance] + a1);
    var s1 := Step(sys, Release(l));
    Goes(s1, t, Testing, l, a1);
    var s2 := Step(s1, Advance);
    Goes(s2, t, Ending, l, acts);
    u := Step(s2, Advance);
    assert [Release(l)] + ([Advance] + a1) == [Release(l), Advance, Advance] + acts;
    assert sys.locks[l := sys.locks[l]] == sys.locks;
  }

  /** lock_release by a holder that has acquired the lock once: the lock is free, and the first waiter is awake. */
  lemma ReleaseLast(sys: Sys, l: LockId)
    requires Basic(sys) && sys.local[sys.s.cur].phase == Out && l in sys.locks && sys.s.cur != sys.s.idle
    requires sys.locks[l].holder == Some(sys.s.cur) && sys.locks[l].repeat == 1 && Inv(sys)
    ensures var acts := [Release(l), Advance, Advance, Advance, Advance, Advance];
            && CanRun(sys, acts)
            && var r, q := Run(sys, acts), sys.locks[l].waiters;
               && Stands(r, sys.s.cur, Out, l) && r.locks.Keys == sys.locks.Keys
               && r.locks[l].value == 1 && r.locks[l].holder == None && r.locks[l].repeat == 0
               && r.locks[l].waiters == (if q == [] then [] else q[1..])
               && (q != [] ==> q[0] in r.s.threads && r.s.threads[q[0]].status == Ready)
               && forall x :: x in sys.locks && x != l ==> r.locks[x] == sys.locks[x]
  {
    hide Inv, Wellformed, AssertsHold, CanRun, Run, NextStatement;
    var u := LastToClear(sys, l, [Advance, Advance, Advance]);
    LetsGo(u, sys.s.cur, l);
    assert [Release(l), Advance, Advance] + [Advance, Advance, Advance] == [Release(l), Advance, Advance, Advance, Advance, Advance];
  }

  /** The sema_up at the end. */
  lemma LastUp(sys: Sys, t: Tid, l: LockId)
    requires Stands(sys, t, Upping, l) && Inv(sys)
    ensures CanRun(sys, [Advance])
    ensures var r, k := Run(sys, [Advance]), sys.locks[l];
            && Stands(r, t, Out, l) && r.locks.Keys == sys.locks.Keys
            && r.locks[l].value == 1 && r.locks[l].holder == k.holder && r.locks[l].repeat == k.repeat
            && r.locks[l].waiters == (if k.waiters == [] then [] else k.waiters[1..])
            && (k.waiters != [] ==> k.waiters[0] in r.s.threads && r.s.threads[k.waiters[0]].status == Ready)
            && forall x :: x in sys.locks && x != l ==> r.locks[x] == sys.locks[x]
  {
    hide Inv, Wellformed, CanRun, Run;
    First(sys, Advance, []);
    Nothing(Step(sys, Advance));
    assert [Advance] + [] == [Advance];
  }

  // ---------------------------------------------------------------- from the holder to the first waiter

  /** A switch of threads: the one that runs gives way, or its slice is over. */
  predicate Switches(sys: Sys, a: Action)
    requires sys.s.cur in sys.s.threads
  {
    a == YieldCpu || (a == TimerTick && sys.s.threads[sys.s.cur].ticks == 0)
  }

  /** The last lock_release up to sema_up. */
  lemma LastToUp(sys: Sys, l: LockId, acts: seq<Action>) returns (u: Sys)
    requires Basic(sys) && sys.local[sys.s.cur].phase == Out && l in sys.locks && sys.s.cur != sys.s.idle
    requires sys.locks[l].holder == Some(sys.s.cur) && sys.locks[l].repeat == 1 && Inv(sys)
    ensures Stands(u, sys.s.cur, Upping, l) && Inv(u) && u.s == sys.s
    ensures u.locks == sys.locks[l := sys.locks[l].(holder := None, repeat := 0)]
    ensures CanRun(u, acts) ==>
              && CanRun(sys, [Release(l), Advance, Advance] + ([Advance, Advance] + acts))
              && Run(sys, [Release(l), Advance, Advance] + ([Advance, Advance] + acts)) == Run(u, acts)
  {
    hide Inv, Wellformed, AssertsHold, CanRun, Run, NextStatement;
    var t := sys.s.cur;
    var s3 := LastToClear(sys, l, [Advance, Advance] + acts);
    Goes(s3, t, Clearing, l, [Advance] + acts);
    var s4 := Step(s3, Advance);
    Goes(s4, t, Zeroing, l, acts);
    u := Step(s4, Advance);
    assert [Advance] + ([Advance] + acts) == [Advance, Advance] + acts;
  }

  /** sema_up and the switch after it: the first waiter runs, in its loop, and finds the lock free. */
  lemma UpThenSwitch(sys: Sys, t: Tid, l: LockId, sw: Action, acts: seq<Action>) returns (u: Sys)
    requires Stands(sys, t, Upping, l) && sys.locks[l].waiters != [] && Switches(sys, sw) && Inv(sys)
    ensures Stands(u, sys.locks[l].waiters[0], InDown, l) && Inv(u)
    ensures var k := sys.locks[l]; u.locks == sys.locks[l := k.(value := 1, owner := None, waiters := k.waiters[1..])]
    ensures CanRun(u, acts) ==> CanRun(sys, [Advance, sw] + acts) && Run(sys, [Advance, sw] + acts) == Run(u, acts)
  {
    hide Inv, Wellformed, CanRun, Run, Unblock, Yield, Tick, AssertsHold, NextStatement;
    var w := sys.locks[l].waiters[0];
    UpIs(sys, t, l);
    InvBasics(sys);
    First(sys, Advance, [sw] + acts);
    WokenRunsNext(sys.s, w);
    var s1 := Step(sys, Advance);
    SameTicksNow(sys.s, w);
    InvBasics(s1);
    CurRuns(s1);
    First(s1, sw, acts);
    u := Step(s1, sw);
    InvBasics(u);
    CurRuns(u);
    assert [Advance] + ([sw] + acts) == [Advance, sw] + acts;
  }

  lemma UpIs(sys: Sys, t: Tid, l: LockId)
    requires Stands(sys, t, Upping, l) && sys.locks[l].waiters != [] && Inv(sys)
    ensures Enabled(sys, Advance) && Wellformed(sys) && AssertsHold(sys, Advance)
    ensures var r, k := Step(sys, Advance), sys.locks[l];
            var w := k.waiters[0];
            && w in sys.s.threads && sys.s.threads[w].status.Asleep() && w !in sys.s.ready && r.s == Unblock(sys.s, w)
            && r.locks == sys.locks[l := k.(value := 1, owner := None, waiters := k.waiters[1..])]
            && t in r.local && r.local[t].phase == Out
            && w in r.local && r.local[w].phase == InDown && r.local[w].lock == l
  {
    hide Inv, Wellformed, CanRun, Run, Unblock;
    HeadIsIn(sys.locks[l].waiters);
    WaiterAsleep(sys, l, sys.locks[l].waiters[0]);
    First(sys, Advance, []);
  }

  lemma SameTicksNow(s: Sched, w: Tid)
    requires w in s.threads && s.threads[w].status.Asleep() && w !in s.ready && s.cur in s.threads
    ensures var r := Unblock(s, w); r.cur == s.cur && r.cur in r.threads && r.threads[r.cur].ticks == s.threads[s.cur].ticks
  {
  }

  /**
   * The last lock_release with waiters, the switch of threads after it, and the rest of the lock_acquire that the first
   * waiter was in: it has the lock, once, before anybody else can run, and the others wait in their order.
   */
  lemma ReleaseHandsOver(sys: Sys, l: LockId, sw: Action)
    requires Basic(sys) && sys.local[sys.s.cur].phase == Out && l in sys.locks && sys.s.cur != sys.s.idle
    requires sys.locks[l].holder == Some(sys.s.cur) && sys.locks[l].repeat == 1 && sys.locks[l].waiters != []
    requires Switches(sys, sw) && Inv(sys)
    ensures var acts := [Release(l), Advance, Advance, Advance, Advance, Advance, sw, Advance, Advance, Advance, Advance];
            && CanRun(sys, acts)
            && var r, q := Run(sys, acts), sys.locks[l].waiters;
               && Stands(r, q[0], Out, l) && r.locks.Keys == sys.locks.Keys
               && r.locks[l].value == 0 && r.locks[l].holder == Some(q[0]) && r.locks[l].repeat == 1
               && r.locks[l].waiters == q[1..]
               && forall x :: x in sys.locks && x != l ==> r.locks[x] == sys.locks[x]
  {
    hide Inv, Wellformed, AssertsHold, CanRun, Run, NextStatement;
    var a4, a3 := [Advance, Advance, Advance, Advance], [Advance, Advance, Advance];
    var w := sys.locks[l].waiters[0];
    var u := LastToUp(sys, l, [Advance, sw] + a4);
    var v := UpThenSwitch(u, sys.s.cur, l, sw, a4);
    Goes(v, w, InDown, l, a3);
    BecomesHolder(Step(v, Advance), w, l);
    assert [Advance] + a3 == a4;
    assert [Release(l), Advance, Advance] + ([Advance, Advance] + ([Advance, sw] + a4)) ==
           [Release(l), Advance, Advance, Advance, Advance, Advance, sw, Advance, Advance, Advance, Advance];
  }
}
