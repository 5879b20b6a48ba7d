/**
 * The semaphores and recursive locks of thread/sync.c, under every interleaving that the timer and the
 * scheduler allow.  A step is one statement of the source, or one stretch that runs with interrupts off.
 */
module Locks {
  import opened Basics
  import opened Scheduler

  type LockId = nat

  /** owner is auxiliary: the thread between the end of sema_down and sema_up. */
  datatype Lock = Lock(value: nat, waiters: seq<Tid>, holder: Option<Tid>, repeat: nat, owner: Option<Tid>)

  /** Where in sync.c a thread is; the comment names what it does next. */
  datatype Phase =
    | Out
    | Entering   // lock_acquire: sema_down
    | InDown     // inside sema_down, after thread_block
    | Got        // lock_acquire: holder = running_thread()
    | Checking   // lock_acquire: the assert on holder_repeat_nr
    | Setting    // lock_acquire: holder_repeat_nr = 1
    | Nesting    // lock_acquire: holder_repeat_nr++
    | Testing    // lock_release: the test holder_repeat_nr > 1
    | Dropping   // lock_release: holder_repeat_nr--
    | Ending     // lock_release: the assert that holder_repeat_nr is 1
    | Clearing   // lock_release: holder = NULL
    | Zeroing    // lock_release: holder_repeat_nr = 0
    | Upping     // lock_release: sema_up

  /** held counts, for every lock, the acquires that have returned less the releases that have let go. */
  datatype Local = Local(phase: Phase, lock: LockId, held: multiset<LockId>)

  datatype Sys = Sys(s: Sched, local: map<Tid, Local>, locks: map<LockId, Lock>)

  // ---------------------------------------------------------------- one lock

  /** What a thread is to one lock. */
  datatype Seat = Seat(phase: Phase, depth: nat, asleep: bool)

  predicate SeatOk(x: Seat) {
    && (x.asleep ==> x.phase == InDown)
    && (x.phase in {Entering, InDown, Got, Checking, Setting, Zeroing, Upping} ==> x.depth == 0)
    && (x.phase in {Nesting, Testing} ==> x.depth >= 1)
    && (x.phase == Dropping ==> x.depth >= 2)
    && (x.phase in {Ending, Clearing} ==> x.depth == 1)
  }

  predicate Owns(x: Seat) {
    x.depth > 0 || x.phase in {Got, Checking, Setting, Zeroing, Upping}
  }

  predicate OwnerOk(x: Seat, t: Tid, k: Lock) {
    if x.depth > 0 then k.holder == Some(t) && k.repeat == x.depth
    else if x.phase in {Checking, Setting} then k.holder == Some(t) && k.repeat == 0
    else k.holder == None && k.repeat == if x.phase == Zeroing then 1 else 0
  }

  /** Threads taken off the waiters that have yet to look at the value again. */
  function Woken(seats: map<Tid, Seat>): set<Tid> {
    set t | t in seats && seats[t].phase == InDown && !seats[t].asleep
  }

  predicate LockOk(seats: map<Tid, Seat>, k: Lock) {
    && NoDup(k.waiters)
    && (forall t :: t in k.waiters ==> t in seats && seats[t].asleep)
    && (forall t :: t in seats && seats[t].asleep ==> t in k.waiters)
    && (forall t :: t in seats ==> SeatOk(seats[t]) && (Owns(seats[t]) <==> k.owner == Some(t)))
    && (match k.owner
        case None => k.value == 1 && k.holder == None && k.repeat == 0
        case Some(t) => t in seats && k.value == 0 && OwnerOk(seats[t], t, k))
    && (k.value == 1 && k.waiters != [] ==> Woken(seats) != {})
  }

  const NEW_LOCK := Lock(1, [], None, 0, None)

  // ---------------------------------------------------------------- the whole system

  function SeatOf(x: Local, blocked: bool, l: LockId): Seat {
    if x.phase == Out || x.lock != l then Seat(Out, x.held[l], false)
    else Seat(x.phase, x.held[l], x.phase == InDown && blocked)
  }

  function Seats(sys: Sys, l: LockId): map<Tid, Seat>
    requires sys.local.Keys == sys.s.threads.Keys
  {
    map t | t in sys.local :: SeatOf(sys.local[t], sys.s.threads[t].status == Blocked, l)
  }

  /** A thread may be asleep on a lock, or asleep for another reason outside sync.c. */
  predicate LocalOk(x: Local, st: Status, locks: set<LockId>) {
    && (x.phase != Out ==> x.lock in locks && (st.Asleep() ==> st == Blocked && x.phase == InDown))
    && (forall l :: l in x.held ==> l in locks)
  }

  predicate Basic(sys: Sys) {
    sys.local.Keys == sys.s.threads.Keys && sys.s.cur in sys.local && sys.s.idle in sys.local
  }

  predicate Wellformed(sys: Sys) {
    && SchedOk(sys.s)
    && Basic(sys)
    && (sys.local[sys.s.idle].phase == Out && sys.local[sys.s.idle].held == multiset{})
    && (forall t :: t in sys.local ==> LocalOk(sys.local[t], sys.s.threads[t].status, sys.locks.Keys))
  }

  predicate Inv(sys: Sys) {
    Wellformed(sys) && forall l :: l in sys.locks ==> LockOk(Seats(sys, l), sys.locks[l])
  }

  // ---------------------------------------------------------------- steps

  datatype Action =
    | TimerTick | YieldCpu | Sleep(st: Status) | Wake(t: Tid) | StartThread(t: Tid, priority: nat) | EndThread(t: Tid)
    | InitLock(l: LockId) | Acquire(l: LockId) | Release(l: LockId) | Advance

  predicate Enabled(sys: Sys, a: Action)
    requires Basic(sys)
  {
    var me := sys.local[sys.s.cur];
    match a
    case TimerTick => me.phase != InDown  // with interrupts on
    case YieldCpu => me.phase == Out
    case Sleep(st) => me.phase == Out && st.Asleep() && (sys.s.cur == sys.s.idle ==> st == Blocked)
    case Wake(t) =>
      me.phase != InDown && t in sys.local && sys.s.threads[t].status.Asleep() && sys.local[t].phase == Out
    case StartThread(t, _) => me.phase == Out && t !in sys.s.threads
    case EndThread(t) =>
      && me.phase == Out && t in sys.local && t != sys.s.idle
      && sys.local[t].phase == Out && sys.local[t].held == multiset{}
    case InitLock(l) => me.phase == Out && l !in sys.locks
    case Acquire(l) => me.phase == Out && l in sys.locks && sys.s.cur != sys.s.idle
    case Release(l) => me.phase == Out && l in sys.locks && sys.s.cur != sys.s.idle && me.held[l] > 0
    case Advance => me.phase != Out
  }

  /** The ASSERTs that the step meets on its way. */
  predicate AssertsHold(sys: Sys, a: Action)
    requires Basic(sys) && Enabled(sys, a) && Wellformed(sys)
  {
    var t := sys.s.cur;
    var me := sys.local[t];
    match a
    case Wake(u) => u !in sys.s.ready
    case StartThread(u, _) => u !in sys.s.ready
    case YieldCpu => t !in sys.s.ready
    case Release(l) => sys.locks[l].holder == Some(t)
    case Advance =>
      var k := sys.locks[me.lock];
      (match me.phase
       case Entering => if k.value == 0 then t !in k.waiters else k.value - 1 == 0
       case InDown => if k.value == 0 then t !in k.waiters else k.value - 1 == 0
       case Checking => k.repeat == 0
       case Ending => k.repeat == 1
       case Upping =>
         && k.value == 0 && k.value + 1 == 1
         && (k.waiters != [] ==>
               && k.waiters[0] in sys.s.threads && sys.s.threads[k.waiters[0]].status.Asleep()
               && k.waiters[0] !in sys.s.ready)
       case _ => true)
    case _ => true
  }

  function Move(sys: Sys, phase: Phase, held: multiset<LockId>, l: LockId, k: Lock): Sys {
    sys.(local := sys.local[sys.s.cur := Local(phase, l, held)], locks := sys.locks[l := k])
  }

  /** The body of the loop in sema_down, or what follows it. */
  function Down(sys: Sys): Sys
    requires Basic(sys) && sys.local[sys.s.cur].phase != Out && Wellformed(sys)
  {
    var t := sys.s.cur;
    var me := sys.local[t];
    var k := sys.locks[me.lock];
    if k.value == 0 then
      Move(sys, InDown, me.held, me.lock, k.(waiters := k.waiters + [t])).(s := Block(sys.s, Blocked))
    else
      Move(sys, Got, me.held, me.lock, k.(value := k.value - 1, owner := Some(t)))
  }

  /** sema_up; the first waiter, if there is one, goes to the front of the ready list. */
  function Up(sys: Sys): Sys
    requires Basic(sys) && Enabled(sys, Advance) && sys.local[sys.s.cur].phase == Upping
    requires Wellformed(sys) && AssertsHold(sys, Advance)
  {
    var me := sys.local[sys.s.cur];
    var k := sys.locks[me.lock];
    if k.waiters == [] then
      Move(sys, Out, me.held, me.lock, k.(value := k.value + 1, owner := None))
    else
      Move(sys, Out, me.held, me.lock, k.(value := k.value + 1, owner := None, waiters := k.waiters[1..]))
      .(s := Unblock(sys.s, k.waiters[0]))
  }

  function NextStatement(sys: Sys): Sys
    requires Basic(sys) && Enabled(sys, Advance) && Wellformed(sys) && AssertsHold(sys, Advance)
  {
    var t := sys.s.cur;
    var me := sys.local[t];
    var l := me.lock;
    var k := sys.locks[l];
    match me.phase
    case Entering => Down(sys)
    case InDown => Down(sys)
    case Got => Move(sys, Checking, me.held, l, k.(holder := Some(t)))
    case Checking => Move(sys, Setting, me.held, l, k)
    case Setting => Move(sys, Out, me.held + multiset{l}, l, k.(repeat := 1))
    case Nesting => Move(sys, Out, me.held + multiset{l}, l, k.(repeat := k.repeat + 1))
    case Testing => Move(sys, if k.repeat > 1 then Dropping else Ending, me.held, l, k)
    case Dropping => Move(sys, Out, me.held - multiset{l}, l, k.(repeat := if k.repeat > 0 then k.repeat - 1 else 0))
    case Ending => Move(sys, Clearing, me.held, l, k)
    case Clearing => Move(sys, Zeroing, me.held - multiset{l}, l, k.(holder := None))
    case Zeroing => Move(sys, Upping, me.held, l, k.(repeat := 0))
    case Upping => Up(sys)
  }

  function Step(sys: Sys, a: Action): Sys
    requires Basic(sys) && Enabled(sys, a) && Wellformed(sys) && AssertsHold(sys, a)
  {
    var t := sys.s.cur;
    var me := sys.local[t];
    match a
    case TimerTick => sys.(s := Tick(sys.s))
    case YieldCpu => sys.(s := Yield(sys.s))
    case Sleep(st) => sys.(s := Block(sys.s, st))
    case Wake(u) => sys.(s := Unblock(sys.s, u))
    case StartThread(u, p) => Started(sys, u, p)
    case EndThread(u) => Ended(sys, u)
    case InitLock(l) => sys.(locks := sys.locks[l := NEW_LOCK])
    case Acquire(l) =>
      var k := sys.locks[l];
      Move(sys, if k.holder != Some(t) then Entering else Nesting, me.held, l, k)
    case Release(l) => Move(sys, Testing, me.held, l, sys.locks[l])
    case Advance => NextStatement(sys)
  }

  // ---------------------------------------------------------------- what one lock keeps

  /** A thread moves on without touching the semaphore. */
  lemma SeatMoves(seats: map<Tid, Seat>, k: Lock, t: Tid, x: Seat, k': Lock)
    requires LockOk(seats, k) && t in seats && !seats[t].asleep && !x.asleep
    requires k'.waiters == k.waiters && k'.value == k.value && k'.owner == k.owner
    requires seats[t].phase != InDown && x.phase != InDown && SeatOk(x) && Owns(x) == Owns(seats[t])
    requires if k.owner == Some(t) then OwnerOk(x, t, k') else k'.holder == k.holder && k'.repeat == k.repeat
    ensures LockOk(seats[t := x], k')
  {
    WokenMoves(seats, t, x);
    hide Woken, SeatOk, Owns, NoDup;
    assert k.owner.Some? && k.owner != Some(t) ==> OwnerOk(seats[k.owner.value], k.owner.value, k');
  }

  lemma WokenMoves(seats: map<Tid, Seat>, t: Tid, x: Seat)
    requires t in seats && seats[t].phase != InDown && x.phase != InDown
    ensures Woken(seats[t := x]) == Woken(seats)
  {
  }

  lemma SleeperOk()
    ensures SeatOk(Seat(InDown, 0, true)) && !Owns(Seat(InDown, 0, true))
  {
  }

  lemma NotOwner(x: Seat)
    requires SeatOk(x) && x.phase in {Entering, InDown}
    ensures !Owns(x)
  {
  }

  lemma SeatSleeps(seats: map<Tid, Seat>, k: Lock, t: Tid)
    requires LockOk(seats, k) && t in seats && !seats[t].asleep && seats[t].phase in {Entering, InDown} && k.value == 0
    ensures LockOk(seats[t := Seat(InDown, 0, true)], k.(waiters := k.waiters + [t]))
  {
    hide Woken, SeatOk, Owns;
    var q := k.waiters + [t];
    assert q[|k.waiters|] == t && q[..|k.waiters|] == k.waiters;
    assert SeatOk(Seat(InDown, 0, true)) && !Owns(Seat(InDown, 0, true)) by { SleeperOk(); }
    assert !Owns(seats[t]) by { NotOwner(seats[t]); }
    assert NoDup(q);
    hide NoDup;
  }

  lemma SeatTakes(seats: map<Tid, Seat>, k: Lock, t: Tid)
    requires LockOk(seats, k) && t in seats && !seats[t].asleep && seats[t].phase in {Entering, InDown} && k.value != 0
    ensures k.value == 1 && LockOk(seats[t := Seat(Got, 0, false)], k.(value := 0, owner := Some(t)))
  {
    hide Woken, NoDup;
  }

  lemma SeatUps(seats: map<Tid, Seat>, k: Lock, t: Tid)
    requires LockOk(seats, k) && t in seats && seats[t].phase == Upping
    ensures k.value == 0 && !seats[t].asleep
    ensures k.waiters == [] ==> LockOk(seats[t := Seat(Out, 0, false)], k.(value := 1, owner := None))
  {
    hide Woken, NoDup;
  }

  /** The waiter taken off the list is awake and will look at the value: the wakeup is not lost. */
  lemma SeatWakes(seats: map<Tid, Seat>, k: Lock, t: Tid)
    requires LockOk(seats, k) && t in seats && seats[t].phase == Upping && k.waiters != []
    ensures k.waiters[0] in seats
    ensures LockOk(seats[t := Seat(Out, 0, false)][k.waiters[0] := Seat(InDown, 0, false)],
                   k.(value := 1, owner := None, waiters := k.waiters[1..]))
  {
    var u := k.waiters[0];
    var seats' := seats[t := Seat(Out, 0, false)][u := Seat(InDown, 0, false)];
    assert u in Woken(seats');
    TailOf(k.waiters);
    hide Woken, NoDup;
  }

  // ---------------------------------------------------------------- what a step does to the seats

  lemma SeatsScheduled(sys: Sys, s': Sched, l: LockId)
    requires sys.local.Keys == sys.s.threads.Keys && SleepersKept(sys.s, s')
    requires sys.s.idle in sys.local && sys.local[sys.s.idle].phase == Out
    ensures Seats(sys.(s := s'), l) == Seats(sys, l)
  {
  }

  function FallAsleep(sys: Sys, k: Lock): Sys
    requires sys.s.cur in sys.local && sys.s.cur in sys.s.threads
  {
    var me := sys.local[sys.s.cur];
    Move(sys, InDown, me.held, me.lock, k).(s := With(sys.s, sys.s.cur, Blocked))
  }

  lemma SeatsAsleep(sys: Sys, k: Lock, l: LockId)
    requires Basic(sys) && sys.local[sys.s.cur].phase != Out && Wellformed(sys)
    ensures var me := sys.local[sys.s.cur];
            Seats(FallAsleep(sys, k), l) ==
            if l == me.lock then Seats(sys, l)[sys.s.cur := Seat(InDown, me.held[l], true)] else Seats(sys, l)
  {
    CurRuns(sys);
    hide SchedOk, LocalOk;
    var t := sys.s.cur;
    var x, y := sys.local[t], Local(InDown, sys.local[t].lock, sys.local[t].held);
    if l == x.lock {
      assert SeatOf(y, true, l) == Seat(InDown, x.held[l], true);
    } else {
      assert SeatOf(y, true, l) == SeatOf(x, false, l);
    }
    hide SeatOf;
  }

  lemma CurRuns(sys: Sys)
    requires Wellformed(sys)
    ensures Basic(sys) && SchedOk(sys.s)
    ensures sys.s.cur in sys.local && sys.s.threads[sys.s.cur].status == Running
    ensures sys.s.idle in sys.local && sys.local[sys.s.idle].phase == Out
    ensures LocalOk(sys.local[sys.s.cur], Running, sys.locks.Keys)
  {
  }

  /** A thread that is busy with lock l is nothing to another lock but the holder it was. */
  lemma SeatMoved(x: Local, y: Local, l: LockId, blocked: bool)
    requires (x.phase == Out || x.lock != l) && (y.phase == Out || y.lock != l) && x.held[l] == y.held[l]
    ensures SeatOf(x, blocked, l) == SeatOf(y, blocked, l)
  {
  }

  lemma SeatsMoved(sys: Sys, phase: Phase, held: multiset<LockId>, l: LockId, k: Lock, l': LockId)
    requires Basic(sys) && phase != InDown && Wellformed(sys)
    requires sys.local[sys.s.cur].phase == Out || sys.local[sys.s.cur].lock == l
    requires l' != l ==> held[l'] == sys.local[sys.s.cur].held[l']
    ensures Seats(Move(sys, phase, held, l, k), l') ==
            if l' == l then Seats(sys, l)[sys.s.cur := Seat(phase, held[l], false)] else Seats(sys, l')
  {
    CurRuns(sys);
    hide SchedOk, LocalOk;
    if l' == l {
      assert SeatOf(Local(phase, l, held), false, l) == Seat(phase, held[l], false);
    } else {
      SeatMoved(sys.local[sys.s.cur], Local(phase, l, held), l', false);
    }
    hide SeatOf;
  }

  lemma MyLock(sys: Sys)
    requires Basic(sys) && Enabled(sys, Advance) && Inv(sys)
    ensures var me := sys.local[sys.s.cur];
            && me.lock in sys.locks && LockOk(Seats(sys, me.lock), sys.locks[me.lock])
            && sys.s.cur in Seats(sys, me.lock)
            && Seats(sys, me.lock)[sys.s.cur] == Seat(me.phase, me.held[me.lock], false)
  {
    hide LockOk;
  }

  /** No assert of sync.c fires, nor one of those in the scheduler that it calls. */
  lemma AssertsNeverFire(sys: Sys, a: Action)
    requires Basic(sys) && Enabled(sys, a) && Inv(sys)
    ensures AssertsHold(sys, a)
  {
    if a.Advance? {
      AdvanceAsserts(sys);
    } else if a.Release? {
      ReleaseAssert(sys, a.l);
    } else {
      hide LockOk, Seats;
    }
  }

  lemma AdvanceAsserts(sys: Sys)
    requires Basic(sys) && Enabled(sys, Advance) && Inv(sys)
    ensures AssertsHold(sys, Advance)
  {
    hide LockOk, SchedOk, Seats, LocalOk;
    CurRuns(sys);
    MyLock(sys);
    var t := sys.s.cur;
    var me := sys.local[t];
    var k := sys.locks[me.lock];
    SeatAsserts(Seats(sys, me.lock), k, t);
    if me.phase == Upping && k.waiters != [] {
      WaiterAsleep(sys, me.lock, k.waiters[0]);
    }
  }

  lemma SeatAsserts(seats: map<Tid, Seat>, k: Lock, t: Tid)
    requires LockOk(seats, k) && t in seats && !seats[t].asleep
    ensures t !in k.waiters && k.value <= 1
    ensures seats[t].phase == Upping ==> k.value == 0
    ensures seats[t].phase == Checking ==> k.repeat == 0
    ensures seats[t].phase == Ending ==> k.repeat == 1
  {
    hide Woken, NoDup;
  }

  lemma WaiterAsleep(sys: Sys, l: LockId, u: Tid)
    requires Inv(sys) && l in sys.locks && u in sys.locks[l].waiters
    ensures u in sys.s.threads && sys.s.threads[u].status == Blocked && u !in sys.s.ready
    ensures sys.local[u].phase == InDown && sys.local[u].lock == l && sys.local[u].held[l] == 0
  {
    assert u in Seats(sys, l) && Seats(sys, l)[u].asleep && SeatOk(Seats(sys, l)[u]);
    NotReady(sys.s, u);
  }

  /** The assert in lock_release says exactly that the caller has acquires left to undo. */
  lemma ReleaseAssert(sys: Sys, l: LockId)
    requires Basic(sys) && l in sys.locks && sys.local[sys.s.cur].phase == Out && Inv(sys)
    ensures sys.locks[l].holder == Some(sys.s.cur) <==> sys.local[sys.s.cur].held[l] >= 1
  {
    hide Inv, LockOk, Seats;
    InvBasics(sys);
    LockOf(sys, l);
    HolderIs(Seats(sys, l), sys.locks[l], sys.s.cur);
  }

  /** Outside sync.c a thread is recorded as the holder exactly while it has acquires to undo. */
  lemma HolderIs(seats: map<Tid, Seat>, k: Lock, t: Tid)
    requires LockOk(seats, k) && t in seats && seats[t].phase == Out
    ensures k.holder == Some(t) <==> seats[t].depth >= 1
    ensures seats[t].depth >= 1 ==> k.repeat == seats[t].depth
  {
    hide Woken, NoDup;
  }

  // ---------------------------------------------------------------- what every step keeps

  lemma ScheduledKeeps(sys: Sys, s': Sched)
    requires Inv(sys) && SchedOk(s') && SleepersKept(sys.s, s')
    ensures Inv(sys.(s := s'))
  {
    ScheduledWellformed(sys, s');
    hide LockOk, SchedOk, Seats, LocalOk;
    forall l | l in sys.locks ensures LockOk(Seats(sys.(s := s'), l), sys.locks[l]) {
      SeatsScheduled(sys, s', l);
    }
  }

  lemma ScheduledWellformed(sys: Sys, s': Sched)
    requires Wellformed(sys) && SchedOk(s') && SleepersKept(sys.s, s')
    ensures Wellformed(sys.(s := s'))
  {
    assert s'.cur in s'.threads;
    hide Schedulable;
  }

  ghost predicate OnlyAbout(held: multiset<LockId>, held': multiset<LockId>, l: LockId) {
    forall l' :: l' != l ==> held'[l'] == held[l']
  }

  lemma MoveWellformed(sys: Sys, phase: Phase, held: multiset<LockId>, l: LockId, k: Lock)
    requires Wellformed(sys) && l in sys.locks && sys.s.cur != sys.s.idle
    requires OnlyAbout(sys.local[sys.s.cur].held, held, l)
    ensures Wellformed(Move(sys, phase, held, l, k))
  {
    CurRuns(sys);
    hide SchedOk;
    var r := Move(sys, phase, held, l, k);
    assert r.locks.Keys == sys.locks.Keys;
    assert LocalOk(Local(phase, l, held), Running, sys.locks.Keys);
    hide LocalOk;
  }

  /** A statement that leaves the semaphore alone, seen from the lock it is about. */
  lemma MoveKeeps(sys: Sys, phase: Phase, held: multiset<LockId>, l: LockId, k: Lock)
    requires Basic(sys) && l in sys.locks && phase != InDown && sys.s.cur != sys.s.idle
    requires sys.local[sys.s.cur].phase == Out || sys.local[sys.s.cur].lock == l
    requires OnlyAbout(sys.local[sys.s.cur].held, held, l)
    requires LockOk(Seats(sys, l)[sys.s.cur := Seat(phase, held[l], false)], k)
    requires Inv(sys)
    ensures Inv(Move(sys, phase, held, l, k))
  {
    hide LockOk, Wellformed, Seats, SchedOk, LocalOk;
    MoveWellformed(sys, phase, held, l, k);
    CurRuns(sys);
    var r := Move(sys, phase, held, l, k);
    forall l' | l' in r.locks ensures LockOk(Seats(r, l'), r.locks[l']) {
      SeatsMoved(sys, phase, held, l, k, l');
    }
  }

  lemma InvBasics(sys: Sys)
    requires Inv(sys)
    ensures Wellformed(sys)
  {
  }

  /** What the owner of a lock is to it. */
  lemma OwnerSeat(seats: map<Tid, Seat>, k: Lock, t: Tid)
    requires LockOk(seats, k) && t in seats && Owns(seats[t])
    ensures SeatOk(seats[t]) && k.owner == Some(t) && OwnerOk(seats[t], t, k)
  {
    hide Woken, NoDup;
  }

  lemma SeatFacts(seats: map<Tid, Seat>, k: Lock, t: Tid)
    requires LockOk(seats, k) && t in seats
    ensures SeatOk(seats[t])
  {
    hide Woken, NoDup;
  }

  /** What a statement around the semaphore does to its thread and its lock. */
  ghost predicate QuietMove(sys: Sys, r: Sys)
    requires Basic(sys)
  {
    var t := sys.s.cur;
    var me := sys.local[t];
    && me.lock in sys.locks && me.lock in r.locks && t in r.local
    && var me', k, k' := r.local[t], sys.locks[me.lock], r.locks[me.lock];
       && r == Move(sys, me'.phase, me'.held, me.lock, k') && me'.phase != InDown && OnlyAbout(me.held, me'.held, me.lock)
       && k'.waiters == k.waiters && k'.value == k.value && k'.owner == k.owner
       && var y := Seat(me'.phase, me'.held[me.lock], false); SeatOk(y) && Owns(y) && OwnerOk(y, t, k')
  }

  lemma QuietMoves(sys: Sys)
    requires Basic(sys) && Enabled(sys, Advance) && Wellformed(sys) && AssertsHold(sys, Advance)
    requires sys.local[sys.s.cur].phase !in {Entering, InDown, Upping} && sys.local[sys.s.cur].lock in sys.locks
    requires var me := sys.local[sys.s.cur];
             var x := Seat(me.phase, me.held[me.lock], false);
             SeatOk(x) && Owns(x) && OwnerOk(x, sys.s.cur, sys.locks[me.lock])
    ensures QuietMove(sys, NextStatement(sys))
  {
    hide Wellformed;
  }

  /** The statements of lock_acquire and lock_release around the semaphore. */
  lemma QuietKeeps(sys: Sys)
    requires Basic(sys) && Enabled(sys, Advance) && Inv(sys) && AssertsHold(sys, Advance)
    requires sys.local[sys.s.cur].phase !in {Entering, InDown, Upping}
    ensures Inv(NextStatement(sys))
  {
    hide Inv, Wellformed, LockOk, SchedOk, Seats, LocalOk, NextStatement, OnlyAbout, AssertsHold;
    InvBasics(sys);
    CurRuns(sys);
    MyLock(sys);
    var t := sys.s.cur;
    var l := sys.local[t].lock;
    var k := sys.locks[l];
    SeatFacts(Seats(sys, l), k, t);
    OwnerSeat(Seats(sys, l), k, t);
    QuietMoves(sys);
    var r := NextStatement(sys);
    var me', k' := r.local[t], r.locks[l];
    var y := Seat(me'.phase, me'.held[l], false);
    hide SeatOk, Owns, OwnerOk;
    SeatMoves(Seats(sys, l), k, t, y, k');
    MoveKeeps(sys, me'.phase, me'.held, l, k');
  }

  lemma SleepsKeeps(sys: Sys, k: Lock, s': Sched)
    requires Basic(sys) && sys.local[sys.s.cur].phase != Out
    requires SchedOk(s') && SleepersKept(With(sys.s, sys.s.cur, Blocked), s')
    requires LockOk(Seats(FallAsleep(sys, k), sys.local[sys.s.cur].lock), k)
    requires Inv(sys)
    ensures Inv(FallAsleep(sys, k).(s := s'))
  {
    hide Wellformed, LockOk, SchedOk, Seats, LocalOk, SleepersKept;
    CurRuns(sys);
    var r := FallAsleep(sys, k);
    SleepsWellformed(sys, k, s');
    CurRuns(r.(s := s'));
    forall l | l in sys.locks ensures LockOk(Seats(r.(s := s'), l), r.locks[l]) {
      SeatsScheduled(r, s', l);
      SeatsAsleep(sys, k, l);
    }
  }

  lemma SleepsWellformed(sys: Sys, k: Lock, s': Sched)
    requires Basic(sys) && sys.local[sys.s.cur].phase != Out && Wellformed(sys)
    requires SchedOk(s') && SleepersKept(With(sys.s, sys.s.cur, Blocked), s')
    ensures Wellformed(FallAsleep(sys, k).(s := s'))
  {
    CurRuns(sys);
    hide SchedOk;
    assert FallAsleep(sys, k).locks.Keys == sys.locks.Keys;
  }

  lemma DownKeeps(sys: Sys)
    requires Basic(sys) && sys.local[sys.s.cur].phase in {Entering, InDown} && Inv(sys)
    ensures Inv(Down(sys))
  {
    hide Inv, Wellformed, LockOk, SchedOk, Seats, LocalOk, SleepersKept, Block;
    InvBasics(sys);
    CurRuns(sys);
    MyLock(sys);
    BlockKeeps(sys.s, Blocked);
    var t := sys.s.cur;
    var me := sys.local[t];
    var k := sys.locks[me.lock];
    var seats := Seats(sys, me.lock);
    SeatFacts(seats, k, t);
    if k.value == 0 {
      var k' := k.(waiters := k.waiters + [t]);
      SeatSleeps(seats, k, t);
      SeatsAsleep(sys, k', me.lock);
      SleepsKeeps(sys, k', Block(sys.s, Blocked));
    } else {
      SeatTakes(seats, k, t);
      MoveKeeps(sys, Got, me.held, me.lock, k.(value := 0, owner := Some(t)));
    }
  }

  lemma SeatsWoken(sys: Sys, u: Tid, l: LockId)
    requires sys.local.Keys == sys.s.threads.Keys && u in sys.local && u !in sys.s.ready
    requires sys.s.threads[u].status == Blocked && sys.local[u].phase == InDown
    ensures Seats(sys.(s := Unblock(sys.s, u)), l) ==
            if l == sys.local[u].lock then Seats(sys, l)[u := Seat(InDown, sys.local[u].held[l], false)] else Seats(sys, l)
  {
  }

  lemma UpKeeps(sys: Sys)
    requires Basic(sys) && Enabled(sys, Advance) && sys.local[sys.s.cur].phase == Upping
    requires Inv(sys) && AssertsHold(sys, Advance)
    ensures Inv(Up(sys))
  {
    hide Inv, Wellformed, AssertsHold, LockOk, SchedOk, Seats, LocalOk;
    InvBasics(sys);
    CurRuns(sys);
    MyLock(sys);
    var t := sys.s.cur;
    var me := sys.local[t];
    var k := sys.locks[me.lock];
    var seats := Seats(sys, me.lock);
    SeatFacts(seats, k, t);
    SeatUps(seats, k, t);
    if k.waiters == [] {
      MoveKeeps(sys, Out, me.held, me.lock, k.(value := 1, owner := None));
    } else {
      WaiterAsleep(sys, me.lock, k.waiters[0]);
      SeatWakes(seats, k, t);
      WakingKeeps(sys, me.lock, k.(value := 1, owner := None, waiters := k.waiters[1..]), k.waiters[0]);
    }
  }

  lemma WakingKeeps(sys: Sys, l: LockId, k': Lock, u: Tid)
    requires Basic(sys) && sys.local[sys.s.cur].phase == Upping && sys.local[sys.s.cur].lock == l && l in sys.locks
    requires u in sys.local && sys.s.threads[u].status == Blocked && u !in sys.s.ready
    requires sys.local[u].phase == InDown && sys.local[u].lock == l
    requires LockOk(Seats(sys, l)[sys.s.cur := Seat(Out, sys.local[sys.s.cur].held[l], false)]
                                 [u := Seat(InDown, sys.local[u].held[l], false)], k')
    requires Inv(sys)
    ensures Inv(Move(sys, Out, sys.local[sys.s.cur].held, l, k').(s := Unblock(sys.s, u)))
  {
    hide Wellformed, LockOk, SchedOk, Seats, LocalOk;
    CurRuns(sys);
    var held := sys.local[sys.s.cur].held;
    var mid := Move(sys, Out, held, l, k');
    MoveWellformed(sys, Out, held, l, k');
    CurRuns(mid);
    WakeWellformed(mid, u);
    var r := mid.(s := Unblock(sys.s, u));
    forall l' | l' in r.locks ensures LockOk(Seats(r, l'), r.locks[l']) {
      SeatsWoken(mid, u, l');
      SeatsMoved(sys, Out, held, l, k', l');
    }
  }

  lemma WakeWellformed(sys: Sys, u: Tid)
    requires Wellformed(sys) && u in sys.local && sys.s.threads[u].status.Asleep()
    ensures u !in sys.s.ready && Wellformed(sys.(s := Unblock(sys.s, u)))
  {
    UnblockKeeps(sys.s, u);
    hide SchedOk;
  }

  lemma AdvanceKeeps(sys: Sys)
    requires Basic(sys) && Enabled(sys, Advance) && Inv(sys) && AssertsHold(sys, Advance)
    ensures Inv(NextStatement(sys))
  {
    hide Inv, Wellformed, AssertsHold, Down, Up;
    InvBasics(sys);
    var p := sys.local[sys.s.cur].phase;
    if p in {Entering, InDown} {
      DownKeeps(sys);
    } else if p == Upping {
      UpKeeps(sys);
    } else {
      QuietKeeps(sys);
    }
  }

  lemma AcquireKeeps(sys: Sys, l: LockId)
    requires Basic(sys) && Enabled(sys, Acquire(l)) && Inv(sys) && AssertsHold(sys, Acquire(l))
    ensures Inv(Step(sys, Acquire(l)))
  {
    hide Inv, Wellformed, LockOk, Seats;
    InvBasics(sys);
    LockOf(sys, l);
    ReleaseAssert(sys, l);
    var t := sys.s.cur;
    var me, k := sys.local[t], sys.locks[l];
    var p := if k.holder != Some(t) then Entering else Nesting;
    EnterSeat(Seats(sys, l), k, t, Seat(p, me.held[l], false));
    MoveKeeps(sys, p, me.held, l, k);
  }

  lemma ReleaseKeeps(sys: Sys, l: LockId)
    requires Basic(sys) && Enabled(sys, Release(l)) && Inv(sys) && AssertsHold(sys, Release(l))
    ensures Inv(Step(sys, Release(l)))
  {
    hide Inv, Wellformed, LockOk, Seats;
    InvBasics(sys);
    LockOf(sys, l);
    var t := sys.s.cur;
    var me, k := sys.local[t], sys.locks[l];
    EnterSeat(Seats(sys, l), k, t, Seat(Testing, me.held[l], false));
    MoveKeeps(sys, Testing, me.held, l, k);
  }

  lemma LockOf(sys: Sys, l: LockId)
    requires Inv(sys) && l in sys.locks
    ensures LockOk(Seats(sys, l), sys.locks[l])
    ensures sys.local[sys.s.cur].phase == Out ==>
              sys.s.cur in Seats(sys, l) && Seats(sys, l)[sys.s.cur] == Seat(Out, sys.local[sys.s.cur].held[l], false)
  {
    hide LockOk;
  }

  /** A thread goes into lock_acquire or lock_release. */
  lemma EnterSeat(seats: map<Tid, Seat>, k: Lock, t: Tid, y: Seat)
    requires LockOk(seats, k) && t in seats && seats[t] == Seat(Out, y.depth, false) && !y.asleep
    requires y.phase in {Entering, Nesting, Testing} && (y.phase == Entering <==> y.depth == 0)
    ensures LockOk(seats[t := y], k)
  {
    if y.depth > 0 { OwnerSeat(seats, k, t); }
    SeatMoves(seats, k, t, y, k);
  }

  // ---------------------------------------------------------------- the steps that are not about a lock

  /** No thread sits at lock l differently. */
  lemma SeatsSame(sys: Sys, r: Sys, l: LockId)
    requires Basic(sys) && Basic(r) && r.local == sys.local
    requires forall t :: t in sys.local && sys.local[t].phase == InDown ==>
                           (r.s.threads[t].status == Blocked <==> sys.s.threads[t].status == Blocked)
    ensures Seats(r, l) == Seats(sys, l)
  {
  }

  lemma SleepWellformed(sys: Sys, st: Status, s': Sched)
    requires Basic(sys) && sys.local[sys.s.cur].phase == Out && Wellformed(sys)
    requires s'.cur in s'.threads && SchedOk(s') && SleepersKept(With(sys.s, sys.s.cur, st), s')
    ensures Wellformed(sys.(s := s'))
  {
    hide SchedOk;
  }

  lemma CurInThreads(s: Sched)
    requires SchedOk(s)
    ensures s.cur in s.threads
  {
  }

  lemma SleepersSame(sys: Sys, st: Status, s': Sched)
    requires Basic(sys) && sys.local[sys.s.cur].phase == Out && sys.local[sys.s.idle].phase == Out
    requires SleepersKept(With(sys.s, sys.s.cur, st), s')
    ensures forall t :: t in sys.local && sys.local[t].phase == InDown ==>
                          (s'.threads[t].status == Blocked <==> sys.s.threads[t].status == Blocked)
  {
  }

  lemma SleepKeeps(sys: Sys, st: Status)
    requires Basic(sys) && Enabled(sys, Sleep(st)) && Inv(sys)
    ensures Inv(sys.(s := Block(sys.s, st)))
  {
    hide Block, SchedOk, LockOk, Seats, LocalOk, Wellformed, SleepersKept;
    CurRuns(sys);
    BlockKeeps(sys.s, st);
    var r := sys.(s := Block(sys.s, st));
    CurInThreads(r.s);
    SleepWellformed(sys, st, r.s);
    SleepersSame(sys, st, r.s);
    CurRuns(r);
    forall l | l in sys.locks ensures LockOk(Seats(r, l), r.locks[l]) {
      SeatsSame(sys, r, l);
    }
  }

  lemma WakeKeeps(sys: Sys, u: Tid)
    requires Basic(sys) && Enabled(sys, Wake(u)) && Inv(sys)
    ensures u !in sys.s.ready && Inv(sys.(s := Unblock(sys.s, u)))
  {
    hide LockOk, Seats, Schedulable, LocalOk;
    WakeWellformed(sys, u);
    var r := sys.(s := Unblock(sys.s, u));
    forall l | l in sys.locks ensures LockOk(Seats(r, l), r.locks[l]) {
      SeatsSame(sys, r, l);
    }
  }

  lemma InitKeeps(sys: Sys, l: LockId)
    requires Basic(sys) && Enabled(sys, InitLock(l)) && Inv(sys)
    ensures Inv(sys.(locks := sys.locks[l := NEW_LOCK]))
  {
    hide LockOk, SchedOk, LocalOk, Wellformed, Seats;
    NewLockOk(sys, l);
    var r := sys.(locks := sys.locks[l := NEW_LOCK]);
    InitWellformed(sys, l);
    forall l' | l' in r.locks ensures LockOk(Seats(r, l'), r.locks[l']) {
      SeatsSame(sys, r, l');
    }
  }

  lemma InitWellformed(sys: Sys, l: LockId)
    requires Wellformed(sys)
    ensures Wellformed(sys.(locks := sys.locks[l := NEW_LOCK]))
  {
    hide SchedOk;
    assert sys.locks[l := NEW_LOCK].Keys == sys.locks.Keys + {l};
  }

  lemma NewLockOk(sys: Sys, l: LockId)
    requires Wellformed(sys) && l !in sys.locks
    ensures LockOk(Seats(sys, l), NEW_LOCK)
  {
    hide SchedOk;
    forall t | t in sys.local ensures Seats(sys, l)[t] == Seat(Out, 0, false) {
      assert LocalOk(sys.local[t], sys.s.threads[t].status, sys.locks.Keys);
      assert l !in sys.local[t].held;
    }
  }

  lemma SeatAdded(seats: map<Tid, Seat>, k: Lock, u: Tid)
    requires LockOk(seats, k) && u !in seats
    ensures LockOk(seats[u := Seat(Out, 0, false)], k)
  {
    assert Woken(seats[u := Seat(Out, 0, false)]) == Woken(seats);
    hide Woken, NoDup;
  }

  lemma SeatDropped(seats: map<Tid, Seat>, k: Lock, u: Tid)
    requires LockOk(seats, k) && u in seats && seats[u] == Seat(Out, 0, false)
    ensures LockOk(seats - {u}, k)
  {
    assert Woken(seats - {u}) == Woken(seats);
    hide Woken, NoDup;
  }

  lemma SeatsAdded(sys: Sys, r: Sys, u: Tid, l: LockId)
    requires Basic(sys) && Basic(r) && r.local == sys.local[u := Local(Out, 0, multiset{})]
    requires forall t :: t in sys.local && t != u ==> r.s.threads[t] == sys.s.threads[t]
    ensures Seats(r, l) == Seats(sys, l)[u := Seat(Out, 0, false)]
  {
  }

  lemma SeatsKeys(sys: Sys, l: LockId)
    requires Basic(sys)
    ensures Seats(sys, l).Keys == sys.local.Keys
  {
  }

  lemma SeatsLess(sys: Sys, r: Sys, u: Tid, l: LockId)
    requires Basic(sys) && r.local == sys.local - {u} && r.local.Keys == r.s.threads.Keys
    requires forall t :: t in r.local ==> r.s.threads[t] == sys.s.threads[t]
    ensures Seats(r, l) == Seats(sys, l) - {u}
  {
  }

  function Started(sys: Sys, u: Tid, p: nat): Sys
    requires u !in sys.s.threads && u !in sys.s.ready
  {
    sys.(s := Start(sys.s, u, p), local := sys.local[u := Local(Out, 0, multiset{})])
  }

  lemma StartedWellformed(sys: Sys, u: Tid, p: nat)
    requires Wellformed(sys) && u !in sys.local
    ensures u !in sys.s.ready && Wellformed(Started(sys, u, p))
  {
    hide SchedOk, LocalOk;
    StartKeeps(sys.s, u, p);
    NewLocalOk(sys.locks.Keys);
  }

  lemma NewLocalOk(locks: set<LockId>)
    ensures LocalOk(Local(Out, 0, multiset{}), Ready, locks)
  {
  }

  lemma StartedKeeps(sys: Sys, u: Tid, p: nat)
    requires Basic(sys) && Enabled(sys, StartThread(u, p)) && Inv(sys)
    ensures u !in sys.s.ready && Inv(Started(sys, u, p))
  {
    hide LockOk, Seats, SchedOk, LocalOk, Wellformed;
    StartedWellformed(sys, u, p);
    var r := Started(sys, u, p);
    CurRuns(r);
    forall l | l in sys.locks ensures LockOk(Seats(r, l), r.locks[l]) {
      SeatsAdded(sys, r, u, l);
      SeatsKeys(sys, l);
      SeatAdded(Seats(sys, l), sys.locks[l], u);
    }
  }

  function Ended(sys: Sys, u: Tid): Sys
    requires SchedOk(sys.s) && u in sys.s.threads && u != sys.s.idle
  {
    sys.(s := Exit(sys.s, u), local := sys.local - {u})
  }

  lemma EndedWellformed(sys: Sys, u: Tid)
    requires Wellformed(sys) && u in sys.local && u != sys.s.idle
    ensures Wellformed(Ended(sys, u)) && SleepersKept(Gone(sys.s, u), Exit(sys.s, u))
  {
    ExitKeeps(sys.s, u);
    hide Schedulable, Exit;
  }

  lemma EndedKeeps(sys: Sys, u: Tid)
    requires Basic(sys) && Enabled(sys, EndThread(u)) && Inv(sys)
    ensures SchedOk(sys.s) && Inv(Ended(sys, u))
  {
    hide LockOk, SchedOk, Exit, LocalOk, SleepersKept, Wellformed, Seats;
    CurRuns(sys);
    EndedWellformed(sys, u);
    var gone := sys.(s := Gone(sys.s, u), local := sys.local - {u});
    var r := Ended(sys, u);
    CurRuns(r);
    forall l | l in sys.locks ensures LockOk(Seats(r, l), r.locks[l]) {
      SeatsLess(sys, gone, u, l);
      LeaverSeat(sys, u, l);
      SeatDropped(Seats(sys, l), sys.locks[l], u);
      SeatsScheduled(gone, r.s, l);
    }
  }

  lemma LeaverSeat(sys: Sys, u: Tid, l: LockId)
    requires Basic(sys) && u in sys.local && sys.local[u].phase == Out && sys.local[u].held == multiset{}
    ensures u in Seats(sys, l) && Seats(sys, l)[u] == Seat(Out, 0, false)
  {
  }

  // ---------------------------------------------------------------- every run

  lemma StepKeeps(sys: Sys, a: Action)
    requires Basic(sys) && Enabled(sys, a) && Inv(sys)
    ensures Wellformed(sys) && AssertsHold(sys, a) && Inv(Step(sys, a)) && Basic(Step(sys, a))
  {
    InvBasics(sys);
    AssertsNeverFire(sys, a);
    CurRuns(sys);
    hide Inv, Wellformed, NextStatement, Tick, Yield, Block, Unblock, Start, Exit, SleepersKept;
    match a {
      case TimerTick => TickKeeps(sys.s); ScheduledKeeps(sys, Tick(sys.s));
      case YieldCpu => YieldKeeps(sys.s); ScheduledKeeps(sys, Yield(sys.s));
      case Sleep(st) => SleepKeeps(sys, st);
      case Wake(u) => WakeKeeps(sys, u);
      case StartThread(u, p) => StartedKeeps(sys, u, p);
      case EndThread(u) => EndedKeeps(sys, u);
      case InitLock(l) => InitKeeps(sys, l);
      case Acquire(l) => AcquireKeeps(sys, l);
      case Release(l) => ReleaseKeeps(sys, l);
      case Advance => AdvanceKeeps(sys);
    }
    InvBasics(Step(sys, a));
    CurRuns(Step(sys, a));
  }

  /** A schedule of steps, each possible where it stands. */
  predicate CanRun(sys: Sys, acts: seq<Action>)
    requires Inv(sys)
    decreases |acts|
  {
    acts == [] ||
    (InvBasics(sys); CurRuns(sys); Enabled(sys, acts[0]) &&
     (StepKeeps(sys, acts[0]); CanRun(Step(sys, acts[0]), acts[1..])))
  }

  function Run(sys: Sys, acts: seq<Action>): (r: Sys)
    requires Inv(sys) && CanRun(sys, acts)
    ensures Inv(r)
    decreases |acts|
  {
    if acts == [] then sys else
    InvBasics(sys); CurRuns(sys); StepKeeps(sys, acts[0]);
    Run(Step(sys, acts[0]), acts[1..])
  }

  /** What thread_init leaves: init and idle are ready, main runs. */
  function Booted(): (sys: Sys)
    ensures Inv(sys)
  {
    Sys(Boot(),
        map[INIT := Local(Out, 0, multiset{}), MAIN := Local(Out, 0, multiset{}), IDLE := Local(Out, 0, multiset{})],
        map[])
  }

  /** A thread is between the end of sema_down in lock_acquire and sema_up in its last lock_release. */
  predicate InCritical(sys: Sys, t: Tid, l: LockId)
    requires t in sys.local
  {
    var x := sys.local[t];
    x.held[l] > 0 || (x.lock == l && x.phase in {Got, Checking, Setting, Zeroing, Upping})
  }

  lemma SeatAt(sys: Sys, t: Tid, l: LockId)
    requires Inv(sys) && t in sys.local && l in sys.locks
    ensures LockOk(Seats(sys, l), sys.locks[l]) && t in Seats(sys, l)
    ensures Seats(sys, l)[t].depth == sys.local[t].held[l]
    ensures InCritical(sys, t, l) <==> Owns(Seats(sys, l)[t])
    ensures sys.local[t].phase == Out ==> Seats(sys, l)[t].phase == Out
  {
    hide LockOk, SchedOk, LocalOk;
  }

  lemma AtMostOneOwner(seats: map<Tid, Seat>, k: Lock, t: Tid, u: Tid)
    requires LockOk(seats, k) && t in seats && u in seats && Owns(seats[t]) && Owns(seats[u])
    ensures t == u
  {
    hide Woken, NoDup, Owns, OwnerOk, SeatOk;
  }

  /** In every state of every run at most one thread is inside a lock. */
  lemma MutualExclusion(acts: seq<Action>, l: LockId, t: Tid, u: Tid)
    requires CanRun(Booted(), acts)
    requires var sys := Run(Booted(), acts);
             l in sys.locks && t in sys.local && u in sys.local && InCritical(sys, t, l) && InCritical(sys, u, l)
    ensures t == u
  {
    var sys := Run(Booted(), acts);
    hide *;
    SeatAt(sys, t, l);
    SeatAt(sys, u, l);
    AtMostOneOwner(Seats(sys, l), sys.locks[l], t, u);
  }

  /** The nesting count of a lock is the number of acquires its holder has still to undo. */
  lemma DepthIsExact(acts: seq<Action>, l: LockId, t: Tid)
    requires CanRun(Booted(), acts)
    requires var sys := Run(Booted(), acts); l in sys.locks && t in sys.local && sys.local[t].phase == Out
    ensures var sys := Run(Booted(), acts);
            && (sys.locks[l].holder == Some(t) <==> sys.local[t].held[l] > 0)
            && (sys.local[t].held[l] > 0 ==> sys.locks[l].repeat == sys.local[t].held[l])
  {
    var sys := Run(Booted(), acts);
    hide *;
    SeatAt(sys, t, l);
    HolderIs(Seats(sys, l), sys.locks[l], t);
  }

  lemma WokenThere(seats: map<Tid, Seat>, k: Lock)
    requires LockOk(seats, k) && k.value == 1 && k.waiters != []
    ensures Woken(seats) != {} && forall t :: t in Woken(seats) ==> t !in k.waiters
  {
  }

  /** Off the waiters, able to run, and about to look at the value of lock l again. */
  predicate Retries(sys: Sys, t: Tid, l: LockId) {
    && t in sys.local && t in sys.s.threads && l in sys.locks && t !in sys.locks[l].waiters
    && sys.local[t].phase == InDown && sys.local[t].lock == l && !sys.s.threads[t].status.Asleep()
  }

  lemma WokenRetries(sys: Sys, t: Tid, l: LockId)
    requires Inv(sys) && l in sys.locks && t !in sys.locks[l].waiters && t in Woken(Seats(sys, l))
    ensures Retries(sys, t, l)
  {
    hide LockOk, SchedOk;
    assert LocalOk(sys.local[t], sys.s.threads[t].status, sys.locks.Keys);
  }

  /** When a free lock has waiters, a thread taken off them can run and is about to look at it. */
  lemma NoLostWakeup(acts: seq<Action>, l: LockId)
    requires CanRun(Booted(), acts)
    requires var sys := Run(Booted(), acts); l in sys.locks && sys.locks[l].value == 1 && sys.locks[l].waiters != []
    ensures exists t :: Retries(Run(Booted(), acts), t, l)
  {
    var sys := Run(Booted(), acts);
    hide *;
    InvBasics(sys);
    LockThere(sys, l);
    WokenThere(Seats(sys, l), sys.locks[l]);
    var t :| t in Woken(Seats(sys, l));
    WokenRetries(sys, t, l);
  }

  lemma LockThere(sys: Sys, l: LockId)
    requires Inv(sys) && l in sys.locks
    ensures sys.local.Keys == sys.s.threads.Keys && LockOk(Seats(sys, l), sys.locks[l])
  {
    hide LockOk, SchedOk, Seats;
  }

  /** A thread's tag is on at most one list. */
  lemma OneListEach(acts: seq<Action>, l: LockId, t: Tid)
    requires CanRun(Booted(), acts)
    requires var sys := Run(Booted(), acts); l in sys.locks && t in sys.locks[l].waiters
    ensures var sys := Run(Booted(), acts);
            && NoDup(sys.locks[l].waiters) && t !in sys.s.ready
            && forall l' :: l' in sys.locks && l' != l ==> t !in sys.locks[l'].waiters
  {
    var sys := Run(Booted(), acts);
    hide Run, CanRun, Booted, SchedOk;
    WaiterAsleep(sys, l, t);
    forall l' | l' in sys.locks && t in sys.locks[l'].waiters ensures l' == l {
      WaiterAsleep(sys, l', t);
    }
    assert LockOk(Seats(sys, l), sys.locks[l]);
  }

  // ---------------------------------------------------------------- the code of sync.c

  /** sys becomes sys' by step a, on which no assert fires. */
  predicate Steps(sys: Sys, a: Action, sys': Sys) {
    Basic(sys) && Enabled(sys, a) && Wellformed(sys) && AssertsHold(sys, a) && sys' == Step(sys, a)
  }

  /** A nested release has an acquire to go back to. */
  lemma HeldTwice(sys: Sys)
    requires Basic(sys) && Inv(sys) && Enabled(sys, Advance) && sys.local[sys.s.cur].phase == Dropping
    ensures sys.local[sys.s.cur].lock in sys.locks && sys.locks[sys.local[sys.s.cur].lock].repeat >= 2
  {
    hide Inv, LockOk, Seats;
    MyLock(sys);
    var me := sys.local[sys.s.cur];
    InvBasics(sys);
    SeatFacts(Seats(sys, me.lock), sys.locks[me.lock], sys.s.cur);
    OwnerSeat(Seats(sys, me.lock), sys.locks[me.lock], sys.s.cur);
  }

  lemma DownSteps(sys: Sys)
    requires Basic(sys) && sys.local[sys.s.cur].phase in {Entering, InDown} && Inv(sys)
    ensures Wellformed(sys) && SchedOk(sys.s) && sys.local[sys.s.cur].lock in sys.locks && sys.s.cur != sys.s.idle
    ensures Steps(sys, Advance, Down(sys)) && Inv(Down(sys)) && Basic(Down(sys))
  {
    InvBasics(sys);
    CurRuns(sys);
    StepKeeps(sys, Advance);
  }

  lemma UpSteps(sys: Sys)
    requires Basic(sys) && sys.local[sys.s.cur].phase == Upping && Inv(sys)
    ensures Wellformed(sys) && SchedOk(sys.s) && sys.local[sys.s.cur].lock in sys.locks && AssertsHold(sys, Advance)
    ensures var k := sys.locks[sys.local[sys.s.cur].lock];
            k.waiters != [] ==> k.waiters[0] in sys.s.threads && sys.s.threads[k.waiters[0]].status.Asleep()
    ensures Steps(sys, Advance, Up(sys)) && Inv(Up(sys)) && Basic(Up(sys))
  {
    InvBasics(sys);
    CurRuns(sys);
    StepKeeps(sys, Advance);
  }

  /** The running thread's program counter is its phase; each method is one of the steps above. */
  class Machine {
    const kernel: Kernel
    var local: map<Tid, Local>
    var locks: map<LockId, Lock>

    constructor ()
      ensures Valid() && State() == Booted()
    {
      kernel := new Kernel();
      local := Booted().local;
      locks := map[];
      new;
    }

    function State(): Sys
      reads this, kernel
    {
      Sys(kernel.State(), local, locks)
    }

    ghost predicate Valid()
      reads this, kernel
    {
      Basic(State()) && Inv(State())
    }

    method Goto(phase: Phase, held: multiset<LockId>, l: LockId, k: Lock)
      modifies this
      ensures State() == Move(old(State()), phase, held, l, k)
    {
      local := local[kernel.cur := Local(phase, l, held)];
      locks := locks[l := k];
    }

    /** lock_acquire as far as the test of the holder. */
    method LockAcquire(l: LockId)
      requires Basic(State()) && Enabled(State(), Acquire(l)) && Valid()
      modifies this
      ensures Valid() && Steps(old(State()), Acquire(l), State())
    {
      hide Inv, Wellformed;
      StepKeeps(State(), Acquire(l));
      var t := kernel.cur;
      if locks[l].holder != Some(t) {
        Goto(Entering, local[t].held, l, locks[l]);
      } else {
        Goto(Nesting, local[t].held, l, locks[l]);
      }
    }

    /** lock_release as far as its first assert. */
    method LockRelease(l: LockId)
      requires Basic(State()) && Enabled(State(), Release(l)) && Valid()
      modifies this
      ensures Valid() && Steps(old(State()), Release(l), State())
    {
      hide Inv, Wellformed;
      StepKeeps(State(), Release(l));
      assert locks[l].holder == Some(kernel.cur);
      Goto(Testing, local[kernel.cur].held, l, locks[l]);
    }

    /** The statements of lock_acquire and lock_release around the semaphore. */
    method Statement()
      requires Basic(State()) && local[kernel.cur].phase !in {Out, Entering, InDown, Upping} && Valid()
      modifies this
      ensures Valid() && Steps(old(State()), Advance, State())
    {
      hide Inv, Wellformed;
      StepKeeps(State(), Advance);
      InvBasics(State());
      MyLock(State());
      var t := kernel.cur;
      var me := local[t];
      var l, k := me.lock, locks[me.lock];
      match me.phase {
        case Got => Goto(Checking, me.held, l, k.(holder := Some(t)));
        case Checking => assert k.repeat == 0; Goto(Setting, me.held, l, k);
        case Setting => Goto(Out, me.held + multiset{l}, l, k.(repeat := 1));
        case Nesting => Goto(Out, me.held + multiset{l}, l, k.(repeat := k.repeat + 1));
        case Testing =>
          if k.repeat > 1 {
            Goto(Dropping, me.held, l, k);
          } else {
            Goto(Ending, me.held, l, k);
          }
        case Dropping =>
          HeldTwice(State());
          Goto(Out, me.held - multiset{l}, l, k.(repeat := k.repeat - 1));
        case Ending => assert k.repeat == 1; Goto(Clearing, me.held, l, k);
        case Clearing => Goto(Zeroing, me.held - multiset{l}, l, k.(holder := None));
        case Zeroing => Goto(Upping, me.held, l, k.(repeat := 0));
      }
    }

    /** One turn of the loop in sema_down, or what follows it. */
    method SemaDown()
      requires Basic(State()) && local[kernel.cur].phase in {Entering, InDown} && Valid()
      modifies this, kernel
      ensures Valid() && Steps(old(State()), Advance, State())
    {
      hide Inv, Wellformed, Block, SchedOk, Steps;
      DownSteps(State());
      var t := kernel.cur;
      var me := local[t];
      var k := locks[me.lock];
      if k.value == 0 {
        Goto(InDown, me.held, me.lock, k.(waiters := k.waiters + [t]));
        kernel.ThreadBlock(Blocked);
      } else {
        Goto(Got, me.held, me.lock, k.(value := k.value - 1, owner := Some(t)));
      }
    }

    method SemaUp()
      requires Basic(State()) && local[kernel.cur].phase == Upping && Valid()
      modifies this, kernel
      ensures Valid() && Steps(old(State()), Advance, State())
    {
      hide Inv, Wellformed, Unblock, SchedOk, Steps, AssertsHold;
      UpSteps(State());
      var me := local[kernel.cur];
      var k := locks[me.lock];
      if k.waiters != [] {
        Goto(Out, me.held, me.lock, k.(value := k.value + 1, owner := None, waiters := k.waiters[1..]));
        kernel.ThreadUnblock(k.waiters[0]);
      } else {
        Goto(Out, me.held, me.lock, k.(value := k.value + 1, owner := None));
      }
    }
  }
}
