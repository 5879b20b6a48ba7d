/**
 * palloc on the kernel's pool statement by statement. The caller holds the lock of the pool it allocates for, and
 * page_table_add takes kernel frames for the tables of a process under the lock of the user pool.
 */
module PoolLocks {
  import A = AddressSpace

  datatype Lock = KernelPool | UserPool

  /** Found: bitmap_scan has returned f and bitmap_set has not run yet. */
  datatype Phase = Idle | Locked(l: Lock) | Found(l: Lock, f: nat)

  /** used are the bits of the pool; grants (auxiliary) counts how often each frame is out. */
  datatype State = State(lo: nat, n: nat, used: set<nat>, pcs: map<nat, Phase>, grants: multiset<nat>)

  datatype Action = Acquire(t: nat, l: Lock) | Scan(t: nat) | Set(t: nat) | Give(t: nat, f: nat) | Release(t: nat)

  predicate Holds(s: State, t: nat, l: Lock) {
    t in s.pcs && !s.pcs[t].Idle? && s.pcs[t].l == l
  }

  function Lowest(s: State): nat { A.FirstFree(s.lo, s.lo + s.n, s.used) }

  /** With no frame left bitmap_scan halts. */
  predicate Enabled(s: State, x: Action) {
    x.t in s.pcs &&
    match x
    case Acquire(t, l) => s.pcs[t].Idle? && forall u :: u in s.pcs ==> !Holds(s, u, l)
    case Scan(t) => s.pcs[t].Locked? && Lowest(s) < s.lo + s.n
    case Set(t) => s.pcs[t].Found?
    case Give(t, f) => s.pcs[t].Locked? && f in s.grants
    case Release(t) => s.pcs[t].Locked?
  }

  function Step(s: State, x: Action): State
    requires Enabled(s, x)
  {
    match x
    case Acquire(t, l) => s.(pcs := s.pcs[t := Locked(l)])
    case Scan(t) => s.(pcs := s.pcs[t := Found(s.pcs[t].l, Lowest(s))])
    case Set(t) =>
      var f := s.pcs[t].f;
      s.(pcs := s.pcs[t := Locked(s.pcs[t].l)], used := s.used + {f}, grants := s.grants + multiset{f})
    case Give(_, f) => s.(used := s.used - {f}, grants := s.grants - multiset{f})
    case Release(t) => s.(pcs := s.pcs[t := Idle])
  }

  // ---------------------------------------------------------------- when a frame is out twice

  /** Every frame is out at most once, and the bits say which are. */
  ghost predicate Ok(s: State) {
    forall f :: s.grants[f] == if f in s.used then 1 else 0
  }

  /** bitmap_set is about to set a bit that is set. */
  predicate Late(s: State, x: Action) {
    x.Set? && x.t in s.pcs && s.pcs[x.t].Found? && s.pcs[x.t].f in s.used
  }

  /** A step breaks it exactly when it sets a bit that is already set. */
  lemma StepExactly(s: State, x: Action)
    requires Ok(s) && Enabled(s, x)
    ensures Ok(Step(s, x)) <==> !Late(s, x)
  {
    var s' := Step(s, x);
    match x {
      case Set(t) =>
        var f := s.pcs[t].f;
        assert s'.grants[f] == s.grants[f] + 1;
      case Give(t, f) =>
        assert s.grants[f] == 1;
        assert s'.grants[f] == 0;
      case Acquire(_, _) =>
      case Scan(_) =>
      case Release(_) =>
    }
  }

  predicate CanRun(s: State, acts: seq<Action>)
    decreases |acts|
  {
    acts == [] || (Enabled(s, acts[0]) && CanRun(Step(s, acts[0]), acts[1..]))
  }

  ghost predicate AlwaysOk(s: State, acts: seq<Action>)
    requires CanRun(s, acts)
    decreases |acts|
  {
    Ok(s) && (acts != [] ==> AlwaysOk(Step(s, acts[0]), acts[1..]))
  }

  predicate NeverLate(s: State, acts: seq<Action>)
    requires CanRun(s, acts)
    decreases |acts|
  {
    acts == [] || (!Late(s, acts[0]) && NeverLate(Step(s, acts[0]), acts[1..]))
  }

  /** Over any run of any threads with any locks. */
  lemma {:induction false} UniqueExactly(s: State, acts: seq<Action>)
    requires Ok(s) && CanRun(s, acts)
    ensures AlwaysOk(s, acts) <==> NeverLate(s, acts)
    decreases |acts|
  {
    hide Ok, Enabled, Step, Late;
    if acts != [] {
      StepExactly(s, acts[0]);
      if !Late(s, acts[0]) {
        UniqueExactly(Step(s, acts[0]), acts[1..]);
      } else if CanRun(Step(s, acts[0]), acts[1..]) {
        NotFromBad(Step(s, acts[0]), acts[1..]);
      }
    }
  }

  lemma NotFromBad(s: State, acts: seq<Action>)
    requires CanRun(s, acts) && !Ok(s)
    ensures !AlwaysOk(s, acts)
  {
  }

  // ---------------------------------------------------------------- what rules it out

  /** No thread is between its scan and its set. */
  predicate Settled(s: State) {
    forall t :: t in s.pcs ==> !s.pcs[t].Found?
  }

  /** Whoever found a frame finds its bit still clear. */
  predicate Current(s: State) {
    forall t :: t in s.pcs && s.pcs[t].Found? ==> s.pcs[t].f !in s.used
  }

  lemma CurrentNotLate(s: State, x: Action)
    requires Current(s) && Enabled(s, x)
    ensures !Late(s, x)
  {
  }

  /** All threads that work on the pool hold lock l, so there is one at most. */
  predicate Under(s: State, l: Lock) {
    && (forall t :: t in s.pcs && !s.pcs[t].Idle? ==> Holds(s, t, l))
    && (forall t, u :: t in s.pcs && u in s.pcs && !s.pcs[t].Idle? && !s.pcs[u].Idle? ==> t == u)
  }

  predicate AllTake(acts: seq<Action>, l: Lock) {
    forall i :: 0 <= i < |acts| && acts[i].Acquire? ==> acts[i].l == l
  }

  lemma UnderKeeps(s: State, x: Action, l: Lock)
    requires Under(s, l) && Current(s) && Enabled(s, x) && (x.Acquire? ==> x.l == l)
    ensures Under(Step(s, x), l) && Current(Step(s, x))
  {
  }

  /** One lock for all who take frames from the pool is enough, whatever the timer does. */
  lemma {:induction false} OneLockSuffices(s: State, acts: seq<Action>, l: Lock)
    requires Under(s, l) && Current(s) && CanRun(s, acts) && AllTake(acts, l)
    ensures NeverLate(s, acts)
    decreases |acts|
  {
    hide Enabled, Step, Late, Under, Current;
    if acts != [] {
      CurrentNotLate(s, acts[0]);
      UnderKeeps(s, acts[0], l);
      OneLockSuffices(Step(s, acts[0]), acts[1..], l);
    }
  }

  /** Nobody runs between a scan and its set. */
  predicate Undisturbed(acts: seq<Action>) {
    forall i :: 0 <= i < |acts| && acts[i].Scan? ==> i + 1 < |acts| && acts[i + 1] == Set(acts[i].t)
  }

  lemma ScanThenSet(s: State, t: nat)
    requires Settled(s) && Enabled(s, Scan(t))
    ensures var s1 := Step(s, Scan(t));
            Enabled(s1, Set(t)) && !Late(s, Scan(t)) && !Late(s1, Set(t)) && Settled(Step(s1, Set(t)))
  {
  }

  lemma OtherSettled(s: State, x: Action)
    requires Settled(s) && Enabled(s, x) && !x.Scan?
    ensures !Late(s, x) && Settled(Step(s, x))
  {
  }

  /** With scan and set as one step no frame is given twice, whatever locks are held. */
  lemma {:induction false} OneStepSuffices(s: State, acts: seq<Action>)
    requires Settled(s) && CanRun(s, acts) && Undisturbed(acts)
    ensures NeverLate(s, acts)
    decreases |acts|
  {
    hide Enabled, Step, Late, Settled;
    if acts != [] {
      if acts[0].Scan? {
        assert acts[1] == Set(acts[0].t) && acts[1..][0] == acts[1];
        ScanThenSet(s, acts[0].t);
        var s1 := Step(s, acts[0]);
        assert acts[1..][1..] == acts[2..];
        OneStepSuffices(Step(s1, acts[1]), acts[2..]);
      } else {
        OtherSettled(s, acts[0]);
        OneStepSuffices(Step(s, acts[0]), acts[1..]);
      }
    }
  }

  // ---------------------------------------------------------------- the two locks of the source

  /** A kernel thread allocating for the kernel, and a process whose page_table_add makes a table. */
  const RACE := [Acquire(1, KernelPool), Scan(1), Acquire(2, UserPool), Scan(2), Set(2), Set(1)]

  function Start(lo: nat, n: nat, used: set<nat>, grants: multiset<nat>): State {
    State(lo, n, used, map[1 := Idle, 2 := Idle], grants)
  }

  function Run(s: State, acts: seq<Action>): State
    requires CanRun(s, acts)
    decreases |acts|
  {
    if acts == [] then s else Run(Step(s, acts[0]), acts[1..])
  }

  lemma Two(s: State, x: Action, y: Action, rest: seq<Action>)
    requires Enabled(s, x) && Enabled(Step(s, x), y) && CanRun(Step(Step(s, x), y), rest)
    ensures CanRun(s, [x, y] + rest) && Run(s, [x, y] + rest) == Run(Step(Step(s, x), y), rest)
  {
    hide Enabled, Step;
    var acts := [x, y] + rest;
    assert acts[1..] == [y] + rest && acts[1..][1..] == rest && acts[0] == x && acts[1..][0] == y;
  }

  /**
   * With the locks as they are, from any pool with a frame left, the same frame is both a page of the kernel and the
   * table of a process.
   */
  lemma TwoLocksShare(lo: nat, n: nat, used: set<nat>, grants: multiset<nat>)
    requires Ok(Start(lo, n, used, grants)) && Lowest(Start(lo, n, used, grants)) < lo + n
    ensures var s := Start(lo, n, used, grants);
            CanRun(s, RACE) && Run(s, RACE).grants[Lowest(s)] == 2
  {
    var s := Start(lo, n, used, grants);
    var f := Lowest(s);
    hide Lowest, Run, CanRun;
    var s2 := s.(pcs := map[1 := Found(KernelPool, f), 2 := Idle]);
    var s4 := s.(pcs := map[1 := Found(KernelPool, f), 2 := Found(UserPool, f)]);
    Scans(s, s2, 1, KernelPool);
    Scans(s2, s4, 2, UserPool);
    var s6 := Step(Step(s4, Set(2)), Set(1));
    Nothing(s6);
    Two(s4, Set(2), Set(1), []);
    Two(s2, Acquire(2, UserPool), Scan(2), [Set(2), Set(1)] + []);
    Two(s, Acquire(1, KernelPool), Scan(1), [Acquire(2, UserPool), Scan(2)] + ([Set(2), Set(1)] + []));
    assert RACE == [Acquire(1, KernelPool), Scan(1)] + ([Acquire(2, UserPool), Scan(2)] + ([Set(2), Set(1)] + []));
    assert s.grants[f] == 0 by { FreeFrame(s); }
    assert s6.grants[f] == s.grants[f] + 2;
  }

  lemma Nothing(s: State)
    ensures CanRun(s, []) && Run(s, []) == s
  {
  }

  lemma FreeFrame(s: State)
    requires Ok(s) && Lowest(s) < s.lo + s.n
    ensures s.grants[Lowest(s)] == 0
  {
  }

  /** A thread takes its lock and scans. */
  lemma Scans(s: State, s': State, t: nat, l: Lock)
    requires t in s.pcs && s.pcs[t].Idle? && Lowest(s) < s.lo + s.n
    requires forall u :: u in s.pcs ==> !Holds(s, u, l)
    requires s' == s.(pcs := s.pcs[t := Found(l, Lowest(s))])
    ensures Enabled(s, Acquire(t, l)) && Enabled(Step(s, Acquire(t, l)), Scan(t))
    ensures Step(Step(s, Acquire(t, l)), Scan(t)) == s' && Lowest(s') == Lowest(s)
  {
    var s1 := Step(s, Acquire(t, l));
    assert Lowest(s1) == Lowest(s);
    assert Step(s1, Scan(t)).pcs == s'.pcs;
  }

  /** palloc with nobody between: one frame more is out, the lowest that was free, and the lock is free again. */
  lemma TakesOne(s: State, t: nat, l: Lock)
    requires Enabled(s, Acquire(t, l)) && Lowest(s) < s.lo + s.n
    ensures var acts := [Acquire(t, l), Scan(t), Set(t), Release(t)];
            && CanRun(s, acts)
            && var r := Run(s, acts);
               && r.pcs == s.pcs && s.used <= r.used
               && (forall f :: f in r.used - s.used <==> s.lo <= f < s.lo + s.n && f !in s.used
                                                         && forall g :: s.lo <= g < f ==> g in s.used)
               && r.grants == s.grants + multiset(r.used - s.used)
  {
    hide CanRun, Run, Enabled;
    var f := Lowest(s);
    InOrder(s, t, l);
    var r := s.(used := s.used + {f}, grants := s.grants + multiset{f});
    assert r.used - s.used == {f};
  }

  lemma InOrder(s: State, t: nat, l: Lock)
    requires Enabled(s, Acquire(t, l)) && Lowest(s) < s.lo + s.n
    ensures var acts, f := [Acquire(t, l), Scan(t), Set(t), Release(t)], Lowest(s);
            CanRun(s, acts) && Run(s, acts) == s.(used := s.used + {f}, grants := s.grants + multiset{f})
  {
    hide CanRun, Run, Lowest;
    var a1, a2, a3 := [Release(t)], [Set(t), Release(t)], [Scan(t), Set(t), Release(t)];
    Follow(s, Acquire(t, l), a3);
    var s1 := Step(s, Acquire(t, l));
    SameLowest(s, s1);
    Follow(s1, Scan(t), a2);
    var s2 := Step(s1, Scan(t));
    Follow(s2, Set(t), a1);
    var s3 := Step(s2, Set(t));
    Follow(s3, Release(t), []);
    Ends(Step(s3, Release(t)));
    assert Step(s3, Release(t)).pcs == s.pcs;
    assert [Release(t)] + [] == a1 && [Set(t)] + a1 == a2 && [Scan(t)] + a2 == a3;
    assert [Acquire(t, l)] + a3 == [Acquire(t, l), Scan(t), Set(t), Release(t)];
  }

  lemma SameLowest(s: State, r: State)
    requires r.lo == s.lo && r.n == s.n && r.used == s.used
    ensures Lowest(r) == Lowest(s)
  {
  }

  lemma Ends(s: State)
    ensures CanRun(s, []) && Run(s, []) == s
  {
  }

  lemma Follow(s: State, x: Action, acts: seq<Action>)
    requires Enabled(s, x)
    ensures CanRun(s, [x] + acts) <==> CanRun(Step(s, x), acts)
    ensures CanRun(s, [x] + acts) ==> Run(s, [x] + acts) == Run(Step(s, x), acts)
  {
    hide Enabled, Step;
    assert ([x] + acts)[1..] == acts;
  }
}
