/** The ring buffer of device/ioqueue.c with its sleeping producers and consumers, and the pipes of shell/pipe.c. */
module IoQueue {
  import opened Basics

  type byte = x: int | 0 <= x < 256
  type Tid = nat

  const BUFSIZE := 2048

  // ---------------------------------------------------------------- the ring

  /** head is where the next byte is put, tail where the next one is taken. */
  datatype Ring = Ring(buf: seq<byte>, head: nat, tail: nat)

  predicate RingOk(q: Ring) { |q.buf| == BUFSIZE && q.head < BUFSIZE && q.tail < BUFSIZE }

  function NextPos(pos: nat): nat { (pos + 1) % BUFSIZE }

  predicate Full(q: Ring) { NextPos(q.head) == q.tail }

  predicate Empty(q: Ring) { q.head == q.tail }

  function Length(q: Ring): int {
    if q.head >= q.tail then q.head - q.tail else BUFSIZE - (q.tail - q.head)
  }

  /** The bytes in the ring, oldest first. */
  function Contents(q: Ring): (s: seq<byte>)
    requires RingOk(q)
    ensures |s| == Length(q)
  {
    if q.head >= q.tail then q.buf[q.tail..q.head] else q.buf[q.tail..] + q.buf[..q.head]
  }

  function Put(q: Ring, b: byte): Ring
    requires RingOk(q)
  {
    q.(buf := q.buf[q.head := b], head := NextPos(q.head))
  }

  function Get(q: Ring): Ring { q.(tail := NextPos(q.tail)) }

  /** The ring is empty or full when its length says so, and one place always stays unused. */
  lemma LengthMeans(q: Ring)
    requires RingOk(q)
    ensures 0 <= Length(q) < BUFSIZE && (Empty(q) <==> Length(q) == 0) && (Full(q) <==> Length(q) == BUFSIZE - 1)
  {
  }

  lemma NextIs(pos: nat)
    requires pos < BUFSIZE
    ensures NextPos(pos) == if pos + 1 < BUFSIZE then pos + 1 else 0
  {
  }

  lemma PutAppends(q: Ring, b: byte)
    requires RingOk(q) && !Full(q)
    ensures RingOk(Put(q, b)) && Contents(Put(q, b)) == Contents(q) + [b]
  {
    NextIs(q.head);
    hide NextPos;
    var r := Put(q, b);
    if q.head < q.tail {
      assert r.buf[q.tail..] == q.buf[q.tail..] && r.buf[..q.head + 1] == q.buf[..q.head] + [b];
    } else if q.head + 1 < BUFSIZE {
      assert r.buf[q.tail..q.head + 1] == q.buf[q.tail..q.head] + [b];
    } else {
      assert r.head == 0 && r.buf[q.tail..] == q.buf[q.tail..q.head] + [b] && r.buf[..0] == [];
    }
  }

  lemma GetTakes(q: Ring)
    requires RingOk(q) && !Empty(q)
    ensures RingOk(Get(q)) && [q.buf[q.tail]] + Contents(Get(q)) == Contents(q)
  {
    NextIs(q.tail);
    hide NextPos;
    if q.head > q.tail {
      assert q.buf[q.tail..q.head] == [q.buf[q.tail]] + q.buf[q.tail + 1..q.head];
    } else if q.tail + 1 < BUFSIZE {
      assert q.buf[q.tail..] == [q.buf[q.tail]] + q.buf[q.tail + 1..];
    } else {
      assert Get(q).tail == 0 && q.buf[q.tail..] == [q.buf[q.tail]] && q.buf[0..q.head] == q.buf[..q.head];
    }
  }

  class IoRing {
    const buf: array<byte>
    var head: nat
    var tail: nat

    ghost predicate Valid()
      reads this
    {
      buf.Length == BUFSIZE && head < BUFSIZE && tail < BUFSIZE
    }

    ghost function State(): Ring
      reads this, buf
      requires Valid()
      ensures RingOk(State())
    {
      Ring(buf[..], head, tail)
    }

    ghost function Bytes(): seq<byte>
      reads this, buf
      requires Valid()
    {
      Contents(State())
    }

    constructor ()
      ensures Valid() && Bytes() == [] && fresh(buf)
    {
      buf := new byte[BUFSIZE];
      head, tail := 0, 0;
    }

    method Len() returns (n: nat)
      requires Valid()
      ensures n == |Bytes()| < BUFSIZE
    {
      LengthMeans(State());
      n := if head >= tail then head - tail else BUFSIZE - (tail - head);
    }

    method IsFull() returns (r: bool)
      requires Valid()
      ensures r <==> |Bytes()| == BUFSIZE - 1
    {
      LengthMeans(State());
      r := (head + 1) % BUFSIZE == tail;
    }

    method IsEmpty() returns (r: bool)
      requires Valid()
      ensures r <==> Bytes() == []
    {
      LengthMeans(State());
      r := head == tail;
    }

    /** The part of ioq_putchar after its loop. */
    method PutByte(b: byte)
      requires Valid() && |Bytes()| < BUFSIZE - 1
      modifies buf, this`head
      ensures Valid() && State() == Put(old(State()), b) && Bytes() == old(Bytes()) + [b]
    {
      LengthMeans(State());
      PutAppends(State(), b);
      buf[head] := b;
      head := (head + 1) % BUFSIZE;
      assert buf[..] == old(buf[..])[old(head) := b];
    }

    /** The part of ioq_getchar after its loop. */
    method GetByte() returns (b: byte)
      requires Valid() && Bytes() != []
      modifies this`tail
      ensures Valid() && State() == Get(old(State())) && [b] + Bytes() == old(Bytes())
    {
      LengthMeans(State());
      GetTakes(State());
      b := buf[tail];
      tail := (tail + 1) % BUFSIZE;
    }

    /** pipe_read: it takes what there is up to count, and never has to wait. */
    method PipeRead(count: nat) returns (out: seq<byte>)
      requires Valid()
      modifies this`tail
      ensures Valid() && out + Bytes() == old(Bytes())
      ensures |out| == if count < |old(Bytes())| then count else |old(Bytes())|
    {
      hide Contents;
      var len := Len();
      var size := if len > count then count else len;
      out := [];
      while |out| < size
        invariant Valid() && |out| <= size && out + Bytes() == old(Bytes())
      {
        ghost var left := Bytes();
        var b := GetByte();
        assert out + left == out + [b] + Bytes();
        out := out + [b];
      }
    }

    /** pipe_write: it stops at the first byte that would have to wait; waits says that there is one. */
    method PipeWrite(data: seq<byte>) returns (n: nat, waits: bool)
      requires Valid()
      modifies buf, this`head
      ensures Valid() && n <= |data| && Bytes() == old(Bytes()) + data[..n]
      ensures waits <==> |data| > BUFSIZE - 1 - |old(Bytes())|
      ensures !waits ==> n == |data|
      ensures waits ==> |Bytes()| == BUFSIZE - 1
    {
      var len := Len();
      var left := BUFSIZE - len;
      var size := if left > |data| then |data| else left;
      n := 0;
      waits := false;
      while n < size
        invariant Valid() && n <= size && Bytes() == old(Bytes()) + data[..n] && !waits
      {
        var full := IsFull();
        if full {
          waits := true;
          return;
        }
        PutByte(data[n]);
        assert data[..n] + [data[n]] == data[..n + 1];
        n := n + 1;
      }
    }
  }

  // ---------------------------------------------------------------- every interleaving

  datatype Role = Consumer | Producer(b: byte)

  /** Where a thread is in ioq_getchar or ioq_putchar.  Interrupts are off throughout, so only sleeping divides them. */
  datatype Pc =
    | Idle
    | WantsLock(role: Role)  // in lock_acquire, the lock being taken
    | Sleeping(role: Role)   // registered by ioq_wait, with the lock
    | Awake(role: Role)      // made ready by wakeup, still with the lock

  /** puts and gets are the bytes put and taken so far. */
  datatype Machine = Machine(q: Ring, lock: Option<Tid>, consumer: Option<Tid>, producer: Option<Tid>,
                             pcs: map<Tid, Pc>, puts: seq<byte>, gets: seq<byte>)

  /** Offer is the keyboard's interrupt handler, which puts only into a ring that is not full. */
  datatype Action = Begin(t: Tid, role: Role) | GetLock(t: Tid) | Resume(t: Tid) | Offer(b: byte)

  predicate Enabled(m: Machine, a: Action) {
    match a
    case Begin(t, _) => t in m.pcs && m.pcs[t] == Idle
    case GetLock(t) => t in m.pcs && m.pcs[t].WantsLock? && m.lock == None
    case Resume(t) => t in m.pcs && m.pcs[t].Awake?
    case Offer(_) => true
  }

  /** Must this role wait for the ring? */
  predicate Waits(q: Ring, role: Role) { if role == Consumer then Empty(q) else Full(q) }

  /** The assert of ioq_wait: nobody else is registered. */
  predicate SlotFree(m: Machine, role: Role) { if role == Consumer then m.consumer == None else m.producer == None }

  function Register(m: Machine, t: Tid, role: Role): Machine {
    var r := m.(lock := Some(t), pcs := m.pcs[t := Sleeping(role)]);
    if role == Consumer then r.(consumer := Some(t)) else r.(producer := Some(t))
  }

  /** wakeup, if somebody is registered. */
  function WakeConsumer(m: Machine): Machine {
    if m.consumer.Some? then m.(consumer := None, pcs := m.pcs[m.consumer.value := Awake(Consumer)]) else m
  }

  function WakeProducer(m: Machine): Machine {
    if m.producer.Some? && m.producer.value in m.pcs && m.pcs[m.producer.value].Sleeping?
    then m.(producer := None, pcs := m.pcs[m.producer.value := Awake(m.pcs[m.producer.value].role)]) else m
  }

  function PutOne(m: Machine, b: byte): Machine
    requires RingOk(m.q)
  {
    WakeConsumer(m.(q := Put(m.q, b), puts := m.puts + [b]))
  }

  function GetOne(m: Machine): Machine
    requires RingOk(m.q)
  {
    WakeProducer(m.(q := Get(m.q), gets := m.gets + [m.q.buf[m.q.tail]]))
  }

  /** From the test of the loop to the end of the call or the next sleep. */
  function Try(m: Machine, t: Tid, role: Role): Machine
    requires RingOk(m.q)
  {
    if Waits(m.q, role) then
      if m.lock == None then Register(m, t, role) else m.(pcs := m.pcs[t := WantsLock(role)])
    else
      var r := m.(pcs := m.pcs[t := Idle]);
      if role == Consumer then GetOne(r) else PutOne(r, role.b)
  }

  function Step(m: Machine, a: Action): (r: Machine)
    requires RingOk(m.q) && Enabled(m, a)
    ensures RingOk(r.q)
  {
    match a
    case Begin(t, role) => Try(m, t, role)
    case GetLock(t) => Register(m, t, m.pcs[t].role)
    case Resume(t) => Try(m.(lock := None, pcs := m.pcs[t := Idle]), t, m.pcs[t].role)
    case Offer(b) => if Full(m.q) then m else PutOne(m, b)
  }

  /** The sleeper is who is registered, and who holds the lock. */
  predicate Locked(m: Machine) {
    && (forall t :: t in m.pcs && (m.pcs[t].Sleeping? || m.pcs[t].Awake?) ==> m.lock == Some(t))
    && (m.lock.Some? ==> m.lock.value in m.pcs && (m.pcs[m.lock.value].Sleeping? || m.pcs[m.lock.value].Awake?))
    && (m.consumer.Some? ==> m.consumer.value in m.pcs && m.pcs[m.consumer.value] == Sleeping(Consumer))
    && (m.producer.Some? ==> m.producer.value in m.pcs && m.pcs[m.producer.value].Sleeping?
                             && m.pcs[m.producer.value].role != Consumer)
    && (forall t :: t in m.pcs && m.pcs[t].Sleeping? ==>
          if m.pcs[t].role == Consumer then m.consumer == Some(t) else m.producer == Some(t))
  }

  predicate Inv(m: Machine) {
    RingOk(m.q) && m.puts == m.gets + Contents(m.q) && Locked(m)
  }

  lemma PutKeeps(m: Machine, b: byte)
    requires Inv(m) && !Full(m.q)
    ensures Inv(PutOne(m, b))
  {
    PutAppends(m.q, b);
    hide Contents;
  }

  lemma GetKeeps(m: Machine)
    requires Inv(m) && !Empty(m.q)
    ensures Inv(GetOne(m))
  {
    GetTakes(m.q);
    hide Contents;
    assert m.gets + [m.q.buf[m.q.tail]] + Contents(Get(m.q)) == m.gets + ([m.q.buf[m.q.tail]] + Contents(Get(m.q)));
  }

  lemma TryKeeps(m: Machine, t: Tid, role: Role)
    requires Inv(m) && t in m.pcs && m.pcs[t] == Idle
    ensures Inv(Try(m, t, role)) && (Waits(m.q, role) && m.lock == None ==> SlotFree(m, role))
  {
    hide Contents, Put, Get;
    if !Waits(m.q, role) {
      assert m.pcs[t := Idle] == m.pcs;
      if role == Consumer { GetKeeps(m); } else { PutKeeps(m, role.b); }
    }
  }

  /** Every step keeps the invariant, and ioq_wait never finds another thread registered. */
  lemma StepKeeps(m: Machine, a: Action)
    requires Inv(m) && Enabled(m, a)
    ensures Inv(Step(m, a))
    ensures a.GetLock? ==> SlotFree(m, m.pcs[a.t].role)
  {
    hide Contents, PutOne, GetOne;
    match a {
      case Begin(t, role) => hide Locked; TryKeeps(m, t, role);
      case GetLock(t) =>
      case Resume(t) => TryKeeps(m.(lock := None, pcs := m.pcs[t := Idle]), t, m.pcs[t].role);
      case Offer(b) => if !Full(m.q) { hide Locked; PutKeeps(m, b); }
    }
  }

  predicate CanRun(m: Machine, acts: seq<Action>)
    requires RingOk(m.q)
    decreases |acts|
  {
    acts == [] || (Enabled(m, acts[0]) && CanRun(Step(m, acts[0]), acts[1..]))
  }

  function Run(m: Machine, acts: seq<Action>): (r: Machine)
    requires RingOk(m.q) && CanRun(m, acts)
    ensures RingOk(r.q)
    decreases |acts|
  {
    if acts == [] then m else Run(Step(m, acts[0]), acts[1..])
  }

  lemma {:induction false} RunKeeps(m: Machine, acts: seq<Action>)
    requires RingOk(m.q) && Inv(m) && CanRun(m, acts)
    ensures Inv(Run(m, acts))
    decreases |acts|
  {
    hide Inv, Step, Enabled;
    if acts != [] {
      StepKeeps(m, acts[0]);
      RunKeeps(Step(m, acts[0]), acts[1..]);
    }
  }

  /** A new queue and the threads that will use it. */
  predicate Started(m: Machine) {
    && RingOk(m.q) && m.q.head == 0 && m.q.tail == 0 && m.puts == [] && m.gets == []
    && m.lock == None && m.consumer == None && m.producer == None && forall t :: t in m.pcs ==> m.pcs[t] == Idle
  }

  /** For every interleaving the bytes taken are a prefix of the bytes put, and ioq_length says how many are left. */
  lemma RingIsFifo(m: Machine, acts: seq<Action>)
    requires Started(m) && CanRun(m, acts)
    ensures var r := Run(m, acts);
            && Inv(r) && r.gets <= r.puts && Length(r.q) == |r.puts| - |r.gets|
            && Contents(r.q) == r.puts[|r.gets|..]
  {
    StartedInv(m);
    RunKeeps(m, acts);
    hide Run, CanRun, Started, Locked;
  }

  lemma StartedInv(m: Machine)
    requires Started(m)
    ensures Inv(m)
  {
  }

  // ---------------------------------------------------------------- one consumer

  predicate AloneActs(acts: seq<Action>, c: Tid) {
    forall i :: 0 <= i < |acts| ==>
      match acts[i]
      case Begin(t, role) => t == c && role == Consumer
      case GetLock(t) => t == c
      case Resume(t) => t == c
      case Offer(_) => true
  }

  predicate Alone(m: Machine, c: Tid) {
    && Inv(m) && m.pcs.Keys == {c} && m.producer == None
    && m.pcs[c] in {Idle, Sleeping(Consumer), Awake(Consumer)}
    && (m.consumer.Some? ==> Empty(m.q))
  }

  lemma AloneKeeps(m: Machine, c: Tid, a: Action)
    requires Alone(m, c) && Enabled(m, a) && AloneActs([a], c)
    ensures Alone(Step(m, a), c)
  {
    StepKeeps(m, a);
    assert a == [a][0];
    hide Contents;
  }

  lemma {:induction false} AloneRuns(m: Machine, c: Tid, acts: seq<Action>)
    requires RingOk(m.q) && Alone(m, c) && AloneActs(acts, c) && CanRun(m, acts)
    ensures Alone(Run(m, acts), c)
    decreases |acts|
  {
    hide Alone, Enabled, Step;
    if acts != [] {
      AloneActsOne(acts, c);
      AloneKeeps(m, c, acts[0]);
      AloneRuns(Step(m, acts[0]), c, acts[1..]);
    }
  }

  lemma AloneActsOne(acts: seq<Action>, c: Tid)
    requires AloneActs(acts, c) && acts != []
    ensures AloneActs([acts[0]], c) && AloneActs(acts[1..], c)
  {
  }

  /** With one consumer and a producer that looks before it puts, a registered consumer means an empty ring. */
  lemma RegisteredMeansEmpty(m: Machine, c: Tid, acts: seq<Action>)
    requires Started(m) && m.pcs.Keys == {c} && AloneActs(acts, c) && CanRun(m, acts)
    ensures Run(m, acts).consumer.Some? ==> Run(m, acts).consumer == Some(c) && Empty(Run(m, acts).q)
  {
    StartedInv(m);
    AloneRuns(m, c, acts);
  }

  // ---------------------------------------------------------------- when a thread sleeps for nothing

  /** Is a consumer, or a producer, registered? */
  predicate Registered(m: Machine, consumer: bool) { if consumer then m.consumer.Some? else m.producer.Some? }

  /** What that one waits on: an empty ring, or a full one. */
  predicate MustWait(q: Ring, consumer: bool) { if consumer then Empty(q) else Full(q) }

  /** Registered although the ring gives no reason to wait, so nobody need come to wake it. */
  predicate Misses(m: Machine, consumer: bool) { Registered(m, consumer) && !MustWait(m.q, consumer) }

  /** The step that goes to sleep without another look: the lock comes when the reason to wait has gone. */
  predicate Blind(m: Machine, a: Action, consumer: bool) {
    && a.GetLock? && a.t in m.pcs && m.pcs[a.t].WantsLock?
    && (m.pcs[a.t].role == Consumer <==> consumer) && !MustWait(m.q, consumer)
  }

  /** A step makes a thread sleep for nothing exactly when it is such a step. */
  lemma MissesExactly(m: Machine, a: Action, consumer: bool)
    requires Inv(m) && Enabled(m, a) && !Misses(m, consumer)
    ensures Misses(Step(m, a), consumer) <==> Blind(m, a, consumer)
  {
    hide Contents;
    StepKeeps(m, a);
    LengthMeans(m.q);
  }

  /** In no state of the run, and by no step of the run. */
  predicate NeverMisses(m: Machine, acts: seq<Action>, consumer: bool)
    requires RingOk(m.q) && CanRun(m, acts)
    decreases |acts|
  {
    !Misses(m, consumer) && (acts != [] ==> NeverMisses(Step(m, acts[0]), acts[1..], consumer))
  }

  predicate NeverBlind(m: Machine, acts: seq<Action>, consumer: bool)
    requires RingOk(m.q) && CanRun(m, acts)
    decreases |acts|
  {
    acts != [] ==> !Blind(m, acts[0], consumer) && NeverBlind(Step(m, acts[0]), acts[1..], consumer)
  }

  lemma {:induction false} NeverMissesFrom(m: Machine, acts: seq<Action>, consumer: bool)
    requires RingOk(m.q) && Inv(m) && CanRun(m, acts) && !Misses(m, consumer)
    ensures NeverMisses(m, acts, consumer) <==> NeverBlind(m, acts, consumer)
    decreases |acts|
  {
    hide Inv, Step, Enabled, Misses, Blind;
    if acts != [] {
      StepKeeps(m, acts[0]);
      MissesExactly(m, acts[0], consumer);
      if !Misses(Step(m, acts[0]), consumer) {
        NeverMissesFrom(Step(m, acts[0]), acts[1..], consumer);
      }
    }
  }

  /**
   * For any threads, consumers and producers alike: a run is free of sleepers that wait for nothing exactly
   * when no thread of it gets the queue's lock after its reason to wait has gone.
   */
  lemma WaitsInVainExactly(m: Machine, acts: seq<Action>, consumer: bool)
    requires Started(m) && CanRun(m, acts)
    ensures NeverMisses(m, acts, consumer) <==> NeverBlind(m, acts, consumer)
  {
    StartedInv(m);
    NeverMissesFrom(m, acts, consumer);
  }

  // ---------------------------------------------------------------- runs in which that happens

  lemma {:induction false} RunOn(m: Machine, a: seq<Action>, b: seq<Action>)
    requires RingOk(m.q) && CanRun(m, a) && CanRun(Run(m, a), b)
    ensures CanRun(m, a + b) && Run(m, a + b) == Run(Run(m, a), b)
    decreases |a|
  {
    hide Enabled, Step;
    if a == [] {
      assert a + b == b;
    } else {
      RunOn(Step(m, a[0]), a[1..], b);
      assert (a + b)[0] == a[0] && (a + b)[1..] == a[1..] + b;
    }
  }

  /** One more action at the end of a run. */
  lemma RunThen(m: Machine, acts: seq<Action>, a: Action)
    requires RingOk(m.q) && CanRun(m, acts) && Enabled(Run(m, acts), a)
    ensures CanRun(m, acts + [a]) && Run(m, acts + [a]) == Step(Run(m, acts), a)
  {
    hide Enabled, Step;
    var r := Run(m, acts);
    assert CanRun(Step(r, a), []);
    assert CanRun(r, [a]) && Run(r, [a]) == Step(r, a);
    RunOn(m, acts, [a]);
  }

  /** What a run keeps that only fills or drains the ring. */
  predicate SameThreads(m: Machine, r: Machine) {
    r.pcs == m.pcs && r.lock == m.lock && r.consumer == m.consumer && r.producer == m.producer
  }

  lemma PutLength(q: Ring, b: byte)
    requires RingOk(q) && !Full(q)
    ensures RingOk(Put(q, b)) && Length(Put(q, b)) == Length(q) + 1
  {
    PutAppends(q, b);
  }

  lemma GetLength(q: Ring)
    requires RingOk(q) && !Empty(q)
    ensures RingOk(Get(q)) && Length(Get(q)) == Length(q) - 1
  {
    GetTakes(q);
  }

  /** The idle thread t puts n bytes while no consumer is registered. */
  lemma {:induction false} Filled(m: Machine, t: Tid, n: nat) returns (acts: seq<Action>)
    requires RingOk(m.q) && m.consumer == None && t in m.pcs && m.pcs[t] == Idle && Length(m.q) + n < BUFSIZE
    ensures CanRun(m, acts) && SameThreads(m, Run(m, acts)) && Length(Run(m, acts).q) == Length(m.q) + n
  {
    if n == 0 {
      return [];
    }
    var before := Filled(m, t, n - 1);
    var r := Run(m, before);
    LengthMeans(r.q);
    PutLength(r.q, 0);
    RunThen(m, before, Begin(t, Producer(0)));
    assert r.pcs[t := Idle] == r.pcs;
    acts := before + [Begin(t, Producer(0))];
  }

  /** The idle thread t takes n bytes while no producer is registered. */
  lemma {:induction false} Drained(m: Machine, t: Tid, n: nat) returns (acts: seq<Action>)
    requires RingOk(m.q) && m.producer == None && t in m.pcs && m.pcs[t] == Idle && n <= Length(m.q)
    ensures CanRun(m, acts) && SameThreads(m, Run(m, acts)) && Length(Run(m, acts).q) == Length(m.q) - n
  {
    if n == 0 {
      return [];
    }
    var before := Drained(m, t, n - 1);
    var r := Run(m, before);
    LengthMeans(r.q);
    GetLength(r.q);
    RunThen(m, before, Begin(t, Consumer));
    assert r.pcs[t := Idle] == r.pcs;
    acts := before + [Begin(t, Consumer)];
  }

  /** Two consumers: the second one gets the lock when the first has been served, and a byte is left. */
  lemma TwoConsumersMiss(m: Machine)
    requires Started(m) && m.pcs.Keys == {1, 2}
    ensures exists acts :: CanRun(m, acts) && Misses(Run(m, acts), true)
  {
    hide Run, CanRun, Contents;
    var a1 := [Begin(1, Consumer)];
    StartsRun(m, Begin(1, Consumer));
    var a2 := a1 + [Begin(2, Consumer)];
    RunThen(m, a1, Begin(2, Consumer));
    var a3 := a2 + [Offer(7)];
    PutLength(Run(m, a2).q, 7);
    RunThen(m, a2, Offer(7));
    var a4 := a3 + [Offer(8)];
    assert Run(m, a3).q.head == 1 && Run(m, a3).q.tail == 0 && Run(m, a3).consumer == None;
    RunThen(m, a3, Offer(8));
    assert Run(m, a4).q.head == 2 && Run(m, a4).q.tail == 0 && Run(m, a4).pcs[1] == Awake(Consumer);
    var a5 := a4 + [Resume(1)];
    RunThen(m, a4, Resume(1));
    assert Run(m, a5).lock == None && Run(m, a5).q.head == 2 && Run(m, a5).q.tail == 1;
    RunThen(m, a5, GetLock(2));
  }

  lemma StartsRun(m: Machine, a: Action)
    requires RingOk(m.q) && Enabled(m, a)
    ensures CanRun(m, [a]) && Run(m, [a]) == Step(m, a)
  {
    assert CanRun(m, []) && Run(m, []) == m;
    assert [] + [a] == [a];
    RunThen(m, [], a);
  }

  /** The ring is full, the first thread sleeps on that with the lock, and nobody is on the consumers' side. */
  lemma SleepsOnFull(m: Machine, t: Tid) returns (acts: seq<Action>)
    requires Started(m) && t in m.pcs
    ensures CanRun(m, acts)
    ensures var r := Run(m, acts);
            && Full(r.q) && r.lock == Some(t) && r.producer == Some(t) && r.consumer == None
            && r.pcs == m.pcs[t := Sleeping(Producer(9))]
  {
    hide Run, CanRun, Contents;
    var fill := Filled(m, t, BUFSIZE - 1);
    var r := Run(m, fill);
    LengthMeans(r.q);
    RunThen(m, fill, Begin(t, Producer(9)));
    acts := fill + [Begin(t, Producer(9))];
  }

  /** The sleeper has been woken by the consumer c, which has then emptied the ring and wants to sleep itself. */
  lemma WokenAndEmpty(m: Machine, t: Tid, c: Tid) returns (acts: seq<Action>)
    requires RingOk(m.q) && Full(m.q) && m.lock == Some(t) && m.producer == Some(t) && m.consumer == None && t != c
    requires t in m.pcs && c in m.pcs && m.pcs[t] == Sleeping(Producer(9)) && m.pcs[c] == Idle
    ensures CanRun(m, acts)
    ensures var r := Run(m, acts);
            && Empty(r.q) && r.lock == Some(t) && r.producer == None && r.consumer == None
            && r.pcs == m.pcs[t := Awake(Producer(9))][c := WantsLock(Consumer)]
  {
    hide Run, CanRun, Contents;
    LengthMeans(m.q);
    GetLength(m.q);
    StartsRun(m, Begin(c, Consumer));
    var a := [Begin(c, Consumer)];
    var r := Run(m, a);
    assert r.pcs == m.pcs[c := Idle][t := Awake(Producer(9))] && Length(r.q) == BUFSIZE - 2;
    var drain := Drained(r, c, BUFSIZE - 2);
    RunOn(m, a, drain);
    LengthMeans(Run(r, drain).q);
    RunThen(m, a + drain, Begin(c, Consumer));
    acts := a + drain + [Begin(c, Consumer)];
  }

  /** One consumer and one producer that can sleep: the byte of the woken producer is missed. */
  lemma OneConsumerMisses(m: Machine)
    requires Started(m) && m.pcs.Keys == {1, 2}
    ensures exists acts :: CanRun(m, acts) && Misses(Run(m, acts), true)
  {
    hide Run, CanRun, Contents;
    var a := SleepsOnFull(m, 2);
    var r := Run(m, a);
    var b := WokenAndEmpty(r, 2, 1);
    RunOn(m, a, b);
    var r2 := Run(m, a + b);
    LengthMeans(r2.q);
    PutLength(r2.q, 9);
    RunThen(m, a + b, Resume(2));
    var c := a + b + [Resume(2)];
    LengthMeans(Run(m, c).q);
    RunThen(m, c, GetLock(1));
  }

  /** Two producers: the second one gets the lock when the first has been served, and a place is free. */
  lemma TwoProducersMiss(m: Machine)
    requires Started(m) && m.pcs.Keys == {1, 2, 3}
    ensures exists acts :: CanRun(m, acts) && Misses(Run(m, acts), false)
  {
    hide Run, CanRun, Contents;
    var a := SleepsOnFull(m, 1);
    var a1 := a + [Begin(2, Producer(9))];
    RunThen(m, a, Begin(2, Producer(9)));
    LengthMeans(Run(m, a1).q);
    GetLength(Run(m, a1).q);
    var a2 := a1 + [Begin(3, Consumer)];
    RunThen(m, a1, Begin(3, Consumer));
    assert Run(m, a2).pcs == map[1 := Awake(Producer(9)), 2 := WantsLock(Producer(9)), 3 := Idle];
    LengthMeans(Run(m, a2).q);
    GetLength(Run(m, a2).q);
    var a3 := a2 + [Begin(3, Consumer)];
    RunThen(m, a2, Begin(3, Consumer));
    LengthMeans(Run(m, a3).q);
    PutLength(Run(m, a3).q, 9);
    var a4 := a3 + [Resume(1)];
    RunThen(m, a3, Resume(1));
    LengthMeans(Run(m, a4).q);
    RunThen(m, a4, GetLock(2));
  }
}
