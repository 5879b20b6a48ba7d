/** The disk driver of device/ide.c: the completion handshake, and the commands that a transfer is cut into. */
module Ide {
  import opened Basics

  // ---------------------------------------------------------------- the handshake

  /** Where the thread that holds the channel's lock is in its loop. */
  datatype Phase =
    | Ready    // before cmd_out; also when nobody holds the channel
    | Issued   // after cmd_out, before sema_down
    | Asleep   // on the waiters of disk_done
    | Woken    // off the waiters, still in the loop of sema_down
    | Passed   // past sema_down

  /** issued and passed count the commands and the returns of sema_down. */
  datatype Channel = Channel(expecting: bool, done: nat, phase: Phase, issued: nat, passed: nat)

  datatype Event = CmdOut | SemaDown | NextRound | Interrupt

  /** An interrupt may come at any time, also when no command is out. */
  predicate Enabled(c: Channel, e: Event) {
    match e
    case CmdOut => c.phase == Ready
    case SemaDown => c.phase == Issued || c.phase == Woken
    case NextRound => c.phase == Passed
    case Interrupt => true
  }

  /** The asserts of sema_down and sema_up on the way. */
  predicate AssertsHold(c: Channel, e: Event) {
    match e
    case SemaDown => c.done != 0 ==> c.done - 1 == 0
    case Interrupt => c.expecting ==> c.done == 0
    case _ => true
  }

  function Step(c: Channel, e: Event): Channel
    requires Enabled(c, e)
  {
    match e
    case CmdOut => c.(expecting := true, phase := Issued, issued := c.issued + 1)
    case SemaDown =>
      if c.done == 0 then c.(phase := Asleep) else c.(done := c.done - 1, phase := Passed, passed := c.passed + 1)
    case NextRound => c.(phase := Ready)
    case Interrupt =>
      if !c.expecting then c
      else c.(expecting := false, done := c.done + 1, phase := if c.phase == Asleep then Woken else c.phase)
  }

  /** A command that is out has either its interrupt or its completion to come, never both and never neither. */
  predicate Inv(c: Channel) {
    && c.done <= 1
    && (match c.phase
        case Ready => !c.expecting && c.done == 0
        case Issued => c.expecting <==> c.done == 0
        case Asleep => c.expecting && c.done == 0
        case Woken => !c.expecting && c.done == 1
        case Passed => !c.expecting && c.done == 0)
    && c.issued == c.passed + (if c.phase in {Issued, Asleep, Woken} then 1 else 0)
  }

  const NEW := Channel(false, 0, Ready, 0, 0)

  predicate CanRun(c: Channel, events: seq<Event>)
    decreases |events|
  {
    events == [] || (Enabled(c, events[0]) && CanRun(Step(c, events[0]), events[1..]))
  }

  function Run(c: Channel, events: seq<Event>): Channel
    requires CanRun(c, events)
    decreases |events|
  {
    if events == [] then c else Run(Step(c, events[0]), events[1..])
  }

  lemma {:induction false} RunKeeps(c: Channel, events: seq<Event>)
    requires Inv(c) && CanRun(c, events)
    ensures Inv(Run(c, events))
    decreases |events|
  {
    if events != [] { RunKeeps(Step(c, events[0]), events[1..]); }
  }

  /**
   * Under any pattern of interrupts: expecting_intr and a full disk_done never hold together, no assert of the
   * semaphore fires, every command has used exactly one completion, and a sleeper has an interrupt coming.
   */
  lemma HandshakeIsExact(events: seq<Event>, e: Event)
    requires CanRun(NEW, events) && Enabled(Run(NEW, events), e)
    ensures var c := Run(NEW, events);
            && !(c.expecting && c.done == 1) && AssertsHold(c, e)
            && (c.phase in {Ready, Passed} ==> c.issued == c.passed && c.done == 0)
            && (c.phase == Asleep ==> c.expecting)
  {
    RunKeeps(NEW, events);
  }

  /**
   * A command completes with one interrupt, whether it comes before the thread looks at disk_done or finds it asleep;
   * the channel is then as it was, for the next command.
   */
  lemma CommandCompletes(c: Channel, early: bool)
    requires Inv(c) && c.phase == Ready
    ensures var events := if early then [CmdOut, Interrupt, SemaDown, NextRound]
                          else [CmdOut, SemaDown, Interrupt, SemaDown, NextRound];
            CanRun(c, events) && Run(c, events) == c.(issued := c.issued + 1, passed := c.passed + 1)
  {
    hide CanRun, Run;
    var tail := [Interrupt, SemaDown, NextRound];
    var c1 := Step(c, CmdOut);
    var c2 := if early then c1 else Step(c1, SemaDown);
    FinishesFrom(c2);
    if early {
      Follow(c, CmdOut, tail);
      assert [CmdOut] + tail == [CmdOut, Interrupt, SemaDown, NextRound];
    } else {
      Follow(c1, SemaDown, tail);
      Follow(c, CmdOut, [SemaDown] + tail);
      assert [CmdOut] + ([SemaDown] + tail) == [CmdOut, SemaDown, Interrupt, SemaDown, NextRound];
    }
  }

  lemma FinishesFrom(c: Channel)
    requires c.expecting && c.done == 0 && (c.phase == Issued || c.phase == Asleep)
    ensures var events := [Interrupt, SemaDown, NextRound];
            CanRun(c, events) && Run(c, events) == c.(expecting := false, phase := Ready, passed := c.passed + 1)
  {
    var c1 := Step(c, Interrupt);
    var c2 := Step(c1, SemaDown);
    Follow(c2, NextRound, []);
    Follow(c1, SemaDown, [NextRound]);
    Follow(c, Interrupt, [SemaDown, NextRound]);
    assert [NextRound] + [] == [NextRound] && [SemaDown] + [NextRound] == [SemaDown, NextRound];
    assert [Interrupt] + [SemaDown, NextRound] == [Interrupt, SemaDown, NextRound];
  }

  lemma Follow(c: Channel, e: Event, events: seq<Event>)
    requires Enabled(c, e)
    ensures CanRun(c, [e] + events) <==> CanRun(Step(c, e), events)
    ensures CanRun(c, [e] + events) ==> Run(c, [e] + events) == Run(Step(c, e), events)
  {
    assert ([e] + events)[1..] == events;
  }

  class IdeChannel {
    var expecting: bool
    var done: nat
    var phase: Phase
    ghost var issued: nat
    ghost var passed: nat

    ghost function State(): Channel
      reads this
    {
      Channel(expecting, done, phase, issued, passed)
    }

    constructor ()
      ensures State() == NEW && Inv(State())
    {
      expecting, done, phase, issued, passed := false, 0, Ready, 0, 0;
    }

    method CommandOut()
      requires Inv(State()) && phase == Ready
      modifies this
      ensures Inv(State()) && State() == Step(old(State()), CmdOut)
    {
      expecting := true;
      phase, issued := Issued, issued + 1;
    }

    /** One turn of the loop in sema_down on disk_done, or what follows it. */
    method Down()
      requires Inv(State()) && (phase == Issued || phase == Woken)
      modifies this
      ensures Inv(State()) && State() == Step(old(State()), SemaDown)
    {
      if done == 0 {
        phase := Asleep;
      } else {
        done := done - 1;
        assert done == 0;
        phase, passed := Passed, passed + 1;
      }
    }

    /** intr_hd_handler with sema_up. */
    method Handler()
      requires Inv(State())
      modifies this
      ensures Inv(State()) && State() == Step(old(State()), Interrupt)
    {
      if expecting {
        expecting := false;
        assert done == 0;
        if phase == Asleep { phase := Woken; }
        done := done + 1;
        assert done == 1;
      }
    }
  }

  // ---------------------------------------------------------------- the commands of a transfer

  const MAX_LBA := 80 * 1024 * 1024 / 512 - 1

  /** What is written to the controller: the first sector and the count register of eight bits. */
  datatype Command = Command(lba: nat, count: nat)

  /** What the controller makes of the count, and read_from_sector and write2sector too. */
  function Sectors(count: nat): nat { if count == 0 then 256 else count }

  /** The sectors that the commands name, in order. */
  function Touched(cmds: seq<Command>): seq<nat> {
    if cmds == [] then [] else Touched(cmds[..|cmds| - 1]) + Span(cmds[|cmds| - 1].lba, Sectors(cmds[|cmds| - 1].count))
  }

  function Span(lba: nat, n: nat): (s: seq<nat>)
    ensures |s| == n && forall i :: 0 <= i < n ==> s[i] == lba + i
  {
    if n == 0 then [] else Span(lba, n - 1) + [lba + n - 1]
  }

  lemma {:induction false} SpanConcat(lba: nat, a: nat, b: nat)
    ensures Span(lba, a) + Span(lba + a, b) == Span(lba, a + b)
  {
    if b > 0 {
      SpanConcat(lba, a, b - 1);
      assert Span(lba, a) + Span(lba + a, b) == Span(lba, a) + Span(lba + a, b - 1) + [lba + a + b - 1];
    }
  }

  /** The first sector of the last command. */
  function LastStart(lba: nat, cnt: nat): nat
    requires cnt > 0
  {
    lba + 256 * ((cnt - 1) / 256)
  }

  /**
   * The loop of ide_read and ide_write, for the commands alone: they name every sector of the transfer once and
   * in order although a count of 256 is written as 0.  None is the assert of select_sector.
   */
  method Commands(lba: nat, cnt: nat) returns (r: Option<seq<Command>>)
    requires cnt > 0 && lba <= MAX_LBA
    ensures r.Some? <==> LastStart(lba, cnt) <= MAX_LBA
    ensures r.Some? ==> Touched(r.value) == Span(lba, cnt) && forall i :: 0 <= i < |r.value| ==> r.value[i].count < 256
  {
    var cmds: seq<Command> := [];
    var done := 0;
    ghost var q := 0;
    while done < cnt
      invariant done == (if done < cnt then 256 * q else cnt) && (q > 0 ==> 256 * (q - 1) < cnt && lba + 256 * (q - 1) <= MAX_LBA)
      invariant done == cnt ==> q > 0 && cnt <= 256 * q
      invariant Touched(cmds) == Span(lba, done) && forall i :: 0 <= i < |cmds| ==> cmds[i].count < 256
    {
      var op := if done + 256 <= cnt then 256 else cnt - done;
      LastStartFrom(lba, cnt, q);
      if lba + done > MAX_LBA { return None; }
      var next := Command(lba + done, op % 256);
      CommandAdded(cmds, lba, done, op);
      cmds := cmds + [next];
      done := done + op;
      q := q + 1;
    }
    LastStartIs(lba, cnt, q - 1);
    r := Some(cmds);
  }

  lemma LastStartFrom(lba: nat, cnt: nat, q: nat)
    requires 256 * q < cnt
    ensures LastStart(lba, cnt) >= lba + 256 * q
  {
  }

  lemma LastStartIs(lba: nat, cnt: nat, q: nat)
    requires 256 * q < cnt <= 256 * (q + 1)
    ensures LastStart(lba, cnt) == lba + 256 * q
  {
  }

  lemma CommandAdded(cmds: seq<Command>, lba: nat, done: nat, op: nat)
    requires Touched(cmds) == Span(lba, done) && 1 <= op <= 256
    ensures Touched(cmds + [Command(lba + done, op % 256)]) == Span(lba, done + op)
  {
    var next := Command(lba + done, op % 256);
    assert Sectors(next.count) == op;
    SpanConcat(lba, done, op);
    assert (cmds + [next])[..|cmds|] == cmds;
  }

  /** ide_read, by whole sectors: the buffer gets the sectors of the disk in their order. */
  method Read<T>(disk: map<nat, T>, lba: nat, cnt: nat) returns (buf: seq<T>)
    requires cnt > 0 && LastStart(lba, cnt) <= MAX_LBA && forall s :: lba <= s < lba + cnt ==> s in disk
    ensures |buf| == cnt && forall i :: 0 <= i < cnt ==> buf[i] == disk[lba + i]
  {
    buf := [];
    while |buf| < cnt
      invariant |buf| <= cnt && forall i :: 0 <= i < |buf| ==> buf[i] == disk[lba + i]
      decreases cnt - |buf|
    {
      var done := |buf|;
      var op := if done + 256 <= cnt then 256 else cnt - done;
      var count := op % 256;
      var n := Sectors(count);
      for j := 0 to n
        invariant |buf| == done + j && forall i :: 0 <= i < |buf| ==> buf[i] == disk[lba + i]
      {
        buf := buf + [disk[lba + done + j]];
      }
    }
  }

  /** ide_write, by whole sectors: the sectors of the transfer get the buffer and no other changes. */
  method Write<T>(disk: map<nat, T>, lba: nat, buf: seq<T>) returns (disk': map<nat, T>)
    requires |buf| > 0 && LastStart(lba, |buf|) <= MAX_LBA && forall s :: lba <= s < lba + |buf| ==> s in disk
    ensures disk'.Keys == disk.Keys
    ensures forall s :: s in disk ==> disk'[s] == if lba <= s < lba + |buf| then buf[s - lba] else disk[s]
  {
    disk' := disk;
    var done := 0;
    while done < |buf|
      invariant done <= |buf| && disk'.Keys == disk.Keys
      invariant forall s :: s in disk ==> disk'[s] == if lba <= s < lba + done then buf[s - lba] else disk[s]
    {
      var op := if done + 256 <= |buf| then 256 else |buf| - done;
      var n := Sectors(op % 256);
      for j := 0 to n
        invariant disk'.Keys == disk.Keys
        invariant forall s :: s in disk ==> disk'[s] == if lba <= s < lba + done + j then buf[s - lba] else disk[s]
      {
        disk' := disk'[lba + done + j := buf[done + j]];
      }
      done := done + op;
    }
  }
}
