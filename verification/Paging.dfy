/**
 * Two-level page tables with 4-KByte pages as the processor walks them (section 4.3 of the Intel SDM,
 * Volume 3A) and the self-map that kernel/memory.c reads and writes them through.
 */
module Paging {
  import opened Basics

  /** Physical memory by word address. */
  type Memory = bv32 -> bv32

  predicate Present(e: bv32) { e & 1 == 1 }

  /** Bits 31:12 of an address or of an entry. */
  function Frame(e: bv32): bv32 { e & 0xfffff000 }

  /** Bits 11:0, 31:22 and 21:12 of a linear address. */
  function Offset(v: bv32): bv32 { v & 0x00000fff }

  function Dir(v: bv32): bv32 { v >> 22 }

  function Tab(v: bv32): bv32 { (v >> 12) & 0x3ff }

  function Page(v: bv32): bv32 { v >> 12 }

  // ---------------------------------------------------------------- the walk of the processor

  /** Entry i of the table in the frame of base. */
  function Slot(base: bv32, i: bv32): bv32 { (base & 0xfffff000) | (i << 2) }

  function Word(m: Memory, a: bv32): bv32 { m(a) }

  function With(m: Memory, a: bv32, w: bv32): Memory { x => if x == a then w else m(x) }

  function Pde(m: Memory, cr3: bv32, v: bv32): bv32 { Word(m, Slot(cr3, Dir(v))) }

  function Pte(m: Memory, cr3: bv32, v: bv32): bv32 { Word(m, Slot(Pde(m, cr3, v), Tab(v))) }

  function Join(e: bv32, v: bv32): bv32 { (e & 0xfffff000) | (v & 0x00000fff) }

  /** The physical address, or a page fault. */
  function Walk(m: Memory, cr3: bv32, v: bv32): Option<bv32> {
    if !Present(Pde(m, cr3, v)) || !Present(Pte(m, cr3, v)) then None
    else Some(Join(Pte(m, cr3, v), v))
  }

  // ---------------------------------------------------------------- the address expressions of the kernel

  function PdeIdx(v: bv32): bv32 { (v & 0xffc00000) >> 22 }

  function PteIdx(v: bv32): bv32 { (v & 0x003ff000) >> 12 }

  function PtePtr(v: bv32): bv32 { 0xffc00000 + ((v & 0xffc00000) >> 10) + PteIdx(v) * 4 }

  function PdePtr(v: bv32): bv32 { 0xfffff000 + PdeIdx(v) * 4 }

  /** The last directory entry points back to the directory. */
  predicate SelfMapped(m: Memory, cr3: bv32) {
    Present(Word(m, Slot(cr3, 0x3ff))) && Frame(Word(m, Slot(cr3, 0x3ff))) == Frame(cr3)
  }

  /** The fields of the address that pte_ptr builds: the last directory entry, then v's own two indices. */
  lemma PtePtrFields(v: bv32)
    ensures Dir(PtePtr(v)) == 0x3ff && Tab(PtePtr(v)) == Dir(v)
    ensures Offset(PtePtr(v)) == Tab(v) << 2
  {
  }

  lemma PdePtrFields(v: bv32)
    ensures Dir(PdePtr(v)) == 0x3ff && Tab(PdePtr(v)) == 0x3ff
    ensures Offset(PdePtr(v)) == Dir(v) << 2
  {
  }

  lemma SameSlot(b: bv32, c: bv32, i: bv32)
    requires Frame(b) == Frame(c)
    ensures Slot(b, i) == Slot(c, i)
  {
  }

  lemma JoinIsSlot(e: bv32, p: bv32, i: bv32)
    requires Offset(p) == i << 2
    ensures Join(e, p) == Slot(e, i)
  {
    assert Join(e, p) == (e & 0xfffff000) | Offset(p);
    hide Offset, Join;
  }

  /** An address whose first index is the last one is looked up in the directory itself. */
  lemma ThroughSelf(m: Memory, cr3: bv32, p: bv32, i: bv32)
    requires SelfMapped(m, cr3) && Dir(p) == 0x3ff && Offset(p) == i << 2
    ensures var e := Word(m, Slot(cr3, Tab(p)));
            Walk(m, cr3, p) == if Present(e) then Some(Slot(e, i)) else None
  {
    hide Slot, Join, Frame, Offset, Dir, Tab, Present;
    SameSlot(Word(m, Slot(cr3, 0x3ff)), cr3, Tab(p));
    JoinIsSlot(Word(m, Slot(cr3, Tab(p))), p, i);
  }

  /** pde_ptr reaches the directory entry that the walk of v uses, whatever else is mapped. */
  lemma PdePtrReaches(m: Memory, cr3: bv32, v: bv32)
    requires SelfMapped(m, cr3)
    ensures Walk(m, cr3, PdePtr(v)) == Some(Slot(cr3, Dir(v)))
  {
    hide Walk, PdePtr, Slot, Frame, Offset, Dir, Tab, Present;
    PdePtrFields(v);
    ThroughSelf(m, cr3, PdePtr(v), Dir(v));
    SameSlot(Word(m, Slot(cr3, 0x3ff)), cr3, Dir(v));
  }

  /** pte_ptr reaches the table entry that the walk of v uses, exactly when the directory entry is present. */
  lemma PtePtrReaches(m: Memory, cr3: bv32, v: bv32)
    requires SelfMapped(m, cr3)
    ensures Walk(m, cr3, PtePtr(v)) == if Present(Pde(m, cr3, v)) then Some(Slot(Pde(m, cr3, v), Tab(v))) else None
  {
    hide Walk, PtePtr, Slot, Frame, Offset, Dir, Tab, Present;
    PtePtrFields(v);
    ThroughSelf(m, cr3, PtePtr(v), Tab(v));
  }

  // ---------------------------------------------------------------- reading and writing through the self-map

  function Load(m: Memory, cr3: bv32, v: bv32): Option<bv32> {
    match Walk(m, cr3, v)
    case None => None
    case Some(a) => Some(Word(m, a))
  }

  function Store(m: Memory, cr3: bv32, v: bv32, w: bv32): Option<Memory> {
    match Walk(m, cr3, v)
    case None => None
    case Some(a) => Some(With(m, a, w))
  }

  /** addr_v2p; None is a page fault on the entry itself. */
  function AddrV2P(m: Memory, cr3: bv32, v: bv32): Option<bv32> {
    match Load(m, cr3, PtePtr(v))
    case None => None
    case Some(e) => Some((e & 0xfffff000) + (v & 0x00000fff))
  }

  lemma SumIsJoin(e: bv32, v: bv32)
    ensures (e & 0xfffff000) + (v & 0x00000fff) == Join(e, v)
  {
  }

  /** For a mapped address addr_v2p says where the processor goes. */
  lemma V2PIsTheWalk(m: Memory, cr3: bv32, v: bv32)
    requires SelfMapped(m, cr3) && Walk(m, cr3, v).Some?
    ensures AddrV2P(m, cr3, v) == Walk(m, cr3, v)
  {
    hide PtePtr, Slot, Frame, Dir, Tab, Present, Join, SelfMapped;
    PtePtrReaches(m, cr3, v);
    SumIsJoin(Pte(m, cr3, v), v);
  }

  /** Only the page of v hangs on v's table entry: its table is not the directory, and u has another page and entry. */
  predicate Apart(m: Memory, cr3: bv32, v: bv32, u: bv32) {
    && Frame(Pde(m, cr3, v)) != Frame(cr3)
    && Page(u) != Page(v)
    && (Frame(Pde(m, cr3, u)) == Frame(Pde(m, cr3, v)) ==> Dir(u) == Dir(v))
  }

  lemma SlotFields(b: bv32, i: bv32)
    requires i <= 0x3ff
    ensures Frame(Slot(b, i)) == Frame(b) && Offset(Slot(b, i)) == i << 2
  {
  }

  lemma SlotsApart(b: bv32, i: bv32, c: bv32, j: bv32)
    requires i <= 0x3ff && j <= 0x3ff && (Frame(b) != Frame(c) || i != j)
    ensures Slot(b, i) != Slot(c, j)
  {
    hide Slot, Frame, Offset;
    SlotFields(b, i);
    SlotFields(c, j);
    assert i << 2 == j << 2 ==> i == j;
  }

  lemma Indices(v: bv32)
    ensures Dir(v) <= 0x3ff && Tab(v) <= 0x3ff
  {
  }

  lemma PageIs(v: bv32)
    ensures Page(v) == (Dir(v) << 10) | Tab(v) && Dir(v) == Page(v) >> 10 && Tab(v) == Page(v) & 0x3ff
  {
  }

  lemma OtherPage(u: bv32, v: bv32)
    ensures Page(u) == Page(v) <==> Dir(u) == Dir(v) && Tab(u) == Tab(v)
  {
    PageIs(u);
    PageIs(v);
    SplitsAlike(Page(u), Page(v), Dir(u), Dir(v), Tab(u), Tab(v));
  }

  lemma SplitsAlike(p: bv32, q: bv32, d: bv32, e: bv32, t: bv32, f: bv32)
    requires p == (d << 10) | t && d == p >> 10 && t == p & 0x3ff
    requires q == (e << 10) | f && e == q >> 10 && f == q & 0x3ff
    ensures p == q <==> d == e && t == f
  {
  }

  lemma WordAfter(m: Memory, a: bv32, w: bv32, b: bv32)
    ensures Word(With(m, a, w), b) == if b == a then w else Word(m, b)
  {
  }

  /** A write to v's table entry leaves the walk of every address apart from v as it was. */
  lemma OthersWalkOn(m: Memory, cr3: bv32, v: bv32, w: bv32, u: bv32)
    requires Apart(m, cr3, v, u)
    ensures Walk(With(m, Slot(Pde(m, cr3, v), Tab(v)), w), cr3, u) == Walk(m, cr3, u)
  {
    hide Slot, Frame, Dir, Tab, Present, Join, Page;
    Indices(u);
    Indices(v);
    OtherPage(u, v);
    SlotsApart(Pde(m, cr3, v), Tab(v), cr3, Dir(u));
    SlotsApart(Pde(m, cr3, v), Tab(v), Pde(m, cr3, u), Tab(u));
    var a := Slot(Pde(m, cr3, v), Tab(v));
    WordAfter(m, a, w, Slot(cr3, Dir(u)));
    WordAfter(m, a, w, Slot(Pde(m, cr3, u), Tab(u)));
  }

  /** After a write to v's table entry the page of v is what the entry says. */
  lemma WalksAnew(m: Memory, cr3: bv32, v: bv32, w: bv32, v': bv32)
    requires Present(Pde(m, cr3, v)) && Frame(Pde(m, cr3, v)) != Frame(cr3) && Page(v') == Page(v)
    ensures Walk(With(m, Slot(Pde(m, cr3, v), Tab(v)), w), cr3, v') == if Present(w) then Some(Join(w, v')) else None
  {
    hide Slot, Frame, Dir, Tab, Present, Join, Page;
    Indices(v);
    OtherPage(v', v);
    SlotsApart(Pde(m, cr3, v), Tab(v), cr3, Dir(v));
    var a := Slot(Pde(m, cr3, v), Tab(v));
    WordAfter(m, a, w, Slot(cr3, Dir(v)));
    WordAfter(m, a, w, a);
  }

  /** The entry that page_table_add writes, and the one that page_table_pte_remove leaves. */
  function Entry(frame: bv32): bv32 { frame | 4 | 2 | 1 }

  function Cleared(e: bv32): bv32 { e & 0xfffffffe }

  lemma EntryFields(frame: bv32)
    requires Offset(frame) == 0
    ensures Present(Entry(frame)) && Frame(Entry(frame)) == frame
  {
  }

  lemma ClearedFields(e: bv32)
    ensures !Present(Cleared(e)) && Frame(Cleared(e)) == Frame(e)
  {
  }

  lemma JoinFrame(e: bv32, f: bv32, v: bv32)
    requires Frame(e) == f
    ensures Join(e, v) == f | Offset(v)
  {
  }

  /** page_table_add with the table present: the page of v is now the frame, and nothing apart from it moves. */
  lemma MapsThePage(m: Memory, cr3: bv32, v: bv32, frame: bv32, v': bv32, u: bv32)
    requires SelfMapped(m, cr3) && Present(Pde(m, cr3, v)) && Offset(frame) == 0
    requires Page(v') == Page(v) && Apart(m, cr3, v, u)
    ensures var r := Store(m, cr3, PtePtr(v), Entry(frame));
            && r.Some? && Walk(r.value, cr3, v') == Some(frame | Offset(v')) && Walk(r.value, cr3, u) == Walk(m, cr3, u)
  {
    hide Slot, Frame, Dir, Tab, Present, Join, Page, Entry, Offset, PtePtr, SelfMapped, Walk;
    PtePtrReaches(m, cr3, v);
    EntryFields(frame);
    WalksAnew(m, cr3, v, Entry(frame), v');
    JoinFrame(Entry(frame), frame, v');
    OthersWalkOn(m, cr3, v, Entry(frame), u);
  }

  /** page_table_pte_remove: the page of v faults, and nothing apart from it moves. */
  lemma UnmapsThePage(m: Memory, cr3: bv32, v: bv32, v': bv32, u: bv32)
    requires SelfMapped(m, cr3) && Present(Pde(m, cr3, v)) && Page(v') == Page(v) && Apart(m, cr3, v, u)
    ensures var e := Load(m, cr3, PtePtr(v));
            && e.Some?
            && var r := Store(m, cr3, PtePtr(v), Cleared(e.value));
               r.Some? && Walk(r.value, cr3, v') == None && Walk(r.value, cr3, u) == Walk(m, cr3, u)
  {
    hide Slot, Frame, Dir, Tab, Present, Join, Page, Cleared, Offset, PtePtr, SelfMapped, Walk;
    PtePtrReaches(m, cr3, v);
    var w := Cleared(Pte(m, cr3, v));
    ClearedFields(Pte(m, cr3, v));
    WalksAnew(m, cr3, v, w, v');
    OthersWalkOn(m, cr3, v, w, u);
  }

  // ---------------------------------------------------------------- page_table_add when the table has to be made

  /** The first i words of the frame of f are cleared. */
  function Wiped(m: Memory, f: bv32, i: bv32): Memory
    decreases i
  {
    if i == 0 then m else With(Wiped(m, f, i - 1), Slot(f, i - 1), 0)
  }

  lemma Below(i: bv32, j: bv32)
    requires j < i <= 0x400
    ensures i - 1 < i && i - 1 <= 0x400 && (j != i - 1 ==> j < i - 1)
  {
  }

  lemma {:induction false} WipedAt(m: Memory, f: bv32, i: bv32, j: bv32)
    requires j < i <= 0x400
    ensures Word(Wiped(m, f, i), Slot(f, j)) == 0
    decreases i
  {
    hide Slot, With, Word;
    var k := i - 1;
    Below(i, j);
    WordAfter(Wiped(m, f, k), Slot(f, k), 0, Slot(f, j));
    if j != k {
      WipedAt(m, f, k, j);
    }
  }

  lemma {:induction false} WipedElse(m: Memory, f: bv32, i: bv32, x: bv32)
    requires i <= 0x400 && Frame(x) != Frame(f)
    ensures Word(Wiped(m, f, i), x) == Word(m, x)
    decreases i
  {
    hide Slot, Frame;
    if i > 0 {
      WipedElse(m, f, i - 1, x);
      SlotFields(f, i - 1);
      WordAfter(Wiped(m, f, i - 1), Slot(f, i - 1), 0, x);
    }
  }

  /** The address of word i of the table of v, through the self-map. */
  function Window(v: bv32, i: bv32): bv32 { (PtePtr(v) & 0xfffff000) + (i << 2) }

  lemma WindowFields(v: bv32, i: bv32)
    requires i <= 0x3ff
    ensures Dir(Window(v, i)) == 0x3ff && Tab(Window(v, i)) == Dir(v) && Offset(Window(v, i)) == i << 2
  {
  }

  /** A word outside the directory does not change where the directory is seen. */
  lemma SelfMapKept(m: Memory, cr3: bv32, b: bv32, i: bv32, w: bv32)
    requires SelfMapped(m, cr3) && Frame(b) != Frame(cr3) && i <= 0x3ff
    ensures SelfMapped(With(m, Slot(b, i), w), cr3)
    ensures forall j: bv32 :: j <= 0x3ff ==> Word(With(m, Slot(b, i), w), Slot(cr3, j)) == Word(m, Slot(cr3, j))
  {
    hide Slot, Frame, Present;
    forall j: bv32 | j <= 0x3ff ensures Word(With(m, Slot(b, i), w), Slot(cr3, j)) == Word(m, Slot(cr3, j)) {
      SlotsApart(b, i, cr3, j);
      WordAfter(m, Slot(b, i), w, Slot(cr3, j));
    }
  }

  /** A store through the window reaches word i of the table. */
  lemma WindowStore(m: Memory, cr3: bv32, v: bv32, f: bv32, i: bv32, w: bv32)
    requires SelfMapped(m, cr3) && i <= 0x3ff && Present(Pde(m, cr3, v)) && Frame(Pde(m, cr3, v)) == Frame(f)
    ensures Store(m, cr3, Window(v, i), w) == Some(With(m, Slot(f, i), w))
  {
    hide Slot, Frame, Dir, Tab, Offset, Present, Window, Walk, With;
    WindowFields(v, i);
    ThroughSelf(m, cr3, Window(v, i), i);
    SameSlot(Pde(m, cr3, v), f, i);
  }

  /** The memset of page_table_add, word by word through the self-map. */
  method ClearTable(m: Memory, cr3: bv32, v: bv32, f: bv32) returns (r: Memory)
    requires SelfMapped(m, cr3) && Frame(f) != Frame(cr3)
    requires Present(Pde(m, cr3, v)) && Frame(Pde(m, cr3, v)) == Frame(f)
    ensures r == Wiped(m, f, 0x400) && SelfMapped(r, cr3) && Pde(r, cr3, v) == Pde(m, cr3, v)
  {
    hide Slot, Frame, Dir, Present, Walk, With, Window, SelfMapped;
    r := m;
    var i: bv32 := 0;
    Indices(v);
    while i < 0x400
      invariant i <= 0x400 && r == Wiped(m, f, i) && SelfMapped(r, cr3) && Pde(r, cr3, v) == Pde(m, cr3, v)
      decreases 0x400 - i
    {
      WindowStore(r, cr3, v, f, i, 0);
      SelfMapKept(r, cr3, f, i, 0);
      r := Store(r, cr3, Window(v, i), 0).value;
      i := i + 1;
    }
  }

  /** The frame of f is no table yet, and not the directory. */
  ghost predicate FreshTable(m: Memory, cr3: bv32, f: bv32) {
    && Offset(f) == 0 && Frame(f) != Frame(cr3)
    && forall u: bv32 :: Present(Pde(m, cr3, u)) ==> Frame(Pde(m, cr3, u)) != Frame(f)
  }

  /** The directory entry of v names the frame of f, which has been cleared. */
  function NewTable(m: Memory, cr3: bv32, v: bv32, f: bv32): Memory {
    Wiped(With(m, Slot(cr3, Dir(v)), Entry(f)), f, 0x400)
  }

  function NewPage(m: Memory, cr3: bv32, v: bv32, f: bv32, frame: bv32): Memory {
    With(NewTable(m, cr3, v, f), Slot(f, Tab(v)), Entry(frame))
  }

  lemma NotTheSelfMap(m: Memory, cr3: bv32, v: bv32)
    requires SelfMapped(m, cr3) && !Present(Pde(m, cr3, v))
    ensures Dir(v) != 0x3ff
  {
    hide Slot, Frame, Dir, Present;
  }

  /** The words of the directory and of the new table. */
  lemma NewTableWords(m: Memory, cr3: bv32, v: bv32, f: bv32, j: bv32)
    requires Frame(f) != Frame(cr3) && j <= 0x3ff
    ensures Word(NewTable(m, cr3, v, f), Slot(cr3, j)) == if j == Dir(v) then Entry(f) else Word(m, Slot(cr3, j))
    ensures Word(NewTable(m, cr3, v, f), Slot(f, j)) == 0
  {
    hide Slot, Frame, Dir, With, Word, Entry;
    var m1 := With(m, Slot(cr3, Dir(v)), Entry(f));
    Indices(v);
    SlotFields(cr3, j);
    WipedElse(m1, f, 0x400, Slot(cr3, j));
    WordAfter(m, Slot(cr3, Dir(v)), Entry(f), Slot(cr3, j));
    if j != Dir(v) { SlotsApart(cr3, j, cr3, Dir(v)); }
    WipedAt(m1, f, 0x400, j);
  }

  lemma NewTableElse(m: Memory, cr3: bv32, v: bv32, f: bv32, x: bv32)
    requires Frame(x) != Frame(f) && Frame(x) != Frame(cr3)
    ensures Word(NewTable(m, cr3, v, f), x) == Word(m, x)
  {
    hide Slot, Frame, Dir, With, Word, Entry;
    var m1 := With(m, Slot(cr3, Dir(v)), Entry(f));
    Indices(v);
    WipedElse(m1, f, 0x400, x);
    SlotFields(cr3, Dir(v));
    WordAfter(m, Slot(cr3, Dir(v)), Entry(f), x);
  }

  lemma NewTableSelf(m: Memory, cr3: bv32, v: bv32, f: bv32)
    requires SelfMapped(m, cr3) && !Present(Pde(m, cr3, v)) && Frame(f) != Frame(cr3)
    ensures SelfMapped(NewTable(m, cr3, v, f), cr3)
  {
    hide Slot, Frame, Dir, Present, NewTable;
    NotTheSelfMap(m, cr3, v);
    NewTableWords(m, cr3, v, f, 0x3ff);
  }

  /** u is seen through the entry of the directory that is about to be written: the window on the new table. */
  predicate InWindow(m: Memory, cr3: bv32, v: bv32, u: bv32) {
    Frame(Pde(m, cr3, u)) == Frame(cr3) && Tab(u) == Dir(v)
  }

  /** The new table is empty, and every address of another directory entry, but for the window, walks as before. */
  lemma NewTableWalk(m: Memory, cr3: bv32, v: bv32, f: bv32, u: bv32)
    requires FreshTable(m, cr3, f)
    ensures Dir(u) == Dir(v) ==> Walk(NewTable(m, cr3, v, f), cr3, u) == None
    ensures Dir(u) == Dir(v) ==> Pde(NewTable(m, cr3, v, f), cr3, u) == Entry(f)
    ensures Dir(u) != Dir(v) ==> Pde(NewTable(m, cr3, v, f), cr3, u) == Pde(m, cr3, u)
    ensures Dir(u) != Dir(v) && !InWindow(m, cr3, v, u) ==> Walk(NewTable(m, cr3, v, f), cr3, u) == Walk(m, cr3, u)
  {
    hide Slot, Frame, Dir, Tab, Present, NewTable, Join, Entry, Offset;
    var t := NewTable(m, cr3, v, f);
    Indices(u);
    Indices(v);
    NewTableWords(m, cr3, v, f, Dir(u));
    if Dir(u) == Dir(v) {
      EntryFields(f);
      FrameOfFrame(f);
      SameSlot(Entry(f), f, Tab(u));
      NewTableWords(m, cr3, v, f, Tab(u));
      ZeroAbsent();
    } else if Present(Pde(m, cr3, u)) && !InWindow(m, cr3, v, u) {
      var e := Pde(m, cr3, u);
      SlotFields(e, Tab(u));
      if Frame(e) == Frame(cr3) {
        SameSlot(e, cr3, Tab(u));
        NewTableWords(m, cr3, v, f, Tab(u));
      } else {
        NewTableElse(m, cr3, v, f, Slot(e, Tab(u)));
      }
    }
  }

  lemma FrameOfFrame(f: bv32)
    requires Offset(f) == 0
    ensures Frame(f) == f
  {
  }

  lemma ZeroAbsent()
    ensures !Present(0)
  {
  }

  /**
   * page_table_add when the directory entry is absent: the page of v is the frame, every other page of that
   * directory entry faults, everything else walks as before, and the window now shows the new table.
   */
  lemma MakesTheTable(m: Memory, cr3: bv32, v: bv32, f: bv32, frame: bv32, u: bv32)
    requires SelfMapped(m, cr3) && !Present(Pde(m, cr3, v)) && FreshTable(m, cr3, f) && Offset(frame) == 0
    ensures var r := NewPage(m, cr3, v, f, frame);
            && SelfMapped(r, cr3) && Pde(r, cr3, v) == Entry(f)
            && (Page(u) == Page(v) ==> Walk(r, cr3, u) == Some(frame | Offset(u)))
            && (Dir(u) == Dir(v) && Page(u) != Page(v) ==> Walk(r, cr3, u) == None)
            && (Dir(u) != Dir(v) && !InWindow(m, cr3, v, u) ==> Walk(r, cr3, u) == Walk(m, cr3, u))
            && (Dir(u) == 0x3ff && Tab(u) == Dir(v) ==> Walk(r, cr3, u) == Some(f | Offset(u)))
  {
    hide Slot, Frame, Dir, Tab, Present, NewTable, Join, Entry, Page, Offset, Walk;
    var t := NewTable(m, cr3, v, f);
    NewTableSelf(m, cr3, v, f);
    NewTableWalk(m, cr3, v, f, v);
    NewTableWalk(m, cr3, v, f, u);
    EntryFields(f);
    EntryFields(frame);
    FrameOfFrame(f);
    OtherPage(u, v);
    Indices(v);
    SameSlot(Entry(f), f, Tab(v));
    SelfMapKept(t, cr3, f, Tab(v), Entry(frame));
    if Page(u) == Page(v) {
      WalksAnew(t, cr3, v, Entry(frame), u);
      JoinFrame(Entry(frame), frame, u);
    } else {
      StaysAfterPage(m, cr3, v, f, frame, u);
    }
  }

  lemma StaysAfterPage(m: Memory, cr3: bv32, v: bv32, f: bv32, frame: bv32, u: bv32)
    requires SelfMapped(m, cr3) && !Present(Pde(m, cr3, v)) && FreshTable(m, cr3, f) && Page(u) != Page(v)
    ensures var r := NewPage(m, cr3, v, f, frame);
            && (Dir(u) == Dir(v) ==> Walk(r, cr3, u) == None)
            && (Dir(u) != Dir(v) && !InWindow(m, cr3, v, u) ==> Walk(r, cr3, u) == Walk(m, cr3, u))
            && (Dir(u) == 0x3ff && Tab(u) == Dir(v) ==> Walk(r, cr3, u) == Some(f | Offset(u)))
  {
    hide Slot, Frame, Dir, Tab, Present, NewTable, Join, Entry, Page, Offset;
    var t := NewTable(m, cr3, v, f);
    NewTableWalk(m, cr3, v, f, v);
    NewTableWalk(m, cr3, v, f, u);
    EntryFields(f);
    FrameOfFrame(f);
    Indices(v);
    Indices(u);
    SameSlot(Entry(f), f, Tab(v));
    NewTableSelf(m, cr3, v, f);
    SelfMapKept(t, cr3, f, Tab(v), Entry(frame));
    if Dir(u) == Dir(v) || Present(Pde(m, cr3, u)) {
      OthersWalkOn(t, cr3, v, Entry(frame), u);
    }
    if Dir(u) == 0x3ff && Tab(u) == Dir(v) {
      WindowShows(t, cr3, v, f, u);
    }
  }

  /** Through the window one sees the words of the table itself. */
  lemma WindowShows(t: Memory, cr3: bv32, v: bv32, f: bv32, u: bv32)
    requires SelfMapped(t, cr3) && Pde(t, cr3, v) == Entry(f) && Offset(f) == 0 && Dir(u) == 0x3ff && Tab(u) == Dir(v)
    ensures Walk(t, cr3, u) == Some(f | Offset(u))
  {
    hide Slot, Frame, Dir, Tab, Present, Join, Entry, Offset;
    EntryFields(f);
    SameSlot(Word(t, Slot(cr3, 0x3ff)), cr3, Tab(u));
    JoinFrame(Entry(f), f, u);
  }

  // ---------------------------------------------------------------- the code

  /** The words after page_table_add. */
  function Added(m: Memory, cr3: bv32, v: bv32, f: bv32, frame: bv32): Memory {
    if Present(Pde(m, cr3, v)) then With(m, Slot(Pde(m, cr3, v), Tab(v)), Entry(frame))
    else NewPage(m, cr3, v, f, frame)
  }

  /**
   * page_table_add through the self-map; f is the frame that palloc gives if the table has to be made.
   * None is the assert that the entry is absent; no access faults.
   */
  method PageTableAdd(m: Memory, cr3: bv32, v: bv32, f: bv32, frame: bv32) returns (r: Option<Memory>)
    requires SelfMapped(m, cr3)
    requires !Present(Pde(m, cr3, v)) ==> FreshTable(m, cr3, f)
    ensures r == if Present(Pde(m, cr3, v)) && Present(Pte(m, cr3, v)) then None else Some(Added(m, cr3, v, f, frame))
  {
    hide Walk, SelfMapped, PdePtr, PtePtr, Slot, Frame, Dir, Tab, Present, Entry, Offset, With, FreshTable;
    PdePtrReaches(m, cr3, v);
    var pde := Load(m, cr3, PdePtr(v)).value;
    if Present(pde) {
      PtePtrReaches(m, cr3, v);
      var pte := Load(m, cr3, PtePtr(v)).value;
      if Present(pte) {
        return None;
      }
      r := Store(m, cr3, PtePtr(v), Entry(frame));
    } else {
      FreshFacts(m, cr3, f);
      EntryFields(f);
      var m1 := Store(m, cr3, PdePtr(v), Entry(f)).value;
      DirectoryWritten(m, cr3, v, f);
      var m2 := ClearTable(m1, cr3, v, f);
      PtePtrReaches(m2, cr3, v);
      EntryWiped(m, cr3, v, f);
      var pte := Load(m2, cr3, PtePtr(v)).value;
      assert !Present(pte);
      r := Store(m2, cr3, PtePtr(v), Entry(frame));
    }
  }

  lemma FreshFacts(m: Memory, cr3: bv32, f: bv32)
    requires FreshTable(m, cr3, f)
    ensures Offset(f) == 0 && Frame(f) != Frame(cr3) && Frame(f) == f
  {
    hide Frame, Offset, Present;
    FrameOfFrame(f);
  }

  /** After the directory entry is written, the table is the frame of f. */
  lemma DirectoryWritten(m: Memory, cr3: bv32, v: bv32, f: bv32)
    requires SelfMapped(m, cr3) && !Present(Pde(m, cr3, v)) && Offset(f) == 0
    ensures var m1 := With(m, Slot(cr3, Dir(v)), Entry(f));
            SelfMapped(m1, cr3) && Pde(m1, cr3, v) == Entry(f)
  {
    hide Slot, Frame, Dir, Present, Entry, Offset;
    NotTheSelfMap(m, cr3, v);
    Indices(v);
    SlotsApart(cr3, 0x3ff, cr3, Dir(v));
    WordAfter(m, Slot(cr3, Dir(v)), Entry(f), Slot(cr3, 0x3ff));
    WordAfter(m, Slot(cr3, Dir(v)), Entry(f), Slot(cr3, Dir(v)));
  }

  lemma EntryWiped(m: Memory, cr3: bv32, v: bv32, f: bv32)
    requires Frame(f) != Frame(cr3) && Offset(f) == 0
    ensures var t := NewTable(m, cr3, v, f);
            Pde(t, cr3, v) == Entry(f) && Slot(Pde(t, cr3, v), Tab(v)) == Slot(f, Tab(v)) && !Present(Pte(t, cr3, v))
  {
    hide Slot, Frame, Dir, Tab, Present, Entry, Offset, NewTable;
    Indices(v);
    NewTableWords(m, cr3, v, f, Dir(v));
    NewTableWords(m, cr3, v, f, Tab(v));
    EntryFields(f);
    FrameOfFrame(f);
    SameSlot(Entry(f), f, Tab(v));
    ZeroAbsent();
  }
}
