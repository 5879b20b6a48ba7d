/** The words of the page tables against the address spaces: what the processor walks is what the pools record. */
module PageWords {
  import opened Basics
  import opened Paging
  import A = AddressSpace

  // ---------------------------------------------------------------- numbers of pages, frames and directory entries

  predicate Low(x: bv32) { x & 1 == 1 }

  function Half(x: bv32): bv32 { x >> 1 }

  function Bit(b: bool): nat { if b then 1 else 0 }

  /** The number made of the low k bits. */
  function Val(x: bv32, k: nat): nat {
    if k == 0 then 0 else Bit(Low(x)) + 2 * Val(Half(x), k - 1)
  }

  /** There are no bits above the low k. */
  predicate Short(x: bv32, k: nat) {
    if k == 0 then x == 0 else Short(Half(x), k - 1)
  }

  lemma HalvesMeet(x: bv32, y: bv32)
    requires Half(x) == Half(y) && Low(x) == Low(y)
    ensures x == y
  {
  }

  lemma {:induction false} ValInjective(x: bv32, y: bv32, k: nat)
    requires Short(x, k) && Short(y, k) && Val(x, k) == Val(y, k)
    ensures x == y
    decreases k
  {
    hide Low, Half;
    if k > 0 {
      ValInjective(Half(x), Half(y), k - 1);
      HalvesMeet(x, y);
    }
  }

  /** The number of the page of an address, or of the frame of an entry. */
  function PageNo(v: bv32): nat { Val(v >> 12, 20) }

  function DirNo(v: bv32): nat { Val(v >> 22, 10) }

  lemma HalvesOf(v: bv32)
    ensures Half(v >> 12) == v >> 13 && Half(v >> 13) == v >> 14 && Half(v >> 14) == v >> 15 && Half(v >> 15) == v >> 16
    ensures Half(v >> 16) == v >> 17 && Half(v >> 17) == v >> 18 && Half(v >> 18) == v >> 19 && Half(v >> 19) == v >> 20
    ensures Half(v >> 20) == v >> 21 && Half(v >> 21) == v >> 22 && Half(v >> 22) == v >> 23 && Half(v >> 23) == v >> 24
    ensures Half(v >> 24) == v >> 25 && Half(v >> 25) == v >> 26 && Half(v >> 26) == v >> 27 && Half(v >> 27) == v >> 28
    ensures Half(v >> 28) == v >> 29 && Half(v >> 29) == v >> 30 && Half(v >> 30) == v >> 31 && Half(v >> 31) == 0
  {
  }

  lemma ShortPages(v: bv32)
    ensures Short(v >> 12, 20) && Short(v >> 22, 10)
  {
    HalvesOf(v);
    hide Half;
    assert Short(v >> 31, 1) && Short(v >> 30, 2) && Short(v >> 29, 3) && Short(v >> 28, 4) && Short(v >> 27, 5);
    assert Short(v >> 26, 6) && Short(v >> 25, 7) && Short(v >> 24, 8) && Short(v >> 23, 9) && Short(v >> 22, 10);
    assert Short(v >> 21, 11) && Short(v >> 20, 12) && Short(v >> 19, 13) && Short(v >> 18, 14) && Short(v >> 17, 15);
    assert Short(v >> 16, 16) && Short(v >> 15, 17) && Short(v >> 14, 18) && Short(v >> 13, 19);
  }

  /** Five halvings. */
  lemma ValOfHalves(a: bv32, b: bv32, c: bv32, d: bv32, e: bv32, f: bv32, k: nat)
    requires k >= 5 && Half(a) == b && Half(b) == c && Half(c) == d && Half(d) == e && Half(e) == f
    ensures Val(a, k) / 32 == Val(f, k - 5)
  {
    hide Half, Low;
    assert Val(a, k) == Bit(Low(a)) + 2 * Val(b, k - 1);
    assert Val(b, k - 1) == Bit(Low(b)) + 2 * Val(c, k - 2);
    assert Val(c, k - 2) == Bit(Low(c)) + 2 * Val(d, k - 3);
    assert Val(d, k - 3) == Bit(Low(d)) + 2 * Val(e, k - 4);
    assert Val(e, k - 4) == Bit(Low(e)) + 2 * Val(f, k - 5);
  }

  lemma DivTwice(n: nat)
    ensures n / 32 / 32 == n / 1024
  {
  }

  /** A directory entry covers 1024 pages. */
  lemma DirOfPage(v: bv32)
    ensures PageNo(v) / 1024 == DirNo(v)
  {
    HalvesOf(v);
    hide Half, Val;
    ValOfHalves(v >> 12, v >> 13, v >> 14, v >> 15, v >> 16, v >> 17, 20);
    ValOfHalves(v >> 17, v >> 18, v >> 19, v >> 20, v >> 21, v >> 22, 15);
    DivTwice(PageNo(v));
  }

  lemma SameNumber(u: bv32, v: bv32)
    ensures PageNo(u) == PageNo(v) <==> Page(u) == Page(v)
  {
    ShortPages(u);
    ShortPages(v);
    hide Val, Short;
    if PageNo(u) == PageNo(v) { ValInjective(u >> 12, v >> 12, 20); }
  }

  lemma SameDir(u: bv32, v: bv32)
    ensures DirNo(u) == DirNo(v) <==> Dir(u) == Dir(v)
  {
    ShortPages(u);
    ShortPages(v);
    hide Val, Short;
    if DirNo(u) == DirNo(v) { ValInjective(u >> 22, v >> 22, 10); }
  }

  /** The start of page p, and the page of an address. */
  function Base(p: bv32): bv32 { p << 12 }

  lemma FrameShifts(u: bv32)
    ensures Frame(u) == Base(Page(u)) && Page(u) == Page(Frame(u))
  {
  }

  lemma SamePage(u: bv32, v: bv32)
    ensures PageNo(u) == PageNo(v) <==> Page(u) == Page(v)
    ensures PageNo(u) == PageNo(v) <==> Frame(u) == Frame(v)
  {
    SameNumber(u, v);
    hide Frame, PageNo, Base, Page;
    FrameShifts(u);
    FrameShifts(v);
  }

  lemma HighBits()
    ensures (0xffc00000 as bv32) >> 22 == 1023 && Dir(0xffc00000) == 0x3ff
    ensures Half(1023) == 511 && Half(511) == 255 && Half(255) == 127 && Half(127) == 63 && Half(63) == 31
    ensures Half(31) == 15 && Half(15) == 7 && Half(7) == 3 && Half(3) == 1 && Low(1)
    ensures Low(1023) && Low(511) && Low(255) && Low(127) && Low(63) && Low(31) && Low(15) && Low(7) && Low(3)
  {
  }

  /** The directory entry of the self-map is number 1023. */
  lemma LastDir(v: bv32)
    ensures DirNo(v) == 1023 <==> Dir(v) == 0x3ff
  {
    SameDir(v, 0xffc00000);
    HighBits();
    hide Low, Half, Dir;
    assert Val(3, 2) == 3 && Val(7, 3) == 7 && Val(15, 4) == 15 && Val(31, 5) == 31 && Val(63, 6) == 63;
    assert Val(127, 7) == 127 && Val(255, 8) == 255 && Val(511, 9) == 511 && Val(1023, 10) == 1023;
  }

  // ---------------------------------------------------------------- the words say what the spaces say

  /** The part of the directory that the space has to itself. */
  predicate Own(sp: nat, v: bv32) {
    if sp == A.KERNEL then A.KERNEL_DIRS <= DirNo(v) < 1023 else DirNo(v) < A.KERNEL_DIRS
  }

  /** The addresses whose pages the space accounts for. */
  predicate Covers(sp: nat, s: A.Space, v: bv32) {
    Own(sp, v) && (sp == A.KERNEL ==> s.start <= PageNo(v))
  }

  /** The frame of a directory: the loader's, or a page that the kernel has taken. */
  predicate DirFrame(m: A.Mem, sp: nat, f: nat) {
    if sp == A.KERNEL then f < m.kStart
    else f in m.own && m.own[f].Page? && m.own[f].sp == A.KERNEL
  }

  /** The kernel's tables are the loader's; no table is the directory. */
  predicate Shape(w: Memory, cr3: bv32, m: A.Mem, sp: nat, v: bv32) {
    Present(Pde(w, cr3, v)) && DirNo(v) != 1023 ==>
      && PageNo(Pde(w, cr3, v)) != PageNo(cr3)
      && (DirNo(v) >= A.KERNEL_DIRS || sp == A.KERNEL ==> PageNo(Pde(w, cr3, v)) < m.kStart)
  }

  /** No two directory entries of the space share a table. */
  predicate Split(w: Memory, cr3: bv32, sp: nat, u: bv32, v: bv32) {
    Own(sp, u) && Own(sp, v) && Present(Pde(w, cr3, u)) && Present(Pde(w, cr3, v)) && DirNo(u) != DirNo(v) ==>
      PageNo(Pde(w, cr3, u)) != PageNo(Pde(w, cr3, v))
  }

  predicate TableAgrees(w: Memory, cr3: bv32, sp: nat, s: A.Space, v: bv32) {
    Own(sp, v) ==>
      && (Present(Pde(w, cr3, v)) <==> DirNo(v) in s.tables || sp == A.KERNEL)
      && (sp != A.KERNEL && DirNo(v) in s.tables ==> PageNo(Pde(w, cr3, v)) == s.tables[DirNo(v)])
  }

  /** The processor finds the page exactly when the space has it, and goes to the frame that the space has for it. */
  predicate PageAgrees(w: Memory, cr3: bv32, sp: nat, s: A.Space, v: bv32) {
    Covers(sp, s, v) ==>
      && (Walk(w, cr3, v).Some? <==> PageNo(v) in s.pt)
      && (PageNo(v) in s.pt ==> Walk(w, cr3, v).Some? && PageNo(Walk(w, cr3, v).value) == s.pt[PageNo(v)])
  }

  predicate At(w: Memory, cr3: bv32, m: A.Mem, sp: nat, v: bv32)
    requires sp in m.spaces
  {
    Shape(w, cr3, m, sp, v) && TableAgrees(w, cr3, sp, m.spaces[sp], v) && PageAgrees(w, cr3, sp, m.spaces[sp], v)
  }

  ghost predicate Mirrors(w: Memory, cr3: bv32, m: A.Mem, sp: nat) {
    && sp in m.spaces && SelfMapped(w, cr3) && DirFrame(m, sp, PageNo(cr3))
    && (forall v: bv32 :: At(w, cr3, m, sp, v))
    && (forall u: bv32, v: bv32 :: Split(w, cr3, sp, u, v))
  }

  // ---------------------------------------------------------------- one entry is written

  lemma JoinPage(e: bv32, v: bv32)
    ensures PageNo(Join(e, v)) == PageNo(e)
  {
    SameNumber(Join(e, v), e);
    hide PageNo;
    JoinShifts(e, v);
  }

  lemma JoinShifts(e: bv32, v: bv32)
    ensures Page(Join(e, v)) == Page(e)
  {
  }

  lemma EntryPage(frame: bv32)
    requires Offset(frame) == 0
    ensures Present(Entry(frame)) && PageNo(Entry(frame)) == PageNo(frame)
  {
    hide PageNo, Frame, Entry, Offset, Present;
    EntryFields(frame);
    FrameOfFrame(frame);
    SamePage(Entry(frame), frame);
  }

  /** The words with another entry for the page of v. */
  function Rewritten(w: Memory, cr3: bv32, v: bv32, e: bv32): Memory { With(w, Slot(Pde(w, cr3, v), Tab(v)), e) }

  /** What is left as it was when the entry of v is written. */
  lemma DirectoryStays(w: Memory, cr3: bv32, v: bv32, e: bv32, u: bv32)
    requires SelfMapped(w, cr3) && PageNo(Pde(w, cr3, v)) != PageNo(cr3)
    ensures SelfMapped(Rewritten(w, cr3, v, e), cr3) && Pde(Rewritten(w, cr3, v, e), cr3, u) == Pde(w, cr3, u)
  {
    hide PageNo, Frame, Slot, Present, Dir, Tab, With, SelfMapped;
    SamePage(Pde(w, cr3, v), cr3);
    Indices(v);
    Indices(u);
    SelfMapKept(w, cr3, Pde(w, cr3, v), Tab(v), e);
  }

  lemma PageRewritten(w: Memory, cr3: bv32, v: bv32, e: bv32, u: bv32)
    requires Present(Pde(w, cr3, v)) && PageNo(Pde(w, cr3, v)) != PageNo(cr3) && PageNo(u) == PageNo(v)
    ensures var x := Walk(Rewritten(w, cr3, v, e), cr3, u);
            if Present(e) then x.Some? && PageNo(x.value) == PageNo(e) else x == None
  {
    hide PageNo, Frame, Slot, Present, Dir, Tab, With, Walk, Page, Join;
    SamePage(Pde(w, cr3, v), cr3);
    SamePage(u, v);
    WalksAnew(w, cr3, v, e, u);
    JoinPage(e, u);
  }

  lemma OtherPagesStay(w: Memory, cr3: bv32, sp: nat, v: bv32, e: bv32, u: bv32)
    requires SelfMapped(w, cr3) && Present(Pde(w, cr3, v)) && PageNo(Pde(w, cr3, v)) != PageNo(cr3) && PageNo(u) != PageNo(v)
    requires Own(sp, u) && Own(sp, v) && Split(w, cr3, sp, u, v)
    ensures Walk(Rewritten(w, cr3, v, e), cr3, u) == Walk(w, cr3, u)
  {
    hide PageNo, DirNo, Frame, Slot, Present, Dir, Tab, Page, Join, SelfMapped, Own, Rewritten;
    DirectoryStays(w, cr3, v, e, u);
    if Present(Pde(w, cr3, u)) {
      SamePage(Pde(w, cr3, v), cr3);
      SamePage(Pde(w, cr3, v), Pde(w, cr3, u));
      SamePage(u, v);
      SameDir(u, v);
      OneEntryMoves(w, cr3, v, e, u);
    }
  }

  lemma OneEntryMoves(w: Memory, cr3: bv32, v: bv32, e: bv32, u: bv32)
    requires Apart(w, cr3, v, u)
    ensures Walk(Rewritten(w, cr3, v, e), cr3, u) == Walk(w, cr3, u)
  {
    hide Apart, Walk, Slot, Tab;
    OthersWalkOn(w, cr3, v, e, u);
  }

  /** A mapped page has its table, and the table is not the directory. */
  lemma TableThere(w: Memory, cr3: bv32, m: A.Mem, sp: nat, v: bv32)
    requires Mirrors(w, cr3, m, sp) && Own(sp, v) && (DirNo(v) in m.spaces[sp].tables || sp == A.KERNEL)
    ensures Present(Pde(w, cr3, v)) && PageNo(Pde(w, cr3, v)) != PageNo(cr3)
  {
    hide PageNo, DirNo, Slot, Present, Dir, PageAgrees, SelfMapped;
    assert At(w, cr3, m, sp, v);
  }

  /** The space has another entry for the page of v, and everything else as it was. */
  ghost predicate Changed(m: A.Mem, r: A.Mem, sp: nat, v: bv32) {
    && sp in m.spaces && sp in r.spaces && r.kStart == m.kStart
    && r.spaces[sp].start == m.spaces[sp].start && r.spaces[sp].tables == m.spaces[sp].tables
    && forall p :: p != PageNo(v) ==>
         (p in r.spaces[sp].pt <==> p in m.spaces[sp].pt) && (p in m.spaces[sp].pt ==> r.spaces[sp].pt[p] == m.spaces[sp].pt[p])
  }

  lemma ChangedSpace(m: A.Mem, r: A.Mem, sp: nat, v: bv32)
    requires Changed(m, r, sp, v)
    ensures sp in m.spaces && sp in r.spaces
  {
  }

  predicate Says(e: bv32, s: A.Space, p: nat) {
    && (Present(e) <==> p in s.pt)
    && (p in s.pt ==> PageNo(e) == s.pt[p])
  }

  lemma EntryAt(w: Memory, cr3: bv32, m: A.Mem, r: A.Mem, sp: nat, v: bv32, e: bv32, u: bv32)
    requires Mirrors(w, cr3, m, sp) && Changed(m, r, sp, v) && Says(e, r.spaces[sp], PageNo(v))
    requires Own(sp, v) && Present(Pde(w, cr3, v)) && PageNo(Pde(w, cr3, v)) != PageNo(cr3)
    ensures At(Rewritten(w, cr3, v, e), cr3, r, sp, u)
  {
    hide PageNo, DirNo, Slot, Present, Dir, Tab, With, Walk, SelfMapped, Own, Rewritten, Pde;
    assert At(w, cr3, m, sp, u) && Split(w, cr3, sp, u, v);
    DirectoryStays(w, cr3, v, e, u);
    if PageNo(u) == PageNo(v) {
      PageRewritten(w, cr3, v, e, u);
    } else if Own(sp, u) {
      OtherPagesStay(w, cr3, sp, v, e, u);
    }
  }

  /** Writing one entry brings the words from one state of the space to the other. */
  lemma EntryWritten(w: Memory, cr3: bv32, m: A.Mem, r: A.Mem, sp: nat, v: bv32, e: bv32)
    requires Mirrors(w, cr3, m, sp) && Changed(m, r, sp, v) && Says(e, r.spaces[sp], PageNo(v))
    requires Own(sp, v) && Present(Pde(w, cr3, v)) && PageNo(Pde(w, cr3, v)) != PageNo(cr3)
    requires DirFrame(r, sp, PageNo(cr3))
    ensures Mirrors(Rewritten(w, cr3, v, e), cr3, r, sp)
  {
    hide PageNo, DirNo, Present, SelfMapped, Own, Rewritten, Pde, At, Changed, Says, DirFrame;
    var w' := Rewritten(w, cr3, v, e);
    ChangedSpace(m, r, sp, v);
    DirectoryStays(w, cr3, v, e, v);
    forall u: bv32 ensures At(w', cr3, r, sp, u) {
      EntryAt(w, cr3, m, r, sp, v, e, u);
    }
    forall a: bv32, b: bv32 ensures Split(w', cr3, sp, a, b) {
      assert Split(w, cr3, sp, a, b);
      DirectoryStays(w, cr3, v, e, a);
      DirectoryStays(w, cr3, v, e, b);
    }
  }

  /** Installed: page_table_add writes the entry of a page whose table is there. */
  lemma InstallRefines(w: Memory, cr3: bv32, m: A.Mem, sp: nat, v: bv32, frame: bv32)
    requires Mirrors(w, cr3, m, sp) && Covers(sp, m.spaces[sp], v) && A.HasTable(m, sp, DirNo(v))
    requires PageNo(v) !in m.spaces[sp].pt && Offset(frame) == 0 && PageNo(frame) !in m.own
    ensures Present(Pde(w, cr3, v)) && !Present(Pte(w, cr3, v))
    ensures Mirrors(Rewritten(w, cr3, v, Entry(frame)), cr3, A.Installed(m, sp, PageNo(v), PageNo(frame)), sp)
  {
    hide PageNo, DirNo, Present, SelfMapped, Rewritten, Pde, Entry, Offset, Slot, Tab, Mirrors;
    TableThere(w, cr3, m, sp, v);
    NoEntryYet(w, cr3, m, sp, v);
    EntryPage(frame);
    MirrorsDir(w, cr3, m, sp);
    EntryWritten(w, cr3, m, A.Installed(m, sp, PageNo(v), PageNo(frame)), sp, v, Entry(frame));
  }

  lemma MirrorsDir(w: Memory, cr3: bv32, m: A.Mem, sp: nat)
    requires Mirrors(w, cr3, m, sp)
    ensures sp in m.spaces && SelfMapped(w, cr3) && DirFrame(m, sp, PageNo(cr3))
  {
    hide PageNo, SelfMapped, At, Split, DirFrame;
  }

  lemma NoEntryYet(w: Memory, cr3: bv32, m: A.Mem, sp: nat, v: bv32)
    requires Mirrors(w, cr3, m, sp) && Covers(sp, m.spaces[sp], v) && Present(Pde(w, cr3, v))
    ensures Present(Pte(w, cr3, v)) <==> PageNo(v) in m.spaces[sp].pt
  {
    hide PageNo, DirNo, Present, SelfMapped, Pde, Slot, Tab, Join, Split, Shape, TableAgrees;
    assert At(w, cr3, m, sp, v);
  }

  /** UnmapOne: page_table_pte_remove clears the present bit of the entry of a mapped page. */
  lemma UnmapRefines(w: Memory, cr3: bv32, m: A.Mem, sp: nat, v: bv32)
    requires Mirrors(w, cr3, m, sp) && Covers(sp, m.spaces[sp], v) && PageNo(v) in m.spaces[sp].pt
    requires A.Uses(m.spaces, m.own) && A.Pools(m, {})
    ensures Load(w, cr3, PtePtr(v)) == Some(Pte(w, cr3, v))
    ensures Store(w, cr3, PtePtr(v), Cleared(Pte(w, cr3, v))) == Some(Rewritten(w, cr3, v, Cleared(Pte(w, cr3, v))))
    ensures Mirrors(Rewritten(w, cr3, v, Cleared(Pte(w, cr3, v))), cr3, A.UnmapOne(m, sp, PageNo(v)), sp)
  {
    hide PageNo, DirNo, Present, SelfMapped, Pde, Cleared, Slot, Tab, Mirrors, Walk, PtePtr, A.Uses, A.Pools, With, Rewritten;
    MappedHasTable(w, cr3, m, sp, v);
    MirrorsDir(w, cr3, m, sp);
    PtePtrReaches(w, cr3, v);
    RewrittenIs(w, cr3, v, Cleared(Pte(w, cr3, v)));
    ClearedFields(Pte(w, cr3, v));
    A.FrameOf(m, sp, PageNo(v));
    EntryWritten(w, cr3, m, A.UnmapOne(m, sp, PageNo(v)), sp, v, Cleared(Pte(w, cr3, v)));
  }

  lemma RewrittenIs(w: Memory, cr3: bv32, v: bv32, e: bv32)
    ensures Rewritten(w, cr3, v, e) == With(w, Slot(Pde(w, cr3, v), Tab(v)), e)
  {
  }

  lemma MappedHasTable(w: Memory, cr3: bv32, m: A.Mem, sp: nat, v: bv32)
    requires Mirrors(w, cr3, m, sp) && Covers(sp, m.spaces[sp], v) && PageNo(v) in m.spaces[sp].pt
    ensures Present(Pde(w, cr3, v)) && PageNo(Pde(w, cr3, v)) != PageNo(cr3) && Own(sp, v)
  {
    hide PageNo, DirNo, Present, SelfMapped, Pde, Pte, Join, Split;
    assert At(w, cr3, m, sp, v);
  }

  // ---------------------------------------------------------------- a table is made

  /** A frame that no table and no directory occupies. */
  predicate Unused(m: A.Mem, f: nat) { f >= m.kStart && f !in m.own }

  lemma FreshHere(w: Memory, cr3: bv32, m: A.Mem, sp: nat, f: bv32, u: bv32)
    requires Mirrors(w, cr3, m, sp) && sp != A.KERNEL && A.Uses(m.spaces, m.own) && Unused(m, PageNo(f))
    ensures PageNo(f) != PageNo(cr3)
    ensures Present(Pde(w, cr3, u)) ==> PageNo(Pde(w, cr3, u)) != PageNo(f)
  {
    hide PageNo, DirNo, Present, Pde, Split, PageAgrees, Slot, Dir;
    assert At(w, cr3, m, sp, u);
    assert A.SpaceUses(m.own, sp, m.spaces[sp]);
    if DirNo(u) == 1023 {
      SelfPde(w, cr3, u);
    }
  }

  /** The last directory entry is the directory. */
  lemma SelfPde(w: Memory, cr3: bv32, u: bv32)
    requires SelfMapped(w, cr3) && DirNo(u) == 1023
    ensures PageNo(Pde(w, cr3, u)) == PageNo(cr3)
  {
    hide PageNo, DirNo, Frame, Present, Slot, Dir;
    LastDir(u);
    SamePage(Word(w, Slot(cr3, 0x3ff)), cr3);
  }

  lemma FreshEverywhere(w: Memory, cr3: bv32, m: A.Mem, sp: nat, f: bv32)
    requires Mirrors(w, cr3, m, sp) && sp != A.KERNEL && A.Uses(m.spaces, m.own) && Unused(m, PageNo(f)) && Offset(f) == 0
    ensures FreshTable(w, cr3, f)
  {
    hide PageNo, Present, Pde, Frame, Offset, Mirrors, A.Uses, Unused;
    FreshHere(w, cr3, m, sp, f, f);
    SamePage(f, cr3);
    forall u: bv32 | Present(Pde(w, cr3, u)) ensures Frame(Pde(w, cr3, u)) != Frame(f) {
      FreshHere(w, cr3, m, sp, f, u);
      SamePage(Pde(w, cr3, u), f);
    }
  }

  /** Only the directory entry of v has changed, to the new table, and the pages of it are absent. */
  lemma TableMade(w: Memory, cr3: bv32, m: A.Mem, sp: nat, v: bv32, f: bv32, u: bv32)
    requires Mirrors(w, cr3, m, sp) && sp != A.KERNEL && FreshTable(w, cr3, f)
    ensures DirNo(u) == DirNo(v) ==> Pde(NewTable(w, cr3, v, f), cr3, u) == Entry(f) && Walk(NewTable(w, cr3, v, f), cr3, u) == None
    ensures DirNo(u) != DirNo(v) ==> Pde(NewTable(w, cr3, v, f), cr3, u) == Pde(w, cr3, u)
    ensures DirNo(u) != DirNo(v) && Own(sp, u) ==> Walk(NewTable(w, cr3, v, f), cr3, u) == Walk(w, cr3, u)
  {
    hide PageNo, DirNo, Present, Pde, Frame, Dir, Tab, NewTable, FreshTable, Walk, Entry, TableAgrees, PageAgrees, Split;
    SameDir(u, v);
    NewTableWalk(w, cr3, v, f, u);
    assert At(w, cr3, m, sp, u);
    SamePage(Pde(w, cr3, u), cr3);
    if DirNo(u) != DirNo(v) && !Present(Pde(w, cr3, u)) {
      AbsentAbsent(w, cr3, u);
      AbsentAbsent(NewTable(w, cr3, v, f), cr3, u);
    }
  }

  lemma AbsentAbsent(w: Memory, cr3: bv32, u: bv32)
    requires !Present(Pde(w, cr3, u))
    ensures Walk(w, cr3, u) == None
  {
  }

  /** The space with one more table. */
  predicate MoreTables(m: A.Mem, r: A.Mem, sp: nat, d: nat, f: nat) {
    && sp in m.spaces && r.kStart == m.kStart && r.own == m.own[f := A.Table(sp, d)]
    && r.spaces == m.spaces[sp := m.spaces[sp].(tables := m.spaces[sp].tables[d := f])]
  }

  lemma TableAt(w: Memory, cr3: bv32, m: A.Mem, r: A.Mem, sp: nat, v: bv32, f: bv32, u: bv32)
    requires Mirrors(w, cr3, m, sp) && sp != A.KERNEL && Own(sp, v) && A.Uses(m.spaces, m.own) && Unused(m, PageNo(f))
    requires DirNo(v) !in m.spaces[sp].tables && MoreTables(m, r, sp, DirNo(v), PageNo(f)) && FreshTable(w, cr3, f)
    ensures At(NewTable(w, cr3, v, f), cr3, r, sp, u)
  {
    hide PageNo, DirNo, Present, Pde, Slot, Dir, NewTable, FreshTable, Walk, Entry, Split, SelfMapped, A.Uses, Frame, Offset;
    assert At(w, cr3, m, sp, u) && At(w, cr3, m, sp, v);
    FreshHere(w, cr3, m, sp, f, u);
    TableMade(w, cr3, m, sp, v, f, u);
    FreshFacts(w, cr3, f);
    EntryPage(f);
    if DirNo(u) == DirNo(v) {
      AbsentAbsent(w, cr3, u);
    }
  }

  lemma TableSplit(w: Memory, cr3: bv32, m: A.Mem, sp: nat, v: bv32, f: bv32, a: bv32, b: bv32)
    requires Mirrors(w, cr3, m, sp) && sp != A.KERNEL && A.Uses(m.spaces, m.own) && Unused(m, PageNo(f)) && FreshTable(w, cr3, f)
    ensures Split(NewTable(w, cr3, v, f), cr3, sp, a, b)
  {
    hide PageNo, DirNo, Present, Pde, NewTable, FreshTable, Walk, Entry, At, SelfMapped, A.Uses, Own, Unused, Frame, Offset;
    assert Split(w, cr3, sp, a, b);
    FreshHere(w, cr3, m, sp, f, a);
    FreshHere(w, cr3, m, sp, f, b);
    TableMade(w, cr3, m, sp, v, f, a);
    TableMade(w, cr3, m, sp, v, f, b);
    FreshFacts(w, cr3, f);
    EntryPage(f);
  }

  /** EnsureTable: the new directory entry and the cleared table. */
  lemma TableRefines(w: Memory, cr3: bv32, m: A.Mem, sp: nat, v: bv32, f: bv32)
    requires Mirrors(w, cr3, m, sp) && Own(sp, v) && A.Uses(m.spaces, m.own)
    requires !A.HasTable(m, sp, DirNo(v)) && A.Palloc(m, false) == Some(PageNo(f)) && PageNo(f) !in m.own && Offset(f) == 0
    ensures !Present(Pde(w, cr3, v)) && FreshTable(w, cr3, f)
    ensures Mirrors(NewTable(w, cr3, v, f), cr3, A.EnsureTable(m, sp, DirNo(v)).value, sp)
  {
    hide PageNo, DirNo, Present, Pde, NewTable, FreshTable, Walk, Entry, SelfMapped, A.Uses, Split, At, Offset;
    var r := A.EnsureTable(m, sp, DirNo(v)).value;
    NotThere(w, cr3, m, sp, v);
    FreshEverywhere(w, cr3, m, sp, f);
    NewTableSelfNo(w, cr3, v, f);
    forall u: bv32 ensures At(NewTable(w, cr3, v, f), cr3, r, sp, u) {
      TableAt(w, cr3, m, r, sp, v, f, u);
    }
    forall a: bv32, b: bv32 ensures Split(NewTable(w, cr3, v, f), cr3, sp, a, b) {
      TableSplit(w, cr3, m, sp, v, f, a, b);
    }
  }

  lemma NotThere(w: Memory, cr3: bv32, m: A.Mem, sp: nat, v: bv32)
    requires Mirrors(w, cr3, m, sp) && Own(sp, v) && sp != A.KERNEL && DirNo(v) !in m.spaces[sp].tables
    ensures !Present(Pde(w, cr3, v))
  {
    hide PageNo, DirNo, Present, Pde, SelfMapped, Split, Shape, PageAgrees;
    assert At(w, cr3, m, sp, v);
  }

  lemma NewTableSelfNo(w: Memory, cr3: bv32, v: bv32, f: bv32)
    requires SelfMapped(w, cr3) && !Present(Pde(w, cr3, v)) && FreshTable(w, cr3, f)
    ensures SelfMapped(NewTable(w, cr3, v, f), cr3)
  {
    hide SelfMapped, Present, Pde, NewTable, Frame, Offset;
    NewTableSelf(w, cr3, v, f);
  }

  // ---------------------------------------------------------------- page_table_add

  lemma TakenMirrors(w: Memory, cr3: bv32, m: A.Mem, sp: nat, user: bool, f: nat)
    requires Mirrors(w, cr3, m, sp)
    ensures Mirrors(w, cr3, A.Taken(m, user, f), sp)
  {
    hide PageNo, DirNo, SelfMapped, Split, TableAgrees, PageAgrees, Pde, Present;
    var r := A.Taken(m, user, f);
    forall u: bv32 ensures At(w, cr3, r, sp, u) {
      assert At(w, cr3, m, sp, u);
    }
  }

  lemma RewrittenTable(w: Memory, cr3: bv32, v: bv32, f: bv32, frame: bv32)
    requires FreshTable(w, cr3, f)
    ensures Rewritten(NewTable(w, cr3, v, f), cr3, v, Entry(frame)) == NewPage(w, cr3, v, f, frame)
  {
    hide Entry, Slot, Tab, Pde, NewTable, With, Frame, Offset, FreshTable;
    FreshFacts(w, cr3, f);
    EntryWiped(w, cr3, v, f);
  }

  /** The frames that malloc_page and page_table_add take for the page of v. */
  predicate Grants(m: A.Mem, sp: nat, v: bv32, f: bv32, frame: bv32)
    requires sp in m.spaces
  {
    && A.Palloc(m, sp != A.KERNEL) == Some(PageNo(frame)) && Offset(frame) == 0
    && (!A.HasTable(m, sp, DirNo(v)) ==>
          A.Palloc(A.Taken(m, sp != A.KERNEL, PageNo(frame)), false) == Some(PageNo(f)) && Offset(f) == 0)
  }

  /**
   * MapOne: page_table_add on the words does what the model of the spaces says, in both of its branches; the calls
   * of PageTableAdd are allowed and do not fail.
   */
  lemma MapRefines(w: Memory, cr3: bv32, m: A.Mem, sp: nat, v: bv32, f: bv32, frame: bv32)
    requires Mirrors(w, cr3, m, sp) && Covers(sp, m.spaces[sp], v) && A.Uses(m.spaces, m.own) && A.Pools(m, {})
    requires PageNo(v) !in m.spaces[sp].pt && Grants(m, sp, v, f, frame)
    ensures !Present(Pde(w, cr3, v)) ==> FreshTable(w, cr3, f)
    ensures !(Present(Pde(w, cr3, v)) && Present(Pte(w, cr3, v)))
    ensures A.MapOne(m, sp, PageNo(v)).Some?
    ensures Mirrors(Added(w, cr3, v, f, frame), cr3, A.MapOne(m, sp, PageNo(v)).value, sp)
  {
    hide PageNo, DirNo, Present, Pde, NewTable, FreshTable, Entry, Mirrors, A.Uses, A.Pools, Offset, Slot, Tab, With, A.Palloc;
    DirOfPage(v);
    MirrorsDir(w, cr3, m, sp);
    var user := sp != A.KERNEL;
    var m0 := A.Taken(m, user, PageNo(frame));
    A.TakenKeeps(m, user, {});
    TakenMirrors(w, cr3, m, sp, user, PageNo(frame));
    if A.HasTable(m, sp, DirNo(v)) {
      InstallRefines(w, cr3, m0, sp, v, frame);
    } else {
      A.TakenKeeps(m0, false, {} + {PageNo(frame)});
      TableRefines(w, cr3, m0, sp, v, f);
      var m1 := A.EnsureTable(m0, sp, DirNo(v)).value;
      InstallRefines(NewTable(w, cr3, v, f), cr3, m1, sp, v, frame);
      RewrittenTable(w, cr3, v, f, frame);
    }
  }

  // ---------------------------------------------------------------- all the spaces together

  /** Every space has its own directory, and the words agree with all of them. */
  ghost predicate World(w: Memory, dirs: map<nat, bv32>, m: A.Mem) {
    && dirs.Keys == m.spaces.Keys
    && (forall id :: id in dirs ==> Mirrors(w, dirs[id], m, id))
    && (forall a, b :: a in dirs && b in dirs && a != b ==> PageNo(dirs[a]) != PageNo(dirs[b]))
  }

  /** A frame that only the space sp walks through: its directory, its tables, or one not in use before. */
  predicate Mine(m: A.Mem, sp: nat, cr3: bv32, g: nat) {
    || g == PageNo(cr3)
    || (if sp == A.KERNEL then g < m.kStart else Unused(m, g) || (g in m.own && m.own[g].Table? && m.own[g].sp == sp))
  }

  /** Words change only in frames of sp. */
  ghost predicate Inside(w: Memory, w': Memory, m: A.Mem, sp: nat, cr3: bv32) {
    forall x: bv32 :: Word(w', x) == Word(w, x) || Mine(m, sp, cr3, PageNo(x))
  }

  lemma OwnAbove(m: A.Mem, f: nat)
    requires A.Pools(m, {}) && f in m.own
    ensures f >= m.kStart
  {
    A.InRange(f, m.kStart, m.kN);
    A.InRange(f, m.uStart, m.uN);
    hide A.Range;
  }

  /** The frame of a table: the loader's, or one that the space has for it. */
  predicate TableFrame(m: A.Mem, id: nat, f: nat) {
    if id == A.KERNEL then f < m.kStart else f in m.own && m.own[f].Table? && m.own[f].sp == id
  }

  lemma TableIs(w: Memory, cr3: bv32, m: A.Mem, id: nat, u: bv32)
    requires Mirrors(w, cr3, m, id) && A.Uses(m.spaces, m.own) && Own(id, u) && Present(Pde(w, cr3, u))
    ensures TableFrame(m, id, PageNo(Pde(w, cr3, u))) && PageNo(Pde(w, cr3, u)) != PageNo(cr3)
  {
    hide PageNo, DirNo, Present, Pde, SelfMapped, Split, PageAgrees;
    assert At(w, cr3, m, id, u);
    assert A.SpaceUses(m.own, id, m.spaces[id]);
  }

  /** The directory of another space is not a frame of sp, and neither are its tables. */
  lemma NotMine(w: Memory, dirs: map<nat, bv32>, m: A.Mem, sp: nat, id: nat, u: bv32)
    requires World(w, dirs, m) && sp in dirs && id in dirs && id != sp && A.Uses(m.spaces, m.own) && A.Pools(m, {})
    ensures !Mine(m, sp, dirs[sp], PageNo(dirs[id]))
    ensures Own(id, u) && Present(Pde(w, dirs[id], u)) ==> !Mine(m, sp, dirs[sp], PageNo(Pde(w, dirs[id], u)))
  {
    hide PageNo, Own, Present, Pde, Mirrors, A.Uses, A.Pools;
    MirrorsDir(w, dirs[id], m, id);
    MirrorsDir(w, dirs[sp], m, sp);
    TablesAboveStart(m);
    if Own(id, u) && Present(Pde(w, dirs[id], u)) {
      TableIs(w, dirs[id], m, id, u);
    }
  }

  lemma TablesAboveStart(m: A.Mem)
    requires A.Pools(m, {})
    ensures forall f :: f in m.own ==> f >= m.kStart
  {
    hide A.Pools;
    forall f | f in m.own ensures f >= m.kStart {
      OwnAbove(m, f);
    }
  }

  /** The walks of another space are as they were. */
  lemma OtherWalks(w: Memory, w': Memory, dirs: map<nat, bv32>, m: A.Mem, sp: nat, id: nat, u: bv32)
    requires World(w, dirs, m) && sp in dirs && id in dirs && id != sp && A.Uses(m.spaces, m.own) && A.Pools(m, {})
    requires Inside(w, w', m, sp, dirs[sp])
    ensures Pde(w', dirs[id], u) == Pde(w, dirs[id], u)
    ensures Own(id, u) ==> Walk(w', dirs[id], u) == Walk(w, dirs[id], u)
  {
    hide PageNo, DirNo, Present, Slot, Dir, Tab, Join, Own, World, A.Uses, A.Pools, Mine;
    NotMine(w, dirs, m, sp, id, u);
    SlotPage(dirs[id], u, Dir(u));
    SlotPage(Pde(w, dirs[id], u), u, Tab(u));
  }

  lemma SlotPage(b: bv32, u: bv32, i: bv32)
    requires i == Dir(u) || i == Tab(u)
    ensures PageNo(Slot(b, i)) == PageNo(b)
  {
    hide PageNo, Slot, Frame, Offset, Dir, Tab;
    Indices(u);
    SlotFields(b, i);
    SamePage(Slot(b, i), b);
  }

  lemma LastSlotStays(w: Memory, w': Memory, dirs: map<nat, bv32>, m: A.Mem, sp: nat, id: nat)
    requires World(w, dirs, m) && sp in dirs && id in dirs && id != sp && A.Uses(m.spaces, m.own) && A.Pools(m, {})
    requires Inside(w, w', m, sp, dirs[sp])
    ensures SelfMapped(w', dirs[id])
  {
    hide PageNo, Present, Slot, Dir, Frame, A.Uses, A.Pools, Mine, At, Split, DirFrame;
    HighBits();
    assert Mirrors(w, dirs[id], m, id);
    OtherWalks(w, w', dirs, m, sp, id, 0xffc00000);
  }

  /** A step of one space leaves every other space as it was. */
  lemma OtherSpacesStay(w: Memory, w': Memory, dirs: map<nat, bv32>, m: A.Mem, r: A.Mem, sp: nat, id: nat)
    requires World(w, dirs, m) && sp in dirs && id in dirs && id != sp && A.Uses(m.spaces, m.own) && A.Pools(m, {})
    requires Inside(w, w', m, sp, dirs[sp])
    requires id in r.spaces && r.spaces[id] == m.spaces[id] && r.kStart == m.kStart && DirFrame(r, id, PageNo(dirs[id]))
    ensures Mirrors(w', dirs[id], r, id)
  {
    hide PageNo, DirNo, Present, Pde, Walk, SelfMapped, Own, A.Uses, A.Pools, Inside, DirFrame;
    assert Mirrors(w, dirs[id], m, id);
    LastSlotStays(w, w', dirs, m, sp, id);
    forall u: bv32 ensures At(w', dirs[id], r, id, u) {
      assert At(w, dirs[id], m, id, u);
      OtherWalks(w, w', dirs, m, sp, id, u);
    }
    forall a: bv32, b: bv32 ensures Split(w', dirs[id], id, a, b) {
      assert Split(w, dirs[id], id, a, b);
      OtherWalks(w, w', dirs, m, sp, id, a);
      OtherWalks(w, w', dirs, m, sp, id, b);
    }
  }

  lemma EntryInside(w: Memory, cr3: bv32, m: A.Mem, sp: nat, v: bv32, e: bv32)
    requires Mirrors(w, cr3, m, sp) && A.Uses(m.spaces, m.own) && Own(sp, v) && Present(Pde(w, cr3, v))
    ensures Inside(w, Rewritten(w, cr3, v, e), m, sp, cr3)
  {
    hide PageNo, Present, Slot, Tab, Pde, Own, Mirrors, A.Uses, Unused;
    TableIs(w, cr3, m, sp, v);
    SlotPage(Pde(w, cr3, v), v, Tab(v));
  }

  lemma NewPageElse(w: Memory, cr3: bv32, v: bv32, f: bv32, frame: bv32, x: bv32)
    requires PageNo(x) != PageNo(f) && PageNo(x) != PageNo(cr3)
    ensures Word(NewPage(w, cr3, v, f, frame), x) == Word(w, x)
  {
    hide PageNo, Slot, Tab, NewTable, Frame, Entry;
    SamePage(x, f);
    SamePage(x, cr3);
    NewTableElse(w, cr3, v, f, x);
    SlotPage(f, v, Tab(v));
  }

  lemma NewPageInside(w: Memory, cr3: bv32, m: A.Mem, sp: nat, v: bv32, f: bv32, frame: bv32)
    requires sp != A.KERNEL && Unused(m, PageNo(f))
    ensures Inside(w, NewPage(w, cr3, v, f, frame), m, sp, cr3)
  {
    hide PageNo, NewPage, Unused;
    forall x: bv32 ensures Word(NewPage(w, cr3, v, f, frame), x) == Word(w, x) || Mine(m, sp, cr3, PageNo(x)) {
      if PageNo(x) != PageNo(f) && PageNo(x) != PageNo(cr3) { NewPageElse(w, cr3, v, f, frame, x); }
    }
  }

  /** Only sp has changed, and no use has been lost. */
  predicate Grew(m: A.Mem, r: A.Mem, sp: nat) {
    && r.kStart == m.kStart && r.spaces.Keys == m.spaces.Keys
    && (forall id :: id in m.spaces && id != sp ==> r.spaces[id] == m.spaces[id])
    && (forall f :: f in m.own ==> f in r.own && r.own[f] == m.own[f])
  }

  lemma MapGrows(m: A.Mem, sp: nat, page: nat)
    requires sp in m.spaces && A.Pools(m, {}) && A.MapOne(m, sp, page).Some?
    ensures Grew(m, A.MapOne(m, sp, page).value, sp)
  {
    hide A.Palloc, A.Pools;
    var user := sp != A.KERNEL;
    A.TakenKeeps(m, user, {});
    var f := A.Palloc(m, user).value;
    var m0 := A.Taken(m, user, f);
    if !A.HasTable(m0, sp, page / 1024) {
      A.TakenKeeps(m0, false, {} + {f});
    }
  }

  lemma AddedInside(w: Memory, cr3: bv32, m: A.Mem, sp: nat, v: bv32, f: bv32, frame: bv32)
    requires Mirrors(w, cr3, m, sp) && Covers(sp, m.spaces[sp], v) && A.Uses(m.spaces, m.own) && A.Pools(m, {})
    requires Grants(m, sp, v, f, frame)
    ensures Inside(w, Added(w, cr3, v, f, frame), m, sp, cr3)
  {
    hide PageNo, DirNo, Present, Pde, Mirrors, A.Uses, A.Pools, Offset, A.Palloc, Entry, Slot, Tab, NewPage, Own, Inside, With;
    if Present(Pde(w, cr3, v)) {
      EntryInside(w, cr3, m, sp, v, Entry(frame));
    } else {
      var user, m0 := sp != A.KERNEL, A.Taken(m, sp != A.KERNEL, PageNo(frame));
      AbsentMeansNone(w, cr3, m, sp, v);
      A.TakenKeeps(m, user, {});
      A.TakenKeeps(m0, false, {} + {PageNo(frame)});
      KernelFrame(m0);
      NewPageInside(w, cr3, m, sp, v, f, frame);
    }
  }

  lemma KernelFrame(m: A.Mem)
    requires A.Palloc(m, false).Some?
    ensures A.Palloc(m, false).value >= m.kStart
  {
  }

  lemma AbsentMeansNone(w: Memory, cr3: bv32, m: A.Mem, sp: nat, v: bv32)
    requires Mirrors(w, cr3, m, sp) && Own(sp, v) && !Present(Pde(w, cr3, v))
    ensures sp != A.KERNEL && !A.HasTable(m, sp, DirNo(v))
  {
    hide PageNo, DirNo, Present, Pde, SelfMapped, Split, Shape, PageAgrees;
    assert At(w, cr3, m, sp, v);
  }

  lemma WorldAt(w: Memory, dirs: map<nat, bv32>, m: A.Mem, id: nat)
    requires World(w, dirs, m) && id in dirs
    ensures id in m.spaces && Mirrors(w, dirs[id], m, id)
  {
    hide Mirrors, PageNo;
  }

  /**
   * Mapping a page in one space: afterwards the words of every space say what the model says, so the page walks to
   * its frame and no other space has noticed.
   */
  lemma WorldMaps(w: Memory, dirs: map<nat, bv32>, m: A.Mem, sp: nat, v: bv32, f: bv32, frame: bv32)
    requires World(w, dirs, m) && sp in dirs && sp in m.spaces && A.Uses(m.spaces, m.own) && A.Pools(m, {})
    requires Covers(sp, m.spaces[sp], v) && PageNo(v) !in m.spaces[sp].pt && Grants(m, sp, v, f, frame)
    ensures A.MapOne(m, sp, PageNo(v)).Some?
    ensures World(Added(w, dirs[sp], v, f, frame), dirs, A.MapOne(m, sp, PageNo(v)).value)
  {
    hide PageNo, Mirrors, A.Uses, A.Pools, Covers, Grants, Added, A.MapOne, Inside, DirFrame;
    WorldAt(w, dirs, m, sp);
    MapRefines(w, dirs[sp], m, sp, v, f, frame);
    AddedInside(w, dirs[sp], m, sp, v, f, frame);
    MapGrows(m, sp, PageNo(v));
    var r := A.MapOne(m, sp, PageNo(v)).value;
    var w' := Added(w, dirs[sp], v, f, frame);
    forall id | id in dirs ensures Mirrors(w', dirs[id], r, id) {
      if id != sp {
        GrewDir(w, dirs, m, r, sp, id);
        OtherSpacesStay(w, w', dirs, m, r, sp, id);
      }
    }
  }

  lemma GrewDir(w: Memory, dirs: map<nat, bv32>, m: A.Mem, r: A.Mem, sp: nat, id: nat)
    requires World(w, dirs, m) && id in dirs && Grew(m, r, sp)
    ensures DirFrame(r, id, PageNo(dirs[id]))
  {
    hide PageNo, Mirrors;
    MirrorsDir(w, dirs[id], m, id);
  }

  /** Unmapping a page that is no directory: the page faults in its space, and no other space has noticed. */
  lemma WorldUnmaps(w: Memory, dirs: map<nat, bv32>, m: A.Mem, sp: nat, v: bv32)
    requires World(w, dirs, m) && sp in dirs && sp in m.spaces && A.Uses(m.spaces, m.own) && A.Pools(m, {})
    requires Covers(sp, m.spaces[sp], v) && PageNo(v) in m.spaces[sp].pt
    requires forall id :: id in dirs ==> PageNo(dirs[id]) != m.spaces[sp].pt[PageNo(v)]
    ensures World(Rewritten(w, dirs[sp], v, Cleared(Pte(w, dirs[sp], v))), dirs, A.UnmapOne(m, sp, PageNo(v)))
  {
    hide PageNo, Mirrors, A.Uses, A.Pools, Covers, Rewritten, Inside, Cleared, Pte, Pde;
    WorldAt(w, dirs, m, sp);
    UnmapRefines(w, dirs[sp], m, sp, v);
    MappedHasTable(w, dirs[sp], m, sp, v);
    EntryInside(w, dirs[sp], m, sp, v, Cleared(Pte(w, dirs[sp], v)));
    var r := A.UnmapOne(m, sp, PageNo(v));
    var w' := Rewritten(w, dirs[sp], v, Cleared(Pte(w, dirs[sp], v)));
    forall id | id in dirs ensures Mirrors(w', dirs[id], r, id) {
      if id != sp {
        WorldAt(w, dirs, m, id);
        MirrorsDir(w, dirs[id], m, id);
        OtherSpacesStay(w, w', dirs, m, r, sp, id);
      }
    }
  }

  // ---------------------------------------------------------------- the directory of a new process

  /** What create_page_dir leaves in the frame of c: nothing below, the kernel's entries above, itself in the last. */
  ghost predicate NewDirectory(w: Memory, kernel: bv32, c: bv32) {
    SelfMapped(w, c) &&
    forall v: bv32 :: Copied(w, kernel, c, v)
  }

  predicate Copied(w: Memory, kernel: bv32, c: bv32, v: bv32) {
    && (DirNo(v) < A.KERNEL_DIRS ==> !Present(Pde(w, c, v)))
    && (A.KERNEL_DIRS <= DirNo(v) < 1023 ==> Pde(w, c, v) == Pde(w, kernel, v))
  }

  lemma NewAt(w: Memory, kernel: bv32, c: bv32, m: A.Mem, r: A.Mem, sp: nat, v: bv32)
    requires Mirrors(w, kernel, m, A.KERNEL) && sp != A.KERNEL && DirNo(v) < 1024
    requires r.kStart == m.kStart && sp in r.spaces && r.spaces[sp] == A.USER_SPACE && PageNo(c) >= m.kStart && Copied(w, kernel, c, v)
    ensures At(w, c, r, sp, v)
  {
    hide PageNo, DirNo, Present, Pde, SelfMapped, Split, TableAgrees, PageAgrees;
    assert At(w, kernel, m, A.KERNEL, v);
    NewBelow(w, kernel, c, sp, v);
  }

  lemma NewBelow(w: Memory, kernel: bv32, c: bv32, sp: nat, v: bv32)
    requires sp != A.KERNEL && Copied(w, kernel, c, v)
    ensures TableAgrees(w, c, sp, A.USER_SPACE, v) && PageAgrees(w, c, sp, A.USER_SPACE, v)
  {
    hide PageNo, DirNo, Present, Pde;
  }

  /** A new process starts with an empty space and the kernel's pages, in a directory of its own. */
  lemma WorldStarts(w: Memory, dirs: map<nat, bv32>, m: A.Mem, sp: nat, c: bv32)
    requires World(w, dirs, m) && A.KERNEL in dirs && A.Pools(m, {}) && sp !in dirs && sp != A.KERNEL
    requires DirFrame(m, sp, PageNo(c)) && NewDirectory(w, dirs[A.KERNEL], c)
    requires forall id :: id in dirs ==> PageNo(dirs[id]) != PageNo(c)
    ensures World(w, dirs[sp := c], A.SetSpace(m, sp, A.USER_SPACE))
  {
    hide PageNo, DirNo, Mirrors, A.Pools, Copied, At, Split;
    var r := A.SetSpace(m, sp, A.USER_SPACE);
    TablesAboveStart(m);
    WorldAt(w, dirs, m, A.KERNEL);
    StartsMirror(w, dirs[A.KERNEL], c, m, r, sp);
    forall id | id in dirs ensures Mirrors(w, dirs[id], r, id) {
      WorldAt(w, dirs, m, id);
      SameSpace(w, dirs[id], m, r, id);
    }
  }

  lemma SameSpace(w: Memory, c: bv32, m: A.Mem, r: A.Mem, id: nat)
    requires Mirrors(w, c, m, id) && id in r.spaces && r.spaces[id] == m.spaces[id] && r.kStart == m.kStart && r.own == m.own
    ensures Mirrors(w, c, r, id)
  {
    hide PageNo, DirNo, SelfMapped, Split, TableAgrees, PageAgrees, Pde, Present;
    forall u: bv32 ensures At(w, c, r, id, u) {
      assert At(w, c, m, id, u);
    }
  }

  lemma StartsMirror(w: Memory, kernel: bv32, c: bv32, m: A.Mem, r: A.Mem, sp: nat)
    requires Mirrors(w, kernel, m, A.KERNEL) && sp != A.KERNEL && PageNo(c) >= m.kStart && NewDirectory(w, kernel, c)
    requires r.kStart == m.kStart && sp in r.spaces && r.spaces[sp] == A.USER_SPACE && DirFrame(r, sp, PageNo(c))
    ensures Mirrors(w, c, r, sp)
  {
    hide PageNo, DirNo, SelfMapped, Pde, Present, At, Copied, DirFrame;
    forall v: bv32 ensures At(w, c, r, sp, v) {
      DirBound(v);
      assert Copied(w, kernel, c, v);
      NewAt(w, kernel, c, m, r, sp, v);
    }
    forall a: bv32, b: bv32 ensures Split(w, c, sp, a, b) {
      assert Copied(w, kernel, c, a);
      NothingBelow(w, kernel, c, sp, a);
    }
  }

  lemma NothingBelow(w: Memory, kernel: bv32, c: bv32, sp: nat, v: bv32)
    requires sp != A.KERNEL && Copied(w, kernel, c, v)
    ensures Own(sp, v) ==> !Present(Pde(w, c, v))
  {
    hide DirNo, Present, Pde;
  }

  lemma DirBound(v: bv32)
    ensures DirNo(v) < 1024
  {
    ValBound(v >> 22, 10);
  }

  function Pow2(k: nat): nat { if k == 0 then 1 else 2 * Pow2(k - 1) }

  lemma {:induction false} ValBound(x: bv32, k: nat)
    ensures Val(x, k) < Pow2(k)
    decreases k
  {
    hide Low, Half;
    if k > 0 { ValBound(Half(x), k - 1); }
  }
}
