/** The words of the page tables from the loader on, over every run of allocations, frees, new processes and stores. */
module PageRuns {
  import opened Basics
  import opened Paging
  import opened PageWords
  import A = AddressSpace

  // ---------------------------------------------------------------- the address of a page

  function Put(x: bv32, b: bool): bv32 { (x << 1) | (if b then 1 else 0) }

  /** The word whose low k bits are those of n. */
  function Bits(n: nat, k: nat): bv32 {
    if k == 0 then 0 else Put(Bits(n / 2, k - 1), n % 2 == 1)
  }

  function Ones(k: nat): bv32 {
    if k == 0 then 0 else Put(Ones(k - 1), true)
  }

  lemma PutFits(x: bv32, b: bool, c: bv32)
    requires x <= c && c <= 0x7fffffff
    ensures Put(x, b) <= Put(c, true) && Half(Put(x, b)) == x && (Low(Put(x, b)) <==> b)
  {
  }

  lemma OnesAre()
    ensures Put(0, true) == 1 && Put(1, true) == 3 && Put(3, true) == 7 && Put(7, true) == 15 && Put(15, true) == 31
    ensures Put(31, true) == 63 && Put(63, true) == 127 && Put(127, true) == 255 && Put(255, true) == 511
    ensures Put(511, true) == 1023 && Put(1023, true) == 2047 && Put(2047, true) == 4095 && Put(4095, true) == 8191
    ensures Put(8191, true) == 16383 && Put(16383, true) == 32767 && Put(32767, true) == 65535
    ensures Put(65535, true) == 131071 && Put(131071, true) == 262143 && Put(262143, true) == 524287
    ensures Put(524287, true) == 0xfffff
  {
  }

  lemma OnesSmall(k: nat)
    requires k <= 20
    ensures Ones(k) <= 0xfffff
  {
    OnesAre();
    hide Put;
    assert Ones(1) == 1 && Ones(2) == 3 && Ones(3) == 7 && Ones(4) == 15 && Ones(5) == 31 && Ones(6) == 63;
    assert Ones(7) == 127 && Ones(8) == 255 && Ones(9) == 511 && Ones(10) == 1023 && Ones(11) == 2047;
    assert Ones(12) == 4095 && Ones(13) == 8191 && Ones(14) == 16383 && Ones(15) == 32767 && Ones(16) == 65535;
    assert Ones(17) == 131071 && Ones(18) == 262143 && Ones(19) == 524287 && Ones(20) == 0xfffff;
  }

  lemma SmallEnough(x: bv32)
    requires x <= 0xfffff
    ensures x <= 0x7fffffff
  {
  }

  lemma {:induction false} BitsAre(n: nat, k: nat)
    requires k <= 20 && n < Pow2(k)
    ensures Bits(n, k) <= Ones(k) && Val(Bits(n, k), k) == n
    decreases k
  {
    hide Put, Low, Half;
    if k > 0 {
      BitsAre(n / 2, k - 1);
      OnesSmall(k - 1);
      SmallEnough(Ones(k - 1));
      PutFits(Bits(n / 2, k - 1), n % 2 == 1, Ones(k - 1));
    }
  }

  lemma {:induction false} BitsShort(n: nat, k: nat)
    requires k <= 20 && n < Pow2(k)
    ensures Short(Bits(n, k), k)
    decreases k
  {
    hide Put, Low, Half, Val;
    if k > 0 {
      BitsShort(n / 2, k - 1);
      HalfOfBits(n, k);
    }
  }

  lemma HalfOfBits(n: nat, k: nat)
    requires 0 < k <= 20 && n < Pow2(k)
    ensures Half(Bits(n, k)) == Bits(n / 2, k - 1)
  {
    hide Put, Low, Half, Val, Ones;
    BitsAre(n / 2, k - 1);
    OnesSmall(k - 1);
    SmallEnough(Ones(k - 1));
    PutFits(Bits(n / 2, k - 1), n % 2 == 1, Ones(k - 1));
  }

  /** The start of page p. */
  function Addr(p: nat): bv32 { Base(Bits(p, 20)) }

  lemma BaseBack(x: bv32)
    requires x <= 0xfffff
    ensures Page(Base(x)) == x && Offset(Base(x)) == 0
  {
  }

  lemma Pow20()
    ensures Pow2(20) == 0x100000
  {
    assert Pow2(5) == 32 && Pow2(10) == 1024 && Pow2(15) == 32768;
  }

  lemma BelowBelow(x: bv32, c: bv32)
    requires x <= c && c <= 0xfffff
    ensures x <= 0xfffff
  {
  }

  lemma NumberOfPage(v: bv32)
    ensures PageNo(v) == Val(Page(v), 20)
  {
    hide Val;
  }

  lemma BitsSmall(p: nat)
    requires p < 0x100000
    ensures Bits(p, 20) <= 0xfffff && Val(Bits(p, 20), 20) == p
  {
    hide Val, Bits, Ones, Pow2;
    Pow20();
    BitsAre(p, 20);
    OnesSmall(20);
    BelowBelow(Bits(p, 20), Ones(20));
  }

  lemma AddrPage(p: nat)
    requires p < 0x100000
    ensures PageNo(Addr(p)) == p && Offset(Addr(p)) == 0
  {
    hide Val, Bits, Offset, PageNo, Base, Page;
    BitsSmall(p);
    BaseBack(Bits(p, 20));
    NumberOfPage(Addr(p));
  }

  lemma AddrIs(p: nat)
    requires p < 0x100000
    ensures PageNo(Addr(p)) == p && Offset(Addr(p)) == 0 && DirNo(Addr(p)) == p / 1024
  {
    hide Offset, DirNo, PageNo, Addr;
    AddrPage(p);
    DirOfPage(Addr(p));
  }

  // ---------------------------------------------------------------- where the pages and frames are

  predicate SpacePlaced(id: nat, s: A.Space) {
    if id == A.KERNEL then s.start == 0xc0100 && s.n <= 0x8000 else s.start == 0x8048 && s.n == 753592
  }

  predicate Placed(m: A.Mem) {
    m.uStart + m.uN <= 0x100000 && forall id :: id in m.spaces ==> SpacePlaced(id, m.spaces[id])
  }

  /** The pages of a virtual pool are in the part of the directory that the space has to itself. */
  lemma PoolIsCovered(id: nat, s: A.Space, page: nat)
    requires SpacePlaced(id, s) && s.start <= page < s.start + s.n
    ensures page < 0x100000 && PageNo(Addr(page)) == page && Covers(id, s, Addr(page))
  {
    hide Addr, PageNo, DirNo;
    AddrIs(page);
  }

  lemma FramedPlaced(m: A.Mem, r: A.Mem, sp: nat)
    requires Placed(m) && A.Framed(m, r, sp)
    ensures Placed(r)
  {
  }

  lemma FrameBound(m: A.Mem, user: bool)
    requires m.kStart + m.kN <= m.uStart && m.uStart + m.uN <= 0x100000 && A.Palloc(m, user).Some?
    ensures A.Palloc(m, user).value < 0x100000
  {
  }

  // ---------------------------------------------------------------- one page

  function FrameFor(m: A.Mem, user: bool): nat {
    var f := A.Palloc(m, user);
    if f.Some? then f.value else 0
  }

  /** The words after a page is mapped: the frame, and the table if it has to be made, come from palloc. */
  function MapWords(w: Memory, cr3: bv32, m: A.Mem, sp: nat, page: nat): Memory {
    var frame := FrameFor(m, sp != A.KERNEL);
    Added(w, cr3, Addr(page), Addr(FrameFor(A.Taken(m, sp != A.KERNEL, frame), false)), Addr(frame))
  }

  lemma MapGrants(m: A.Mem, sp: nat, page: nat)
    requires sp in m.spaces && Placed(m) && m.kStart + m.kN <= m.uStart && page < 0x100000 && A.MapOne(m, sp, page).Some?
    ensures var frame := FrameFor(m, sp != A.KERNEL);
            Grants(m, sp, Addr(page), Addr(FrameFor(A.Taken(m, sp != A.KERNEL, frame), false)), Addr(frame))
  {
    hide Addr, PageNo, DirNo, Offset, A.Palloc;
    AddrIs(page);
    var user := sp != A.KERNEL;
    FrameBound(m, user);
    var frame := FrameFor(m, user);
    AddrIs(frame);
    var m0 := A.Taken(m, user, frame);
    if !A.HasTable(m, sp, page / 1024) {
      FrameBound(m0, false);
      AddrIs(FrameFor(m0, false));
    }
  }

  lemma MapOneWorld(w: Memory, dirs: map<nat, bv32>, m: A.Mem, sp: nat, page: nat)
    requires sp in m.spaces && sp in dirs && A.MapOne(m, sp, page).Some?
    requires m.spaces[sp].start <= page < m.spaces[sp].start + m.spaces[sp].n && page !in m.spaces[sp].pt
    requires World(w, dirs, m) && Placed(m) && A.Uses(m.spaces, m.own) && A.Pools(m, {})
    ensures World(MapWords(w, dirs[sp], m, sp, page), dirs, A.MapOne(m, sp, page).value)
  {
    hide Addr, PageNo, World, A.Uses, A.Pools, A.MapOne, Covers, Grants, Added, FrameFor, A.Taken;
    PoolIsCovered(sp, m.spaces[sp], page);
    PoolsOrder(m);
    MapGrants(m, sp, page);
    var frame := FrameFor(m, sp != A.KERNEL);
    WorldMaps(w, dirs, m, sp, Addr(page), Addr(FrameFor(A.Taken(m, sp != A.KERNEL, frame), false)), Addr(frame));
  }

  lemma PoolsOrder(m: A.Mem)
    requires A.Pools(m, {})
    ensures m.kStart + m.kN <= m.uStart
  {
  }

  /** The words after a page is unmapped. */
  function UnmapWords(w: Memory, cr3: bv32, page: nat): Memory {
    Rewritten(w, cr3, Addr(page), Cleared(Pte(w, cr3, Addr(page))))
  }

  ghost predicate NoDirectory(dirs: map<nat, bv32>, s: A.Space, page: nat, cnt: nat) {
    forall p, id :: page <= p < page + cnt && p in s.pt && id in dirs ==> PageNo(dirs[id]) != s.pt[p]
  }

  lemma UnmapOneWorld(w: Memory, dirs: map<nat, bv32>, m: A.Mem, sp: nat, page: nat)
    requires sp in m.spaces && sp in dirs && page in m.spaces[sp].pt
    requires m.spaces[sp].start <= page < m.spaces[sp].start + m.spaces[sp].n
    requires forall id :: id in dirs ==> PageNo(dirs[id]) != m.spaces[sp].pt[page]
    requires World(w, dirs, m) && Placed(m) && A.Uses(m.spaces, m.own) && A.Pools(m, {})
    ensures World(UnmapWords(w, dirs[sp], page), dirs, A.UnmapOne(m, sp, page))
  {
    hide Addr, PageNo, World, A.Uses, A.Pools, A.UnmapOne, Covers, Rewritten, Cleared, Pte;
    PoolIsCovered(sp, m.spaces[sp], page);
    WorldUnmaps(w, dirs, m, sp, Addr(page));
  }

  // ---------------------------------------------------------------- runs of pages

  function MapPagesWords(w: Memory, cr3: bv32, m: A.Mem, sp: nat, page: nat, cnt: nat): Memory
    requires sp in m.spaces
    decreases cnt
  {
    if cnt == 0 || A.MapOne(m, sp, page).None? then w
    else MapPagesWords(MapWords(w, cr3, m, sp, page), cr3, A.MapOne(m, sp, page).value, sp, page + 1, cnt - 1)
  }

  lemma InvParts(m: A.Mem, sp: nat, pend: set<nat>)
    requires A.InvWith(m, sp, pend, {})
    ensures A.Uses(m.spaces, m.own) && A.Pools(m, {})
  {
  }

  lemma {:induction false} MapPagesWorld(w: Memory, dirs: map<nat, bv32>, m: A.Mem, sp: nat, page: nat, cnt: nat, pend: set<nat>)
    requires sp in m.spaces && sp in dirs && A.Range(page, cnt) <= pend && A.MapPages(m, sp, page, cnt).Some?
    requires m.spaces[sp].start <= page && page + cnt <= m.spaces[sp].start + m.spaces[sp].n
    requires World(w, dirs, m) && Placed(m) && A.InvWith(m, sp, pend, {})
    ensures World(MapPagesWords(w, dirs[sp], m, sp, page, cnt), dirs, A.MapPages(m, sp, page, cnt).value)
    ensures Placed(A.MapPages(m, sp, page, cnt).value)
    decreases cnt
  {
    hide World, Placed, A.InvWith, A.MapOne, MapWords, A.Range;
    A.RangeStep(page, cnt);
    if cnt > 0 {
      InvParts(m, sp, pend);
      A.NotMapped(m, sp, pend);
      MapOneWorld(w, dirs, m, sp, page);
      A.MapKeeps(m, sp, page, pend);
      var r := A.MapOne(m, sp, page).value;
      FramedPlaced(m, r, sp);
      MapPagesWorld(MapWords(w, dirs[sp], m, sp, page), dirs, r, sp, page + 1, cnt - 1, pend - {page});
    }
  }

  function UnmapPagesWords(w: Memory, cr3: bv32, page: nat, cnt: nat): Memory
    decreases cnt
  {
    if cnt == 0 then w else UnmapPagesWords(UnmapWords(w, cr3, page), cr3, page + 1, cnt - 1)
  }

  lemma UnmapFrames(m: A.Mem, sp: nat, page: nat)
    requires sp in m.spaces && page in m.spaces[sp].pt
    ensures var r := A.UnmapOne(m, sp, page);
            A.Framed(m, r, sp) && r.spaces[sp] == m.spaces[sp].(pt := m.spaces[sp].pt - {page})
  {
  }

  lemma NoDirectoryHere(dirs: map<nat, bv32>, s: A.Space, page: nat, cnt: nat)
    requires NoDirectory(dirs, s, page, cnt) && cnt > 0
    ensures page in s.pt ==> forall id :: id in dirs ==> PageNo(dirs[id]) != s.pt[page]
    ensures NoDirectory(dirs, s.(pt := s.pt - {page}), page + 1, cnt - 1)
  {
    hide PageNo;
  }

  lemma {:induction false} UnmapPagesWorld(w: Memory, dirs: map<nat, bv32>, m: A.Mem, sp: nat, page: nat, cnt: nat, pend: set<nat>)
    requires sp in m.spaces && sp in dirs && forall p :: page <= p < page + cnt ==> p in m.spaces[sp].pt
    requires m.spaces[sp].start <= page && page + cnt <= m.spaces[sp].start + m.spaces[sp].n
    requires NoDirectory(dirs, m.spaces[sp], page, cnt)
    requires World(w, dirs, m) && Placed(m) && A.InvWith(m, sp, pend, {})
    ensures World(UnmapPagesWords(w, dirs[sp], page, cnt), dirs, A.UnmapPages(m, sp, page, cnt))
    ensures Placed(A.UnmapPages(m, sp, page, cnt))
    decreases cnt
  {
    hide World, Placed, A.InvWith, UnmapWords, PageNo, A.UnmapOne, NoDirectory;
    if cnt > 0 {
      InvParts(m, sp, pend);
      NoDirectoryHere(dirs, m.spaces[sp], page, cnt);
      UnmapOneWorld(w, dirs, m, sp, page);
      A.UnmapKeeps(m, sp, page, pend);
      var r := A.UnmapOne(m, sp, page);
      UnmapFrames(m, sp, page);
      FramedPlaced(m, r, sp);
      UnmapPagesWorld(UnmapWords(w, dirs[sp], page), dirs, r, sp, page + 1, cnt - 1, pend + {page});
    }
  }

  /** The words do not depend on the bits of the virtual pools. */
  lemma BitsWorld(w: Memory, dirs: map<nat, bv32>, m: A.Mem, sp: nat, bits: set<nat>)
    requires sp in m.spaces && World(w, dirs, m)
    ensures World(w, dirs, A.SetSpace(m, sp, m.spaces[sp].(bits := bits)))
  {
    hide PageNo, Mirrors;
    var r := A.SetSpace(m, sp, m.spaces[sp].(bits := bits));
    forall id | id in dirs ensures Mirrors(w, dirs[id], r, id) {
      BitsMirror(w, dirs[id], m, r, id);
    }
  }

  lemma BitsMirror(w: Memory, c: bv32, m: A.Mem, r: A.Mem, id: nat)
    requires Mirrors(w, c, m, id) && id in r.spaces && r.kStart == m.kStart && r.own == m.own
    requires r.spaces[id] == m.spaces[id].(bits := r.spaces[id].bits)
    ensures Mirrors(w, c, r, id)
  {
    hide PageNo, DirNo, SelfMapped, Split, Pde, Present, Walk;
    forall u: bv32 ensures At(w, c, r, id, u) {
      assert At(w, c, m, id, u);
    }
  }

  // ---------------------------------------------------------------- stores to pages

  /** Words change only in frame g. */
  ghost predicate OnlyFrame(w: Memory, w': Memory, g: nat) {
    forall x: bv32 :: Word(w', x) == Word(w, x) || PageNo(x) == g
  }

  /** The frame of a page that is no directory. */
  ghost predicate DataFrame(dirs: map<nat, bv32>, m: A.Mem, g: nat) {
    g in m.own && m.own[g].Page? && forall id :: id in dirs ==> PageNo(dirs[id]) != g
  }

  lemma DataWalks(w: Memory, w': Memory, dirs: map<nat, bv32>, m: A.Mem, g: nat, id: nat, u: bv32)
    requires World(w, dirs, m) && id in dirs && A.Uses(m.spaces, m.own) && A.Pools(m, {})
    requires OnlyFrame(w, w', g) && DataFrame(dirs, m, g)
    ensures Pde(w', dirs[id], u) == Pde(w, dirs[id], u)
    ensures Own(id, u) ==> Walk(w', dirs[id], u) == Walk(w, dirs[id], u)
  {
    hide PageNo, Present, Slot, Dir, Tab, Join, Own, World, A.Uses, A.Pools;
    SlotPage(dirs[id], u, Dir(u));
    if Own(id, u) && Present(Pde(w, dirs[id], u)) {
      WorldAt(w, dirs, m, id);
      TableIs(w, dirs[id], m, id, u);
      OwnAbove(m, g);
      SlotPage(Pde(w, dirs[id], u), u, Tab(u));
    }
  }

  lemma DataMirrors(w: Memory, w': Memory, dirs: map<nat, bv32>, m: A.Mem, g: nat, id: nat)
    requires World(w, dirs, m) && id in dirs && A.Uses(m.spaces, m.own) && A.Pools(m, {})
    requires OnlyFrame(w, w', g) && DataFrame(dirs, m, g)
    ensures Mirrors(w', dirs[id], m, id)
  {
    hide PageNo, DirNo, Present, Pde, Walk, SelfMapped, Own, A.Uses, A.Pools, OnlyFrame, DataFrame, DirFrame;
    assert Mirrors(w, dirs[id], m, id);
    DataSelf(w, w', dirs, m, g, id);
    forall u: bv32 ensures At(w', dirs[id], m, id, u) {
      assert At(w, dirs[id], m, id, u);
      DataWalks(w, w', dirs, m, g, id, u);
    }
    forall a: bv32, b: bv32 ensures Split(w', dirs[id], id, a, b) {
      assert Split(w, dirs[id], id, a, b);
      DataWalks(w, w', dirs, m, g, id, a);
      DataWalks(w, w', dirs, m, g, id, b);
    }
  }

  lemma DataSelf(w: Memory, w': Memory, dirs: map<nat, bv32>, m: A.Mem, g: nat, id: nat)
    requires World(w, dirs, m) && id in dirs && A.Uses(m.spaces, m.own) && A.Pools(m, {})
    requires OnlyFrame(w, w', g) && DataFrame(dirs, m, g)
    ensures SelfMapped(w', dirs[id])
  {
    hide PageNo, Present, Slot, Dir, Frame, A.Uses, A.Pools, OnlyFrame, DataFrame, At, Split, DirFrame;
    HighBits();
    assert Mirrors(w, dirs[id], m, id);
    DataWalks(w, w', dirs, m, g, id, 0xffc00000);
  }

  /** A store to a page that is no directory changes no walk. */
  lemma DataStays(w: Memory, w': Memory, dirs: map<nat, bv32>, m: A.Mem, g: nat)
    requires World(w, dirs, m) && A.Uses(m.spaces, m.own) && A.Pools(m, {})
    requires OnlyFrame(w, w', g) && DataFrame(dirs, m, g)
    ensures World(w', dirs, m)
  {
    hide PageNo, Mirrors, A.Uses, A.Pools, OnlyFrame, DataFrame;
    forall id | id in dirs ensures Mirrors(w', dirs[id], m, id) {
      DataMirrors(w, w', dirs, m, g, id);
    }
  }

  // ---------------------------------------------------------------- the directory of a new process

  /** The number of a word in its frame. */
  function Index(x: bv32): bv32 { (x & 0xfff) >> 2 }

  lemma IndexOfSlot(b: bv32, i: bv32)
    requires i <= 0x3ff
    ensures Index(Slot(b, i)) == i
  {
  }

  function NewDirWord(w: Memory, kernel: bv32, c: bv32, i: bv32): bv32 {
    if i < 768 then 0 else if i < 0x3ff then Word(w, Slot(kernel, i)) else Entry(c)
  }

  /** create_page_dir: a cleared page, the kernel's entries, and the page itself in the last one. */
  function NewDir(w: Memory, kernel: bv32, c: bv32): Memory {
    x => if Frame(x) == Frame(c) then NewDirWord(w, kernel, c, Index(x)) else Word(w, x)
  }

  lemma NewDirAt(w: Memory, kernel: bv32, c: bv32, x: bv32)
    ensures Word(NewDir(w, kernel, c), x) == if Frame(x) == Frame(c) then NewDirWord(w, kernel, c, Index(x)) else Word(w, x)
  {
  }

  lemma NewDirSlot(w: Memory, kernel: bv32, c: bv32, i: bv32)
    requires i <= 0x3ff
    ensures Word(NewDir(w, kernel, c), Slot(c, i)) == NewDirWord(w, kernel, c, i)
  {
    hide Slot, Frame, Index, NewDirWord, NewDir;
    IndexOfSlot(c, i);
    SlotFields(c, i);
    NewDirAt(w, kernel, c, Slot(c, i));
  }

  lemma NewDirElse(w: Memory, kernel: bv32, c: bv32, i: bv32)
    requires i <= 0x3ff && Frame(kernel) != Frame(c)
    ensures Word(NewDir(w, kernel, c), Slot(kernel, i)) == Word(w, Slot(kernel, i))
  {
    hide Slot, Frame, Index, NewDirWord, NewDir;
    SlotFields(kernel, i);
    NewDirAt(w, kernel, c, Slot(kernel, i));
  }

  lemma ThreeHalves(a: bv32, b: bv32, c: bv32, d: bv32, k: nat)
    requires k >= 3 && Half(a) == b && Half(b) == c && Half(c) == d
    ensures Val(a, k) / 8 == Val(d, k - 3)
  {
    hide Half, Low;
    assert Val(a, k) == Bit(Low(a)) + 2 * Val(b, k - 1);
    assert Val(b, k - 1) == Bit(Low(b)) + 2 * Val(c, k - 2);
    assert Val(c, k - 2) == Bit(Low(c)) + 2 * Val(d, k - 3);
  }

  lemma TopTwo(v: bv32)
    ensures DirNo(v) / 256 == Val(v >> 30, 2)
  {
    HalvesOf(v);
    hide Half, Val;
    ValOfHalves(v >> 22, v >> 23, v >> 24, v >> 25, v >> 26, v >> 27, 10);
    ThreeHalves(v >> 27, v >> 28, v >> 29, v >> 30, 5);
    DivThrice(DirNo(v));
  }

  lemma DivThrice(n: nat)
    ensures n / 32 / 8 == n / 256
  {
  }

  lemma TwoBits(x: bv32)
    ensures Val(x, 2) == Bit(Low(x)) + 2 * Bit(Low(Half(x))) && Val(x, 2) <= 3
    ensures Val(x, 2) == 3 <==> Low(x) && Low(Half(x))
  {
    hide Low, Half;
    assert Val(Half(Half(x)), 0) == 0;
  }

  lemma TopBits(v: bv32)
    ensures Low(v >> 30) && Low(Half(v >> 30)) <==> Dir(v) >= 768
  {
  }

  /** The kernel has the last quarter of the directory. */
  lemma KernelHalf(v: bv32)
    ensures DirNo(v) >= A.KERNEL_DIRS <==> Dir(v) >= 768
  {
    hide Val, Low, Half, Dir, DirNo;
    TopTwo(v);
    TwoBits(v >> 30);
    TopBits(v);
  }

  lemma NewDirCopied(w: Memory, kernel: bv32, c: bv32, v: bv32)
    requires Frame(kernel) != Frame(c)
    ensures Copied(NewDir(w, kernel, c), kernel, c, v)
  {
    hide Slot, Frame, Dir, DirNo, Present, NewDir, Entry;
    Indices(v);
    KernelHalf(v);
    LastDir(v);
    NewDirSlot(w, kernel, c, Dir(v));
    NewDirElse(w, kernel, c, Dir(v));
    ZeroAbsent();
    NotLast(Dir(v));
  }

  lemma NotLast(i: bv32)
    requires i <= 0x3ff
    ensures i != 0x3ff ==> i < 0x3ff
    ensures i >= 768 <==> !(i < 768)
  {
  }

  lemma NewDirIs(w: Memory, kernel: bv32, c: bv32)
    requires Frame(kernel) != Frame(c) && Offset(c) == 0
    ensures NewDirectory(NewDir(w, kernel, c), kernel, c)
  {
    hide Slot, Frame, NewDir, Entry, Copied, Offset, Present;
    NewDirSlot(w, kernel, c, 0x3ff);
    EntryFields(c);
    FrameOfFrame(c);
    forall v: bv32 ensures Copied(NewDir(w, kernel, c), kernel, c, v) {
      NewDirCopied(w, kernel, c, v);
    }
  }

  lemma NewDirOnly(w: Memory, kernel: bv32, c: bv32)
    ensures OnlyFrame(w, NewDir(w, kernel, c), PageNo(c))
  {
    hide PageNo, Frame, NewDir, NewDirWord;
    forall x: bv32 ensures Word(NewDir(w, kernel, c), x) == Word(w, x) || PageNo(x) == PageNo(c) {
      NewDirAt(w, kernel, c, x);
      SamePage(x, c);
    }
  }

  /** A new process: the page that the kernel has taken for it becomes its directory. */
  lemma StartWorld(w: Memory, dirs: map<nat, bv32>, m: A.Mem, sp: nat, c: bv32)
    requires A.KERNEL in dirs && sp !in dirs && sp != A.KERNEL && Offset(c) == 0
    requires World(w, dirs, m) && A.Uses(m.spaces, m.own) && A.Pools(m, {})
    requires DataFrame(dirs, m, PageNo(c)) && DirFrame(m, sp, PageNo(c))
    ensures World(NewDir(w, dirs[A.KERNEL], c), dirs[sp := c], A.SetSpace(m, sp, A.USER_SPACE))
  {
    hide PageNo, World, A.Uses, A.Pools, OnlyFrame, NewDir, NewDirectory, DirFrame, Offset, Frame;
    var kernel := dirs[A.KERNEL];
    SamePage(kernel, c);
    NewDirIs(w, kernel, c);
    NewDirOnly(w, kernel, c);
    DataStays(w, NewDir(w, kernel, c), dirs, m, PageNo(c));
    WorldStarts(NewDir(w, kernel, c), dirs, m, sp, c);
  }

  // ---------------------------------------------------------------- the numbers of entries

  /** The index with number i. */
  function Num(i: nat): bv32 { Bits(i, 10) }

  lemma Pow10()
    ensures Pow2(10) == 1024
  {
    assert Pow2(5) == 32;
  }

  lemma TenOnes()
    ensures Ones(10) == 1023
  {
    OnesAre();
    hide Put;
    assert Ones(5) == 31;
  }

  lemma NumIs(i: nat)
    requires i < 1024
    ensures Num(i) <= 0x3ff && Val(Num(i), 10) == i && Short(Num(i), 10)
  {
    hide Val, Short, Bits, Pow2, Ones;
    Pow10();
    TenOnes();
    BitsAre(i, 10);
    BitsShort(i, 10);
  }

  lemma NumApart(i: nat, j: nat)
    requires i < 1024 && j < 1024 && i != j
    ensures Num(i) != Num(j)
  {
    hide Val, Short, Num;
    NumIs(i);
    NumIs(j);
  }

  /** Every index has a number. */
  lemma NumOf(x: bv32)
    requires Short(x, 10)
    ensures Val(x, 10) < 1024 && x == Num(Val(x, 10))
  {
    hide Val, Short, Num, Pow2;
    Pow10();
    ValBound(x, 10);
    NumIs(Val(x, 10));
    ValInjective(x, Num(Val(x, 10)), 10);
  }

  lemma DirIsNum(v: bv32)
    ensures DirNo(v) < 1024 && Dir(v) == Num(DirNo(v))
  {
    ShortPages(v);
    hide Val, Short, Num;
    NumOf(v >> 22);
  }

  lemma HalfBelow(y: bv32, c: bv32)
    requires y <= c
    ensures Half(y) <= Half(c)
  {
  }

  lemma {:induction false} ShortBelow(y: bv32, c: bv32, k: nat)
    requires y <= c && Short(c, k)
    ensures Short(y, k)
    decreases k
  {
    hide Half;
    if k > 0 {
      HalfBelow(y, c);
      ShortBelow(Half(y), Half(c), k - 1);
    } else {
      ZeroBelow(y);
    }
  }

  lemma ZeroBelow(y: bv32)
    ensures y <= 0 ==> y == 0
  {
  }

  lemma ShortIndex(y: bv32)
    requires y <= 0x3ff
    ensures Short(y, 10)
  {
    hide Short;
    ShortPages(0xffc00000);
    HighBits();
    ShortBelow(y, 1023, 10);
  }

  lemma {:induction false} ValSplit(x: bv32, k: nat, j: nat) returns (h: nat)
    requires j <= k
    ensures Val(x, k) == Val(x, j) + Pow2(j) * h
    decreases k
  {
    hide Low, Half;
    if j == 0 {
      h := Val(x, k);
    } else {
      h := ValSplit(Half(x), k - 1, j - 1);
      Twice(Pow2(j - 1), h);
    }
  }

  lemma Twice(a: nat, h: nat)
    ensures (2 * a) * h == 2 * (a * h)
  {
  }

  function Masked(x: bv32, m: bv32): bv32 { x & m }

  lemma MaskHalf(x: bv32, m: bv32)
    ensures Half(Masked(x, m)) == Masked(Half(x), Half(m)) && (Low(Masked(x, m)) <==> Low(x) && Low(m))
  {
  }

  /** The low k bits are ones. */
  predicate AllOnes(m: bv32, k: nat) {
    k == 0 || (Low(m) && AllOnes(Half(m), k - 1))
  }

  lemma {:induction false} MaskVal(x: bv32, m: bv32, k: nat)
    requires AllOnes(m, k)
    ensures Val(Masked(x, m), k) == Val(x, k)
    decreases k
  {
    hide Low, Half, Masked;
    if k > 0 {
      MaskHalf(x, m);
      MaskVal(Half(x), Half(m), k - 1);
    }
  }

  lemma TenMask()
    ensures AllOnes(1023, 10)
  {
    HighBits();
    hide Low, Half;
    assert AllOnes(31, 5);
  }

  lemma TabMasked(v: bv32)
    ensures Tab(v) == Masked(Page(v), 1023)
  {
  }

  /** The table index is the number of the page in its directory entry. */
  lemma TabIsNum(v: bv32)
    ensures Tab(v) == Num(PageNo(v) % 1024)
  {
    hide Val, Short, Num, Pow2, Masked, Page, Tab, AllOnes, PageNo;
    Pow10();
    NumberOfPage(v);
    var h := ValSplit(Page(v), 20, 10);
    TenMask();
    MaskVal(Page(v), 1023, 10);
    TabMasked(v);
    Indices(v);
    ShortIndex(Tab(v));
    NumOf(Tab(v));
  }

  // ---------------------------------------------------------------- the loader

  const DIR: bv32 := Addr(256)  // PAGE_DIR_TABLE_POS; the page tables follow it

  /** The entries lo to hi - 1 of the table at b are f of their numbers. */
  function Filled(m: Memory, b: bv32, lo: nat, hi: nat, f: nat -> bv32): Memory {
    if hi <= lo then m else With(Filled(m, b, lo, hi - 1, f), Slot(b, Num(hi - 1)), f(hi - 1))
  }

  lemma NumSlots(b: bv32, i: nat, j: nat)
    requires i < 1024 && j < 1024 && i != j
    ensures Slot(b, Num(i)) != Slot(b, Num(j))
  {
    hide Slot, Num, Frame;
    NumIs(i);
    NumIs(j);
    NumApart(i, j);
    SlotsApart(b, Num(i), b, Num(j));
  }

  lemma {:induction false} FilledAt(m: Memory, b: bv32, lo: nat, hi: nat, f: nat -> bv32, j: nat)
    requires lo <= hi <= 1024 && j < 1024
    ensures Word(Filled(m, b, lo, hi, f), Slot(b, Num(j))) == if lo <= j < hi then f(j) else Word(m, Slot(b, Num(j)))
    decreases hi
  {
    hide Slot, With, Word, Num;
    if lo < hi {
      WordAfter(Filled(m, b, lo, hi - 1, f), Slot(b, Num(hi - 1)), f(hi - 1), Slot(b, Num(j)));
      if j != hi - 1 { NumSlots(b, j, hi - 1); }
      FilledAt(m, b, lo, hi - 1, f, j);
    }
  }

  lemma {:induction false} FilledElse(m: Memory, b: bv32, lo: nat, hi: nat, f: nat -> bv32, x: bv32)
    requires lo <= hi <= 1024 && Frame(x) != Frame(b)
    ensures Word(Filled(m, b, lo, hi, f), x) == Word(m, x)
    decreases hi
  {
    hide Slot, Frame, Num;
    if lo < hi {
      FilledElse(m, b, lo, hi - 1, f, x);
      NumIs(hi - 1);
      SlotFields(b, Num(hi - 1));
      WordAfter(Filled(m, b, lo, hi - 1, f), Slot(b, Num(hi - 1)), f(hi - 1), x);
    }
  }

  /** The table of the kernel's directory entry i is the page after those of the entries before it. */
  function KernelPde(i: nat): bv32
  {
    if i >= 768 then Entry(Addr(i - 511)) else 0
  }

  function LowPte(i: nat): bv32 { Entry(Addr(i)) }

  function LoaderDir(i: nat): bv32 {
    if i == 0 then KernelPde(768) else if i == 1023 then Entry(DIR) else KernelPde(i)
  }

  /** What setup_page leaves: the directory, and the first 256 entries of the first table. The tables are not cleared. */
  ghost predicate SetUp(w0: Memory, w: Memory) {
    && (forall i: nat :: i < 1024 ==> Word(w, Slot(DIR, Num(i))) == LoaderDir(i))
    && (forall i: nat :: i < 1024 ==>
          Word(w, Slot(Addr(257), Num(i))) == if i < 256 then LowPte(i) else Word(w0, Slot(Addr(257), Num(i))))
    && (forall x: bv32 :: Frame(x) != Frame(DIR) && Frame(x) != Frame(Addr(257)) ==> Word(w, x) == Word(w0, x))
  }

  /** A loop of stores to entries lo to hi - 1 of the table at b. */
  method Fill(m: Memory, b: bv32, lo: nat, hi: nat, f: nat -> bv32) returns (r: Memory)
    requires lo <= hi <= 1024
    ensures r == Filled(m, b, lo, hi, f)
  {
    hide Slot, With, Num;
    r := m;
    var i := lo;
    while i < hi
      invariant lo <= i <= hi && r == Filled(m, b, lo, i, f)
    {
      r := With(r, Slot(b, Num(i)), f(i));
      i := i + 1;
    }
  }

  function Zero(i: nat): bv32 { 0 }

  /** The three single stores of setup_page. */
  function ThreeStores(w: Memory): Memory {
    With(With(With(w, Slot(DIR, Num(0)), KernelPde(768)), Slot(DIR, Num(768)), KernelPde(768)), Slot(DIR, Num(1023)), Entry(DIR))
  }

  /** setup_page. */
  method SetupPage(w0: Memory) returns (w: Memory)
    ensures SetUp(w0, w)
  {
    hide Filled, Slot, With, Word, Frame, LoaderDir, KernelPde, LowPte, Num, Addr, ThreeStores, Zero;
    var w1 := Fill(w0, DIR, 0, 1024, Zero);
    var w2 := ThreeStores(w1);
    var w3 := Fill(w2, Addr(257), 0, 256, LowPte);
    w := Fill(w3, DIR, 769, 1023, KernelPde);
    forall i: nat | i < 1024 ensures Word(w, Slot(DIR, Num(i))) == LoaderDir(i) {
      DirectoryWords(w0, i);
    }
    forall i: nat | i < 1024
      ensures Word(w, Slot(Addr(257), Num(i))) == if i < 256 then LowPte(i) else Word(w0, Slot(Addr(257), Num(i)))
    {
      TableWords(w0, i);
    }
    forall x: bv32 | Frame(x) != Frame(DIR) && Frame(x) != Frame(Addr(257)) ensures Word(w, x) == Word(w0, x) {
      OtherWords(w0, x);
    }
  }

  function ClearedDir(w0: Memory): Memory { Filled(w0, DIR, 0, 1024, Zero) }

  function After(w0: Memory): Memory {
    Filled(Filled(ThreeStores(ClearedDir(w0)), Addr(257), 0, 256, LowPte), DIR, 769, 1023, KernelPde)
  }

  lemma TablesApart()
    ensures Frame(DIR) != Frame(Addr(257))
  {
    hide PageNo, Addr, Frame;
    AddrIs(256);
    AddrIs(257);
    SamePage(DIR, Addr(257));
  }

  lemma ThreeAt(w: Memory, i: nat)
    requires i < 1024
    ensures Word(ThreeStores(w), Slot(DIR, Num(i)))
            == if i == 1023 then Entry(DIR) else if i == 768 || i == 0 then KernelPde(768) else Word(w, Slot(DIR, Num(i)))
  {
    hide Slot, Num, KernelPde, Entry, With, Word, Addr;
    if i != 0 { NumSlots(DIR, i, 0); }
    if i != 768 { NumSlots(DIR, i, 768); }
    if i != 1023 { NumSlots(DIR, i, 1023); }
    var a := With(w, Slot(DIR, Num(0)), KernelPde(768));
    var b := With(a, Slot(DIR, Num(768)), KernelPde(768));
    WordAfter(w, Slot(DIR, Num(0)), KernelPde(768), Slot(DIR, Num(i)));
    WordAfter(a, Slot(DIR, Num(768)), KernelPde(768), Slot(DIR, Num(i)));
    WordAfter(b, Slot(DIR, Num(1023)), Entry(DIR), Slot(DIR, Num(i)));
  }

  lemma StoreElse(w: Memory, b: bv32, i: nat, e: bv32, x: bv32)
    requires Frame(x) != Frame(b) && i < 1024
    ensures Word(With(w, Slot(b, Num(i)), e), x) == Word(w, x)
  {
    hide Slot, Num, Frame;
    NumIs(i);
    SlotFields(b, Num(i));
    WordAfter(w, Slot(b, Num(i)), e, x);
  }

  lemma ThreeElse(w: Memory, x: bv32)
    requires Frame(x) != Frame(DIR)
    ensures Word(ThreeStores(w), x) == Word(w, x)
  {
    hide Slot, Num, KernelPde, Entry, With, Word, Addr, Frame;
    var a := With(w, Slot(DIR, Num(0)), KernelPde(768));
    var b := With(a, Slot(DIR, Num(768)), KernelPde(768));
    StoreElse(w, DIR, 0, KernelPde(768), x);
    StoreElse(a, DIR, 768, KernelPde(768), x);
    StoreElse(b, DIR, 1023, Entry(DIR), x);
  }

  lemma DirectoryWords(w0: Memory, i: nat)
    requires i < 1024
    ensures Word(After(w0), Slot(DIR, Num(i))) == LoaderDir(i)
  {
    hide Filled, Slot, With, Word, Frame, Num, Addr, ThreeStores, Entry;
    var w1 := ClearedDir(w0);
    var w2 := ThreeStores(w1);
    var w3 := Filled(w2, Addr(257), 0, 256, LowPte);
    TablesApart();
    NumIs(i);
    SlotFields(DIR, Num(i));
    FilledAt(w3, DIR, 769, 1023, KernelPde, i);
    FilledElse(w2, Addr(257), 0, 256, LowPte, Slot(DIR, Num(i)));
    ThreeAt(w1, i);
    FilledAt(w0, DIR, 0, 1024, Zero, i);
  }

  lemma TableWords(w0: Memory, i: nat)
    requires i < 1024
    ensures Word(After(w0), Slot(Addr(257), Num(i))) == if i < 256 then LowPte(i) else Word(w0, Slot(Addr(257), Num(i)))
  {
    hide Filled, Slot, With, Word, Frame, Num, Addr, ThreeStores, KernelPde, LowPte, Zero;
    var w1 := ClearedDir(w0);
    var w2 := ThreeStores(w1);
    var w3 := Filled(w2, Addr(257), 0, 256, LowPte);
    var x := Slot(Addr(257), Num(i));
    TablesApart();
    NumIs(i);
    SlotFields(Addr(257), Num(i));
    FilledElse(w3, DIR, 769, 1023, KernelPde, x);
    FilledAt(w2, Addr(257), 0, 256, LowPte, i);
    ThreeElse(w1, x);
    FilledElse(w0, DIR, 0, 1024, Zero, x);
  }

  lemma OtherWords(w0: Memory, x: bv32)
    requires Frame(x) != Frame(DIR) && Frame(x) != Frame(Addr(257))
    ensures Word(After(w0), x) == Word(w0, x)
  {
    hide Filled, Slot, With, Word, Frame, Num, Addr, ThreeStores, KernelPde, LowPte, Zero;
    var w1 := ClearedDir(w0);
    var w2 := ThreeStores(w1);
    var w3 := Filled(w2, Addr(257), 0, 256, LowPte);
    FilledElse(w3, DIR, 769, 1023, KernelPde, x);
    FilledElse(w2, Addr(257), 0, 256, LowPte, x);
    ThreeElse(w1, x);
    FilledElse(w0, DIR, 0, 1024, Zero, x);
  }

  // ---------------------------------------------------------------- the words at boot

  lemma KernelPdeIs(i: nat)
    requires 768 <= i < 1023
    ensures Present(KernelPde(i)) && PageNo(KernelPde(i)) == i - 511 && Frame(KernelPde(i)) == Frame(Addr(i - 511))
  {
    hide Addr, PageNo, Entry, Present, Offset, Frame;
    AddrIs(i - 511);
    EntryPage(Addr(i - 511));
    SamePage(KernelPde(i), Addr(i - 511));
  }

  lemma DirIs()
    ensures PageNo(DIR) == 256 && Offset(DIR) == 0 && Frame(DIR) == DIR
    ensures Present(Entry(DIR)) && PageNo(Entry(DIR)) == 256 && Frame(Entry(DIR)) == Frame(DIR)
  {
    hide Addr, PageNo, Entry, Present, Offset, Frame;
    AddrIs(256);
    EntryPage(DIR);
    FrameOfFrame(DIR);
    SamePage(Entry(DIR), DIR);
  }

  lemma LoaderDirIs(i: nat)
    requires i < 1024
    ensures Present(LoaderDir(i)) <==> i == 0 || i >= 768
    ensures i == 0 ==> PageNo(LoaderDir(i)) == 257
    ensures 768 <= i < 1023 ==> PageNo(LoaderDir(i)) == i - 511
    ensures i == 1023 ==> PageNo(LoaderDir(i)) == 256
  {
    hide PageNo, Present, KernelPde, DIR, Entry;
    DirIs();
    KernelPdeIs(768);
    if 768 <= i < 1023 { KernelPdeIs(i); }
    LowIsZero(i);
    ZeroAbsent();
  }

  lemma LowIsZero(i: nat)
    ensures i < 768 ==> KernelPde(i) == 0
  {
  }

  lemma LoaderPde(w0: Memory, w: Memory, v: bv32)
    requires SetUp(w0, w)
    ensures DirNo(v) < 1024 && Pde(w, DIR, v) == LoaderDir(DirNo(v))
  {
    hide Slot, Num, LoaderDir, LowPte, Frame, DirNo, Dir, Word, Addr;
    DirIsNum(v);
  }

  /** The pages behind the first megabyte in the kernel's part of the directory. */
  predicate HeapPart(v: bv32) { A.KERNEL_DIRS <= DirNo(v) < 1023 && 0xc0100 <= PageNo(v) }

  /** The entry of v was absent before the loader ran. */
  predicate CleanAt(w0: Memory, v: bv32) {
    HeapPart(v) ==> !Present(Word(w0, Slot(Addr(DirNo(v) - 511), Tab(v))))
  }

  lemma HeapTab(v: bv32)
    requires HeapPart(v)
    ensures Tab(v) == Num(PageNo(v) % 1024) && (DirNo(v) == A.KERNEL_DIRS ==> PageNo(v) % 1024 >= 256)
  {
    hide Num, Tab, PageNo, DirNo;
    TabIsNum(v);
    DirOfPage(v);
  }

  lemma LoaderPte(w0: Memory, w: Memory, v: bv32)
    requires SetUp(w0, w) && HeapPart(v)
    ensures Present(Pde(w, DIR, v)) && Pte(w, DIR, v) == Word(w0, Slot(Addr(DirNo(v) - 511), Tab(v)))
  {
    hide Slot, Num, LoaderDir, LowPte, Frame, DirNo, PageNo, Dir, Tab, Word, Addr, Present, SetUp, Pde;
    var d := DirNo(v);
    LoaderPde(w0, w, v);
    LoaderIsKernel(d);
    KernelPdeIs(d);
    HeapTab(v);
    SameSlot(Pde(w, DIR, v), Addr(d - 511), Tab(v));
    if d == 768 {
      FirstTable(w0, w, PageNo(v) % 1024);
    } else {
      LaterTable(w0, w, d, Tab(v), v);
    }
  }

  lemma LoaderIsKernel(i: nat)
    requires 768 <= i < 1023
    ensures LoaderDir(i) == KernelPde(i)
  {
  }

  lemma FirstTable(w0: Memory, w: Memory, i: nat)
    requires SetUp(w0, w) && 256 <= i < 1024
    ensures Word(w, Slot(Addr(257), Num(i))) == Word(w0, Slot(Addr(257), Num(i)))
  {
    hide Slot, Num, LoaderDir, LowPte, Frame, Word, Addr;
  }

  lemma LaterTable(w0: Memory, w: Memory, d: nat, i: bv32, v: bv32)
    requires SetUp(w0, w) && 768 < d < 1023 && i == Tab(v)
    ensures Word(w, Slot(Addr(d - 511), i)) == Word(w0, Slot(Addr(d - 511), i))
  {
    hide Slot, Num, LoaderDir, LowPte, Frame, Word, Addr, Tab, PageNo;
    Indices(v);
    SlotFields(Addr(d - 511), i);
    AddrIs(d - 511);
    AddrIs(256);
    AddrIs(257);
    SamePage(Addr(d - 511), DIR);
    SamePage(Addr(d - 511), Addr(257));
  }

  lemma BootFacts(allMem: nat)
    ensures var m := A.Boot(allMem);
            && m.kStart == 512 && m.own == map[] && m.spaces.Keys == {A.KERNEL}
            && m.spaces[A.KERNEL].start == 0xc0100 && m.spaces[A.KERNEL].pt == map[] && m.spaces[A.KERNEL].tables == map[]
  {
  }

  lemma BootCovers(allMem: nat, v: bv32)
    ensures A.KERNEL in A.Boot(allMem).spaces && (Covers(A.KERNEL, A.Boot(allMem).spaces[A.KERNEL], v) <==> HeapPart(v))
  {
    hide DirNo, PageNo, A.Boot;
    BootFacts(allMem);
  }

  lemma BootAt(allMem: nat, w0: Memory, w: Memory, v: bv32)
    requires SetUp(w0, w) && CleanAt(w0, v) && A.KERNEL in A.Boot(allMem).spaces
    ensures At(w, DIR, A.Boot(allMem), A.KERNEL, v)
  {
    hide DirNo, PageNo, A.Boot, Pde, Pte, SetUp, LoaderDir, Present, Join, Tab, Slot, Addr, Word, Covers, HeapPart;
    BootFacts(allMem);
    BootCovers(allMem, v);
    LoaderPde(w0, w, v);
    LoaderDirIs(DirNo(v));
    DirIs();
    if HeapPart(v) { LoaderPte(w0, w, v); }
  }

  lemma BootSplit(w0: Memory, w: Memory, a: bv32, b: bv32)
    requires SetUp(w0, w)
    ensures Split(w, DIR, A.KERNEL, a, b)
  {
    hide DirNo, PageNo, Pde, SetUp, LoaderDir, Present;
    LoaderPde(w0, w, a);
    LoaderPde(w0, w, b);
    LoaderDirIs(DirNo(a));
    LoaderDirIs(DirNo(b));
  }

  lemma BootSelf(w0: Memory, w: Memory)
    requires SetUp(w0, w)
    ensures SelfMapped(w, DIR)
  {
    hide DirNo, SetUp, LoaderDir, Present, Slot, Dir, Frame, Entry;
    HighBits();
    LastDir(0xffc00000);
    LoaderPde(w0, w, 0xffc00000);
    DirIs();
    LastEntry();
  }

  lemma LastEntry()
    ensures LoaderDir(1023) == Entry(DIR)
  {
  }

  /**
   * The loader clears the directory and not the tables. Its words say what the pools say at the start exactly when the
   * memory of the tables had no present bit where the kernel's heap will be.
   */
  lemma BootExactly(allMem: nat, w0: Memory, w: Memory)
    requires SetUp(w0, w)
    ensures World(w, map[A.KERNEL := DIR], A.Boot(allMem)) <==> forall v: bv32 :: CleanAt(w0, v)
  {
    hide PageNo, SetUp, CleanAt, A.Boot, Mirrors;
    BootFacts(allMem);
    if forall v: bv32 :: CleanAt(w0, v) {
      BootMirrors(allMem, w0, w);
    }
    if World(w, map[A.KERNEL := DIR], A.Boot(allMem)) {
      forall v: bv32 ensures CleanAt(w0, v) {
        MirrorsClean(allMem, w0, w, v);
      }
    }
  }

  lemma BootMirrors(allMem: nat, w0: Memory, w: Memory)
    requires SetUp(w0, w) && forall v: bv32 :: CleanAt(w0, v)
    ensures Mirrors(w, DIR, A.Boot(allMem), A.KERNEL)
  {
    hide PageNo, SetUp, CleanAt, A.Boot, At, Split, SelfMapped;
    BootFacts(allMem);
    BootSelf(w0, w);
    DirIs();
    forall v: bv32 ensures At(w, DIR, A.Boot(allMem), A.KERNEL, v) {
      BootAt(allMem, w0, w, v);
    }
    forall a: bv32, b: bv32 ensures Split(w, DIR, A.KERNEL, a, b) {
      BootSplit(w0, w, a, b);
    }
  }

  lemma MirrorsClean(allMem: nat, w0: Memory, w: Memory, v: bv32)
    requires SetUp(w0, w) && Mirrors(w, DIR, A.Boot(allMem), A.KERNEL)
    ensures CleanAt(w0, v)
  {
    hide PageNo, DirNo, SetUp, A.Boot, Pde, Pte, Present, Slot, Tab, Addr, Word, Join, Shape, TableAgrees, Split, SelfMapped, Covers, HeapPart;
    BootFacts(allMem);
    BootCovers(allMem, v);
    if HeapPart(v) {
      LoaderPte(w0, w, v);
      assert At(w, DIR, A.Boot(allMem), A.KERNEL, v);
    }
  }

  lemma BootPlaced(allMem: nat)
    requires allMem < 0x1_0000_0000
    ensures Placed(A.Boot(allMem))
  {
    A.PoolsNeverMeet(allMem);
    A.FreePages(allMem);
    PlacedNumbers(allMem);
  }

  lemma PlacedNumbers(allMem: nat)
    requires allMem < 0x1_0000_0000
    requires var y := A.PoolInit(allMem); y.upStart % 4096 == 0 && y.upStart + 8 * y.ubm * 4096 < 0x1_0000_0000 && y.kFree < 0x8000
    ensures var y := A.PoolInit(allMem); y.upStart / 4096 + 8 * y.ubm <= 0x100000 && 8 * y.kbm <= 0x8000
  {
  }

  // ---------------------------------------------------------------- every run

  /** The pools with the words of memory and the directory of every space. */
  datatype System = System(m: A.Mem, w: Memory, dirs: map<nat, bv32>)

  /** page is the kernel page that holds the directory of the new process; a store is to a page that is mapped. */
  datatype Action =
    | Alloc(sp: nat, cnt: nat)
    | Free(sp: nat, page: nat, cnt: nat)
    | NewProcess(sp: nat, page: nat)
    | Store(sp: nat, v: bv32, word: bv32)

  ghost predicate Enabled(y: System, a: Action) {
    && y.dirs.Keys == y.m.spaces.Keys && A.KERNEL in y.dirs
    && match a
       case Alloc(sp, cnt) => sp in y.m.spaces && !A.MallocPage(y.m, sp, cnt).Halted?
       case Free(sp, page, cnt) =>
         && A.Enabled(y.m, A.Free(sp, page, cnt)) && NoDirectory(y.dirs, y.m.spaces[sp], page, cnt)
       case NewProcess(sp, page) =>
         && sp !in y.m.spaces && page in y.m.spaces[A.KERNEL].pt
         && NoDirectory(y.dirs, y.m.spaces[A.KERNEL], page, 1)
       case Store(sp, v, _) =>
         && sp in y.m.spaces && Covers(sp, y.m.spaces[sp], v) && Walk(y.w, y.dirs[sp], v).Some?
         && NoDirectory(y.dirs, y.m.spaces[sp], PageNo(v), 1)
  }

  /** The words after malloc_page. */
  function AllocWords(y: System, sp: nat, cnt: nat): Memory
    requires sp in y.m.spaces && sp in y.dirs
  {
    var s := y.m.spaces[sp];
    var i := A.FirstRun(s.bits, s.n, cnt, 0);
    MapPagesWords(y.w, y.dirs[sp], A.SetBits(y.m, sp, i, cnt), sp, s.start + i, cnt)
  }

  ghost function Step(y: System, a: Action): System
    requires Enabled(y, a)
  {
    match a
    case Alloc(sp, cnt) =>
      var r := A.MallocPage(y.m, sp, cnt);
      if r.Got? then System(r.m, AllocWords(y, sp, cnt), y.dirs) else y
    case Free(sp, page, cnt) => System(A.MfreePage(y.m, sp, page, cnt), UnmapPagesWords(y.w, y.dirs[sp], page, cnt), y.dirs)
    case NewProcess(sp, page) =>
      var c := Addr(y.m.spaces[A.KERNEL].pt[page]);
      System(A.SetSpace(y.m, sp, A.USER_SPACE), NewDir(y.w, y.dirs[A.KERNEL], c), y.dirs[sp := c])
    case Store(sp, v, word) => System(y.m, With(y.w, Walk(y.w, y.dirs[sp], v).value, word), y.dirs)
  }

  ghost predicate Sound(y: System) {
    World(y.w, y.dirs, y.m) && A.Inv(y.m) && Placed(y.m) && A.KERNEL in y.dirs
  }

  lemma AllocKeeps(y: System, sp: nat, cnt: nat)
    requires sp in y.m.spaces && sp in y.dirs && A.MallocPage(y.m, sp, cnt).Got? && Sound(y)
    ensures Sound(System(A.MallocPage(y.m, sp, cnt).m, AllocWords(y, sp, cnt), y.dirs))
  {
    hide World, A.Inv, A.InvWith, Placed, A.MapPages, MapPagesWords, A.Range, A.FirstRun, A.Allocated;
    A.MallocKeeps(y.m, sp, cnt);
    var s := y.m.spaces[sp];
    var i := A.FirstRun(s.bits, s.n, cnt, 0);
    var m1 := A.SetBits(y.m, sp, i, cnt);
    A.SetBitsKeeps(y.m, sp, i, cnt);
    BitsWorld(y.w, y.dirs, y.m, sp, s.bits + A.Range(i, cnt));
    BitsPlaced(y.m, sp, s.bits + A.Range(i, cnt));
    MapPagesWorld(y.w, y.dirs, m1, sp, s.start + i, cnt, A.Range(s.start + i, cnt));
  }

  lemma BitsPlaced(m: A.Mem, sp: nat, bits: set<nat>)
    requires sp in m.spaces && Placed(m)
    ensures Placed(A.SetSpace(m, sp, m.spaces[sp].(bits := bits)))
  {
  }

  lemma FreeKeeps(y: System, sp: nat, page: nat, cnt: nat)
    requires sp in y.dirs && A.Enabled(y.m, A.Free(sp, page, cnt)) && NoDirectory(y.dirs, y.m.spaces[sp], page, cnt) && Sound(y)
    ensures Sound(System(A.MfreePage(y.m, sp, page, cnt), UnmapPagesWords(y.w, y.dirs[sp], page, cnt), y.dirs))
  {
    hide World, A.Inv, A.InvWith, Placed, A.UnmapPages, UnmapPagesWords, A.Range, NoDirectory;
    A.MfreeKeeps(y.m, sp, page, cnt);
    A.AnySpaceBack(y.m, sp);
    MappedInPool(y.m, sp, page, cnt);
    UnmapPagesWorld(y.w, y.dirs, y.m, sp, page, cnt, {});
    A.UnmapPagesKeeps(y.m, sp, page, cnt, {});
    var r := A.UnmapPages(y.m, sp, page, cnt);
    var bits := r.spaces[sp].bits - A.Range(page - y.m.spaces[sp].start, cnt);
    BitsWorld(UnmapPagesWords(y.w, y.dirs[sp], page, cnt), y.dirs, r, sp, bits);
    BitsPlaced(r, sp, bits);
  }

  /** Mapped pages are pages of the virtual pool. */
  lemma MappedInPool(m: A.Mem, sp: nat, page: nat, cnt: nat)
    requires A.Inv(m) && sp in m.spaces && cnt >= 1 && forall p :: page <= p < page + cnt ==> p in m.spaces[sp].pt
    ensures m.spaces[sp].start <= page && page + cnt <= m.spaces[sp].start + m.spaces[sp].n
  {
    PageInPool(m, sp, page);
    PageInPool(m, sp, page + cnt - 1);
  }

  lemma PageInPool(m: A.Mem, sp: nat, p: nat)
    requires A.Inv(m) && sp in m.spaces && p in m.spaces[sp].pt
    ensures m.spaces[sp].start <= p < m.spaces[sp].start + m.spaces[sp].n
  {
    hide A.Uses, A.Pools;
    A.BitMeansEntry(m, sp, p);
    assert A.SpaceOk(m.spaces[sp], {});
    A.InRange(p - m.spaces[sp].start, 0, m.spaces[sp].n);
  }

  /** The frame of a mapped page that is no directory. */
  lemma PageIsData(y: System, sp: nat, p: nat)
    requires sp in y.m.spaces && p in y.m.spaces[sp].pt && NoDirectory(y.dirs, y.m.spaces[sp], p, 1) && A.Inv(y.m)
    ensures DataFrame(y.dirs, y.m, y.m.spaces[sp].pt[p]) && y.m.own[y.m.spaces[sp].pt[p]] == A.Page(sp, p)
  {
    hide PageNo, A.Inv;
    A.EntryFrame(y.m, sp, p);
  }

  lemma InvOf(m: A.Mem)
    requires A.Inv(m)
    ensures A.Uses(m.spaces, m.own) && A.Pools(m, {})
  {
  }

  lemma OwnBound(m: A.Mem, f: nat)
    requires A.Inv(m) && Placed(m) && f in m.own
    ensures f < 0x100000
  {
    A.InRange(f, m.kStart, m.kN);
    A.InRange(f, m.uStart, m.uN);
    hide A.Range, A.Uses, A.Bits;
  }

  lemma StartKeeps(y: System, sp: nat, page: nat)
    requires A.KERNEL in y.dirs && A.KERNEL in y.m.spaces && sp !in y.m.spaces && sp !in y.dirs && page in y.m.spaces[A.KERNEL].pt
    requires NoDirectory(y.dirs, y.m.spaces[A.KERNEL], page, 1) && Sound(y)
    ensures var c := Addr(y.m.spaces[A.KERNEL].pt[page]);
            Sound(System(A.SetSpace(y.m, sp, A.USER_SPACE), NewDir(y.w, y.dirs[A.KERNEL], c), y.dirs[sp := c]))
  {
    hide World, A.Inv, Placed, NewDir, Addr, PageNo, Offset, DataFrame, NoDirectory, A.Uses, A.Pools;
    var f := y.m.spaces[A.KERNEL].pt[page];
    PageIsData(y, A.KERNEL, page);
    InvOf(y.m);
    DataIsOwned(y.dirs, y.m, f);
    OwnBound(y.m, f);
    AddrIs(f);
    StartWorld(y.w, y.dirs, y.m, sp, Addr(f));
    A.NewProcessKeeps(y.m, sp);
    NewPlaced(y.m, sp);
  }

  lemma DataIsOwned(dirs: map<nat, bv32>, m: A.Mem, g: nat)
    requires DataFrame(dirs, m, g)
    ensures g in m.own && m.own[g].Page?
  {
    hide PageNo;
  }

  lemma NewPlaced(m: A.Mem, sp: nat)
    requires Placed(m) && sp != A.KERNEL
    ensures Placed(A.SetSpace(m, sp, A.USER_SPACE))
  {
  }

  lemma StoreKeeps(y: System, sp: nat, v: bv32, word: bv32)
    requires sp in y.m.spaces && sp in y.dirs && Covers(sp, y.m.spaces[sp], v) && Walk(y.w, y.dirs[sp], v).Some?
    requires NoDirectory(y.dirs, y.m.spaces[sp], PageNo(v), 1) && Sound(y)
    ensures Sound(System(y.m, With(y.w, Walk(y.w, y.dirs[sp], v).value, word), y.dirs))
  {
    hide A.Inv, Placed, PageNo, DataFrame, NoDirectory, A.Uses, A.Pools, Walk, Covers, World, With, OnlyFrame;
    WalkIsPage(y.w, y.dirs, y.m, sp, v);
    PageIsData(y, sp, PageNo(v));
    InvOf(y.m);
    var a := Walk(y.w, y.dirs[sp], v).value;
    OneWordOnly(y.w, a, word);
    DataStays(y.w, With(y.w, a, word), y.dirs, y.m, PageNo(a));
  }

  lemma OneWordOnly(w: Memory, a: bv32, word: bv32)
    ensures OnlyFrame(w, With(w, a, word), PageNo(a))
  {
    hide PageNo;
  }

  /** The walk of an address that the space accounts for is what the space says. */
  lemma WalkIsPage(w: Memory, dirs: map<nat, bv32>, m: A.Mem, sp: nat, v: bv32)
    requires World(w, dirs, m) && sp in dirs && sp in m.spaces && Covers(sp, m.spaces[sp], v)
    ensures Walk(w, dirs[sp], v).Some? <==> PageNo(v) in m.spaces[sp].pt
    ensures Walk(w, dirs[sp], v).Some? ==> PageNo(Walk(w, dirs[sp], v).value) == m.spaces[sp].pt[PageNo(v)]
  {
    hide PageNo, DirNo, Walk, Split, Shape, TableAgrees, SelfMapped, DirFrame;
    assert Mirrors(w, dirs[sp], m, sp);
    assert At(w, dirs[sp], m, sp, v);
  }

  lemma StepKeeps(y: System, a: Action)
    requires Sound(y) && Enabled(y, a)
    ensures Sound(Step(y, a))
  {
    hide Sound, A.MallocPage, A.MfreePage, AllocWords, UnmapPagesWords, NoDirectory, Covers, Walk, PageNo, Addr, NewDir, With;
    match a {
      case Alloc(sp, cnt) => if A.MallocPage(y.m, sp, cnt).Got? { AllocKeeps(y, sp, cnt); }
      case Free(sp, page, cnt) => FreeKeeps(y, sp, page, cnt);
      case NewProcess(sp, page) => StartKeeps(y, sp, page);
      case Store(sp, v, word) => StoreKeeps(y, sp, v, word);
    }
  }

  ghost predicate CanRun(y: System, acts: seq<Action>)
    decreases |acts|
  {
    acts == [] || (Enabled(y, acts[0]) && CanRun(Step(y, acts[0]), acts[1..]))
  }

  ghost function Run(y: System, acts: seq<Action>): System
    requires CanRun(y, acts)
    decreases |acts|
  {
    if acts == [] then y else Run(Step(y, acts[0]), acts[1..])
  }

  lemma {:induction false} RunKeeps(y: System, acts: seq<Action>)
    requires Sound(y) && CanRun(y, acts)
    ensures Sound(Run(y, acts))
    decreases |acts|
  {
    hide Sound, Enabled, Step;
    if acts != [] {
      StepKeeps(y, acts[0]);
      RunKeeps(Step(y, acts[0]), acts[1..]);
    }
  }

  function Booted(allMem: nat, w: Memory): System { System(A.Boot(allMem), w, map[A.KERNEL := DIR]) }

  lemma BootedSound(allMem: nat, w0: Memory, w: Memory)
    requires allMem < 0x1_0000_0000 && SetUp(w0, w) && forall v: bv32 :: CleanAt(w0, v)
    ensures Sound(Booted(allMem, w))
  {
    hide World, A.Inv, Placed, SetUp, CleanAt, A.Boot, DIR;
    BootExactly(allMem, w0, w);
    A.BootInv(allMem);
    BootPlaced(allMem);
  }

  lemma SoundParts(y: System, id: nat)
    requires Sound(y) && id in y.dirs
    ensures World(y.w, y.dirs, y.m) && A.Inv(y.m) && id in y.m.spaces
  {
    hide Mirrors, A.Inv, Placed, PageNo;
  }

  /**
   * From the loader on, over every run of allocations, frees, new processes and stores to any mapped page: in every
   * space the processor finds an address that the space accounts for exactly when its bit is set in the virtual pool,
   * two pages never lead to the same frame, and an address of a process never leads to a frame of the kernel's pool.
   */
  lemma WalksAreSound(allMem: nat, w0: Memory, w: Memory, acts: seq<Action>, id: nat, v: bv32, id': nat, v': bv32)
    requires allMem < 0x1_0000_0000 && SetUp(w0, w) && (forall x: bv32 :: CleanAt(w0, x)) && CanRun(Booted(allMem, w), acts)
    requires var y := Run(Booted(allMem, w), acts);
             && id in y.dirs && id' in y.dirs && id in y.m.spaces && id' in y.m.spaces
             && Covers(id, y.m.spaces[id], v) && Covers(id', y.m.spaces[id'], v')
    ensures var y := Run(Booted(allMem, w), acts);
            var s, x, x' := y.m.spaces[id], Walk(y.w, y.dirs[id], v), Walk(y.w, y.dirs[id'], v');
            && (x.Some? <==> PageNo(v) >= s.start && PageNo(v) - s.start in s.bits)
            && (x.Some? && x'.Some? && PageNo(x.value) == PageNo(x'.value) ==> id == id' && PageNo(v) == PageNo(v'))
            && (x.Some? ==> (id == A.KERNEL <==> PageNo(x.value) < y.m.uStart))
  {
    hide *;
    BootedSound(allMem, w0, w);
    RunKeeps(Booted(allMem, w), acts);
    var y := Run(Booted(allMem, w), acts);
    SoundParts(y, id);
    WalkIsPage(y.w, y.dirs, y.m, id, v);
    WalkIsPage(y.w, y.dirs, y.m, id', v');
    A.BitMeansEntry(y.m, id, PageNo(v));
    if PageNo(v) in y.m.spaces[id].pt { A.EntryFrame(y.m, id, PageNo(v)); }
    if PageNo(v') in y.m.spaces[id'].pt { A.EntryFrame(y.m, id', PageNo(v')); }
  }
}
