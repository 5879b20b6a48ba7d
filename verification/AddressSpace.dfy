/** Physical and virtual page pools and the page tables between them: the lower half of kernel/memory.c. */
module AddressSpace {
  import opened Basics
  import Bitmap

  const KERNEL := 0         // the space of the kernel heap; processes have other numbers
  const KERNEL_DIRS := 768  // directory entries from here on have their tables from the loader
  const STACK_PAGE := 0xbffff

  /** A virtual pool with the entries that its pages have in the page tables. bits are those set in vaddr_bitmap. */
  datatype Space = Space(start: nat, n: nat, bits: set<nat>, pt: map<nat, nat>, tables: map<nat, nat>)

  /** What a frame from a pool is used for. */
  datatype Use = Page(sp: nat, page: nat) | Table(sp: nat, dir: nat)

  /** Two pools of frames with their bits, the spaces, and (auxiliary) the use of every frame taken. */
  datatype Mem = Mem(kStart: nat, kN: nat, uStart: nat, uN: nat, kUsed: set<nat>, uUsed: set<nat>,
                     spaces: map<nat, Space>, own: map<nat, Use>)

  predicate In(k: nat, lo: nat, n: nat) { lo <= k < lo + n }

  function Range(lo: nat, n: nat): set<nat> {
    set k | lo <= k < lo + n && In(k, lo, n)
  }

  // ---------------------------------------------------------------- what holds between calls

  function Pages(start: nat, bits: set<nat>): set<nat> {
    set b | b in bits :: start + b
  }

  /** A bit is set exactly when the page has an entry, except for the pages that are on their way in or out. */
  predicate SpaceOk(s: Space, pend: set<nat>) {
    s.bits <= Range(0, s.n) && Pages(s.start, s.bits) == s.pt.Keys + pend && s.pt.Keys !! pend
  }

  /** Every entry and every table of a space has its own frame. */
  predicate SpaceUses(own: map<nat, Use>, id: nat, s: Space) {
    && (forall p :: p in s.pt ==> s.pt[p] in own && own[s.pt[p]] == Page(id, p))
    && (forall d :: d in s.tables ==> s.tables[d] in own && own[s.tables[d]] == Table(id, d))
  }

  predicate UsedBy(spaces: map<nat, Space>, f: nat, u: Use) {
    u.sp in spaces &&
    match u
    case Page(id, p) => p in spaces[id].pt && spaces[id].pt[p] == f
    case Table(id, d) => d in spaces[id].tables && spaces[id].tables[d] == f
  }

  predicate Uses(spaces: map<nat, Space>, own: map<nat, Use>) {
    && (forall id :: id in spaces ==> SpaceUses(own, id, spaces[id]))
    && (forall f :: f in own ==> UsedBy(spaces, f, own[f]))
  }

  predicate IsUserPage(u: Use) { u.Page? && u.sp != KERNEL }

  /**
   * A frame is taken exactly when it has a use or has just been taken for one, from the pool that fits the use.
   * The pools do not meet.
   */
  predicate Pools(m: Mem, loose: set<nat>) {
    && m.kStart + m.kN <= m.uStart
    && m.kUsed <= Range(m.kStart, m.kN) && m.uUsed <= Range(m.uStart, m.uN)
    && m.own.Keys + loose == m.kUsed + m.uUsed && m.own.Keys !! loose
    && (forall f :: f in m.own ==> (IsUserPage(m.own[f]) <==> f in m.uUsed))
  }

  predicate Bits(m: Mem, sp: nat, pend: set<nat>) {
    forall id :: id in m.spaces ==> SpaceOk(m.spaces[id], if id == sp then pend else {})
  }

  predicate InvWith(m: Mem, sp: nat, pend: set<nat>, loose: set<nat>) {
    Uses(m.spaces, m.own) && Pools(m, loose) && Bits(m, sp, pend)
  }

  predicate Inv(m: Mem) { InvWith(m, KERNEL, {}, {}) }

  // ---------------------------------------------------------------- frames

  /** The lowest frame of the pool that is free, or its end. */
  function FirstFree(lo: nat, hi: nat, used: set<nat>): (f: nat)
    requires lo <= hi
    ensures lo <= f <= hi && (f < hi ==> f !in used)
    ensures forall g :: lo <= g < f ==> g in used
    decreases hi - lo
  {
    if lo == hi || lo !in used then lo else FirstFree(lo + 1, hi, used)
  }

  /** palloc; with no frame left bitmap_scan halts. */
  function Palloc(m: Mem, user: bool): Option<nat> {
    var lo, hi := if user then m.uStart else m.kStart, if user then m.uStart + m.uN else m.kStart + m.kN;
    var f := FirstFree(lo, hi, if user then m.uUsed else m.kUsed);
    if f < hi then Some(f) else None
  }

  function Taken(m: Mem, user: bool, f: nat): Mem {
    if user then m.(uUsed := m.uUsed + {f}) else m.(kUsed := m.kUsed + {f})
  }

  /** pfree looks at the address alone. */
  function Pfree(m: Mem, f: nat): Mem {
    if f >= m.uStart then m.(uUsed := m.uUsed - {f}) else m.(kUsed := m.kUsed - {f})
  }

  /** pfree gives back to the right pool whatever palloc took, and nothing else. */
  lemma PfreeUndoesPalloc(m: Mem, user: bool)
    requires Pools(m, {}) && Palloc(m, user).Some?
    ensures var f := Palloc(m, user).value; f !in m.kUsed + m.uUsed && Pfree(Taken(m, user, f), f) == m
  {
    var f := Palloc(m, user).value;
    assert m.uUsed + {f} - {f} == m.uUsed && m.kUsed + {f} - {f} == m.kUsed;
  }

  // ---------------------------------------------------------------- one page

  function SetSpace(m: Mem, sp: nat, s: Space): Mem {
    m.(spaces := m.spaces[sp := s])
  }

  predicate HasTable(m: Mem, sp: nat, dir: nat)
    requires sp in m.spaces
  {
    dir in m.spaces[sp].tables || (sp == KERNEL && dir >= KERNEL_DIRS)
  }

  /** page_table_add makes a table if there is none for this part of the space. */
  function EnsureTable(m: Mem, sp: nat, dir: nat): Option<Mem>
    requires sp in m.spaces
  {
    if HasTable(m, sp, dir) then Some(m) else
    match Palloc(m, false)
    case None => None
    case Some(f) =>
      var s := m.spaces[sp];
      Some(SetSpace(Taken(m, false, f), sp, s.(tables := s.tables[dir := f])).(own := m.own[f := Table(sp, dir)]))
  }

  /** The page gets a frame and an entry; None is a halt. */
  function MapOne(m: Mem, sp: nat, page: nat): (r: Option<Mem>)
    requires sp in m.spaces
    ensures r.Some? ==> sp in r.value.spaces
  {
    match Palloc(m, sp != KERNEL)
    case None => None
    case Some(f) =>
      match EnsureTable(Taken(m, sp != KERNEL, f), sp, page / 1024)
      case None => None
      case Some(m1) =>
        if page in m1.spaces[sp].pt then None  // the entry must not be present
        else Some(Installed(m1, sp, page, f))
  }

  function Installed(m: Mem, sp: nat, page: nat, f: nat): Mem
    requires sp in m.spaces
  {
    var s := m.spaces[sp];
    SetSpace(m, sp, s.(pt := s.pt[page := f])).(own := m.own[f := Page(sp, page)])
  }

  /** The frame goes back to its pool and the entry is no longer present. */
  function UnmapOne(m: Mem, sp: nat, page: nat): Mem
    requires sp in m.spaces && page in m.spaces[sp].pt
  {
    var s := m.spaces[sp];
    SetSpace(Pfree(m, s.pt[page]), sp, s.(pt := s.pt - {page})).(own := m.own - {s.pt[page]})
  }

  lemma InRange(k: nat, lo: nat, n: nat)
    ensures k in Range(lo, n) <==> lo <= k < lo + n
  {
    assert In(k, lo, n) || !In(k, lo, n);
  }

  lemma TakenKeeps(m: Mem, user: bool, loose: set<nat>)
    requires Pools(m, loose) && Palloc(m, user).Some?
    ensures var f := Palloc(m, user).value;
            f !in m.own && f !in loose && Pools(Taken(m, user, f), loose + {f}) && (user <==> f in Taken(m, user, f).uUsed)
  {
    var f := Palloc(m, user).value;
    InRange(f, m.kStart, m.kN);
    InRange(f, m.uStart, m.uN);
    hide Range;
  }

  lemma UsesMore(own: map<nat, Use>, f: nat, u: Use, id: nat, s: Space)
    requires SpaceUses(own, id, s) && f !in own
    ensures SpaceUses(own[f := u], id, s)
  {
  }

  lemma UsesLess(own: map<nat, Use>, f: nat, id: nat, s: Space)
    requires SpaceUses(own, id, s) && f in own && own[f].sp != id
    ensures SpaceUses(own - {f}, id, s)
  {
  }

  /** A space that gets one more entry or one more table. */
  function Grown(s: Space, f: nat, u: Use): Space {
    match u
    case Page(_, p) => s.(pt := s.pt[p := f])
    case Table(_, d) => s.(tables := s.tables[d := f])
  }

  predicate Vacant(s: Space, u: Use) {
    match u
    case Page(_, p) => p !in s.pt
    case Table(_, d) => d !in s.tables
  }

  lemma GrownSpace(own: map<nat, Use>, s: Space, f: nat, u: Use)
    requires SpaceUses(own, u.sp, s) && f !in own && Vacant(s, u)
    ensures SpaceUses(own[f := u], u.sp, Grown(s, f, u))
  {
  }

  lemma GrownUsed(spaces: map<nat, Space>, f: nat, u: Use, g: nat, w: Use)
    requires u.sp in spaces && Vacant(spaces[u.sp], u)
    requires if g == f then w == u else UsedBy(spaces, g, w)
    ensures UsedBy(spaces[u.sp := Grown(spaces[u.sp], f, u)], g, w)
  {
  }

  /** The new use is of a frame that had none. */
  lemma GrowUses(spaces: map<nat, Space>, own: map<nat, Use>, f: nat, u: Use)
    requires u.sp in spaces && Uses(spaces, own) && f !in own && Vacant(spaces[u.sp], u)
    ensures Uses(spaces[u.sp := Grown(spaces[u.sp], f, u)], own[f := u])
  {
    hide SpaceUses, UsedBy, Grown, Vacant;
    var spaces', own' := spaces[u.sp := Grown(spaces[u.sp], f, u)], own[f := u];
    GrownSpace(own, spaces[u.sp], f, u);
    forall id | id in spaces' ensures SpaceUses(own', id, spaces'[id]) {
      if id != u.sp { UsesMore(own, f, u, id, spaces[id]); }
    }
    forall g | g in own' ensures UsedBy(spaces', g, own'[g]) {
      GrownUsed(spaces, f, u, g, own'[g]);
    }
  }

  lemma ShrinkUses(spaces: map<nat, Space>, own: map<nat, Use>, sp: nat, page: nat)
    requires sp in spaces && Uses(spaces, own) && page in spaces[sp].pt
    ensures var s := spaces[sp]; Uses(spaces[sp := s.(pt := s.pt - {page})], own - {s.pt[page]})
  {
    var s := spaces[sp];
    var f := s.pt[page];
    var spaces', own' := spaces[sp := s.(pt := s.pt - {page})], own - {f};
    assert SpaceUses(own, sp, s);
    assert own[f] == Page(sp, page);
    assert SpaceUses(own', sp, spaces'[sp]);
    forall id | id in spaces ensures SpaceUses(own', id, spaces'[id]) {
      if id != sp { UsesLess(own, f, id, spaces[id]); }
    }
    hide SpaceUses;
    forall g | g in own' ensures UsedBy(spaces', g, own'[g]) {
      assert UsedBy(spaces, g, own[g]);
    }
  }

  /** Tables are added and never change; the kernel has all of its own. */
  predicate TablesGrow(m: Mem, r: Mem, sp: nat) {
    && sp in m.spaces && sp in r.spaces
    && forall d :: d in m.spaces[sp].tables ==>
         d in r.spaces[sp].tables && r.spaces[sp].tables[d] == m.spaces[sp].tables[d]
  }

  lemma TableKeeps(m: Mem, sp: nat, dir: nat, pend: set<nat>, loose: set<nat>)
    requires sp in m.spaces && InvWith(m, sp, pend, loose) && EnsureTable(m, sp, dir).Some?
    ensures var r := EnsureTable(m, sp, dir).value;
            && InvWith(r, sp, pend, loose) && r.spaces.Keys == m.spaces.Keys && r.uUsed == m.uUsed
            && r.spaces[sp] == m.spaces[sp].(tables := r.spaces[sp].tables) && TablesGrow(m, r, sp)
            && (HasTable(m, sp, dir) ==> r == m)
  {
    hide Range, Palloc, Pages, Uses;
    if !HasTable(m, sp, dir) {
      TakenKeeps(m, false, loose);
      var f := Palloc(m, false).value;
      GrowUses(m.spaces, m.own, f, Table(sp, dir));
      var r := EnsureTable(m, sp, dir).value;
      assert r.own.Keys == m.own.Keys + {f};
    }
  }

  lemma InstallKeeps(m: Mem, sp: nat, page: nat, f: nat, pend: set<nat>, loose: set<nat>)
    requires sp in m.spaces && InvWith(m, sp, pend, loose) && page in pend && f in loose && (f in m.uUsed <==> sp != KERNEL)
    ensures page !in m.spaces[sp].pt && InvWith(Installed(m, sp, page, f), sp, pend - {page}, loose - {f})
  {
    hide Range, Pages, Uses;
    GrowUses(m.spaces, m.own, f, Page(sp, page));
    var r := Installed(m, sp, page, f);
    assert r.own.Keys == m.own.Keys + {f};
    assert r.spaces[sp].pt.Keys == m.spaces[sp].pt.Keys + {page};
  }

  /** The page is on its way out, and its frame is free again. */
  lemma UnmapKeeps(m: Mem, sp: nat, page: nat, pend: set<nat>)
    requires sp in m.spaces && page in m.spaces[sp].pt && InvWith(m, sp, pend, {})
    ensures InvWith(UnmapOne(m, sp, page), sp, pend + {page}, {})
  {
    hide Range, Pages, Uses, SpaceUses;
    ShrinkUses(m.spaces, m.own, sp, page);
    FrameOf(m, sp, page);
    var r := UnmapOne(m, sp, page);
    UnmapPools(m, m.spaces[sp].pt[page]);
    assert r.spaces[sp].pt.Keys == m.spaces[sp].pt.Keys - {page};
  }

  lemma UnmapPools(m: Mem, f: nat)
    requires Pools(m, {}) && f in m.own
    requires IsUserPage(m.own[f]) <==> f >= m.uStart
    ensures Pools(Pfree(m, f).(own := m.own - {f}), {})
  {
    InRange(f, m.kStart, m.kN);
    InRange(f, m.uStart, m.uN);
    hide Range;
  }

  /** A mapped page has a frame of the right pool, so the asserts of mfree_page hold. */
  lemma FrameOf(m: Mem, sp: nat, page: nat)
    requires sp in m.spaces && page in m.spaces[sp].pt && Uses(m.spaces, m.own) && Pools(m, {})
    ensures var f := m.spaces[sp].pt[page];
            && f in m.own && m.own[f] == Page(sp, page)
            && (if sp == KERNEL then f in m.kUsed && m.kStart <= f < m.uStart else f in m.uUsed && m.uStart <= f)
  {
    var f := m.spaces[sp].pt[page];
    assert SpaceUses(m.own, sp, m.spaces[sp]);
    InRange(f, m.kStart, m.kN);
    InRange(f, m.uStart, m.uN);
  }

  lemma MapKeeps(m: Mem, sp: nat, page: nat, pend: set<nat>)
    requires sp in m.spaces && InvWith(m, sp, pend, {}) && page in pend && MapOne(m, sp, page).Some?
    ensures var r := MapOne(m, sp, page).value;
            && InvWith(r, sp, pend - {page}, {}) && r.spaces.Keys == m.spaces.Keys
            && page in r.spaces[sp].pt && r.spaces[sp].bits == m.spaces[sp].bits
            && r.spaces[sp].pt == m.spaces[sp].pt[page := r.spaces[sp].pt[page]] && Framed(m, r, sp)
            && TablesGrow(m, r, sp)
  {
    hide Uses, Bits, Range, Palloc;
    var user := sp != KERNEL;
    TakenKeeps(m, user, {});
    var f := Palloc(m, user).value;
    var m0 := Taken(m, user, f);
    SameBits(m, m0, sp, pend);
    TableKeeps(m0, sp, page / 1024, pend, {f});
    var m1 := EnsureTable(m0, sp, page / 1024).value;
    InstallKeeps(m1, sp, page, f, pend, {f});
    assert {f} - {f} == {};
  }

  lemma SameBits(m: Mem, r: Mem, sp: nat, pend: set<nat>)
    requires Bits(m, sp, pend) && r.spaces == m.spaces
    ensures Bits(r, sp, pend)
  {
  }

  /** The pools have not moved, and other spaces are untouched. */
  predicate Framed(m: Mem, r: Mem, sp: nat) {
    && r.kStart == m.kStart && r.kN == m.kN && r.uStart == m.uStart && r.uN == m.uN
    && r.spaces.Keys == m.spaces.Keys && sp in m.spaces
    && r.spaces[sp].start == m.spaces[sp].start && r.spaces[sp].n == m.spaces[sp].n
    && forall id :: id in m.spaces && id != sp ==> r.spaces[id] == m.spaces[id]
  }

  // ---------------------------------------------------------------- runs of pages

  function MapPages(m: Mem, sp: nat, page: nat, cnt: nat): Option<Mem>
    requires sp in m.spaces
    decreases cnt
  {
    if cnt == 0 then Some(m) else
    match MapOne(m, sp, page)
    case None => None
    case Some(r) => MapPages(r, sp, page + 1, cnt - 1)
  }

  lemma RangeStep(lo: nat, n: nat)
    ensures Range(lo, 0) == {}
    ensures n > 0 ==> Range(lo, n) == {lo} + Range(lo + 1, n - 1) && lo !in Range(lo + 1, n - 1)
  {
    if n > 0 {
      assert forall k :: In(k, lo, n) <==> k == lo || In(k, lo + 1, n - 1);
    }
  }

  lemma {:induction false} MapPagesKeeps(m: Mem, sp: nat, page: nat, cnt: nat, pend: set<nat>)
    requires sp in m.spaces && InvWith(m, sp, pend, {}) && Range(page, cnt) <= pend && MapPages(m, sp, page, cnt).Some?
    ensures var r := MapPages(m, sp, page, cnt).value;
            && InvWith(r, sp, pend - Range(page, cnt), {}) && Framed(m, r, sp) && TablesGrow(m, r, sp)
            && r.spaces[sp].bits == m.spaces[sp].bits
            && r.spaces[sp].pt.Keys == m.spaces[sp].pt.Keys + Range(page, cnt)
            && (forall p :: p in m.spaces[sp].pt && p !in pend ==> r.spaces[sp].pt[p] == m.spaces[sp].pt[p])
    decreases cnt
  {
    hide InvWith, MapOne, Range;
    RangeStep(page, cnt);
    if cnt > 0 {
      MapKeeps(m, sp, page, pend);
      var m1 := MapOne(m, sp, page).value;
      MapPagesKeeps(m1, sp, page + 1, cnt - 1, pend - {page});
      assert pend - {page} - Range(page + 1, cnt - 1) == pend - Range(page, cnt);
    } else {
      assert pend - {} == pend;
    }
  }

  function UnmapPages(m: Mem, sp: nat, page: nat, cnt: nat): Mem
    requires sp in m.spaces && forall p :: page <= p < page + cnt ==> p in m.spaces[sp].pt
    decreases cnt
  {
    if cnt == 0 then m else UnmapPages(UnmapOne(m, sp, page), sp, page + 1, cnt - 1)
  }

  lemma {:induction false} UnmapPagesKeeps(m: Mem, sp: nat, page: nat, cnt: nat, pend: set<nat>)
    requires sp in m.spaces && InvWith(m, sp, pend, {})
    requires forall p :: page <= p < page + cnt ==> p in m.spaces[sp].pt
    ensures var r := UnmapPages(m, sp, page, cnt);
            && InvWith(r, sp, pend + Range(page, cnt), {}) && Framed(m, r, sp)
            && r.spaces[sp] == m.spaces[sp].(pt := m.spaces[sp].pt - Range(page, cnt))
    decreases cnt
  {
    hide InvWith, Range;
    RangeStep(page, cnt);
    if cnt > 0 {
      UnmapKeeps(m, sp, page, pend);
      var m1 := UnmapOne(m, sp, page);
      UnmapPagesKeeps(m1, sp, page + 1, cnt - 1, pend + {page});
      assert pend + {page} + Range(page + 1, cnt - 1) == pend + Range(page, cnt);
      var pt := m.spaces[sp].pt;
      assert pt - {page} - Range(page + 1, cnt - 1) == pt - Range(page, cnt);
      assert Framed(m, m1, sp);
    } else {
      assert pend + {} == pend && m.spaces[sp].pt - {} == m.spaces[sp].pt;
    }
  }

  // ---------------------------------------------------------------- malloc_page and mfree_page

  /** Halted stands for an ASSERT, or for bitmap_scan on a full bitmap. */
  datatype Result = Halted | Null | Got(m: Mem, page: nat)

  /** The lowest place of cnt clear bits from i on; if there is none the run would not fit in n. */
  function FirstRun(bits: set<nat>, n: nat, cnt: nat, i: nat): (j: nat)
    ensures i <= j && (j + cnt <= n ==> Range(j, cnt) !! bits)
    ensures forall k :: i <= k < j ==> !(Range(k, cnt) !! bits)
    ensures j + cnt > n ==> forall k :: i <= k && k + cnt <= n ==> !(Range(k, cnt) !! bits)
    decreases n + 1 - i
  {
    if i + cnt > n || Range(i, cnt) !! bits then i else FirstRun(bits, n, cnt, i + 1)
  }

  /** The bits of a bitmap as the set of their numbers. */
  function SetOfBits(bits: seq<bool>): set<nat> { set i | 0 <= i < |bits| && bits[i] }

  lemma ClearMeansDisjoint(bits: seq<bool>, i: nat, cnt: nat)
    requires i + cnt <= |bits|
    ensures Bitmap.ClearRun(bits, i, cnt) <==> Range(i, cnt) !! SetOfBits(bits)
  {
    if Range(i, cnt) !! SetOfBits(bits) {
      forall k | i <= k < i + cnt ensures !bits[k] {
        InRange(k, i, cnt);
        assert k !in SetOfBits(bits);
      }
    }
  }

  /** FirstRun is where bitmap_scan finds the run, and there is none exactly when it finds none. */
  lemma FirstRunIsTheScan(bits: seq<bool>, cnt: nat)
    ensures var j := FirstRun(SetOfBits(bits), |bits|, cnt, 0);
            if j + cnt <= |bits| then Bitmap.LowestRun(bits, j, cnt) else !Bitmap.HasRun(bits, cnt)
  {
    hide Range, SetOfBits;
    forall k: nat | k + cnt <= |bits| ensures Bitmap.ClearRun(bits, k, cnt) <==> Range(k, cnt) !! SetOfBits(bits) {
      ClearMeansDisjoint(bits, k, cnt);
    }
  }

  function SetBits(m: Mem, sp: nat, i: nat, cnt: nat): Mem
    requires sp in m.spaces
  {
    var s := m.spaces[sp];
    SetSpace(m, sp, s.(bits := s.bits + Range(i, cnt)))
  }

  function ClearBits(m: Mem, sp: nat, i: nat, cnt: nat): Mem
    requires sp in m.spaces
  {
    var s := m.spaces[sp];
    SetSpace(m, sp, s.(bits := s.bits - Range(i, cnt)))
  }

  function MallocPage(m: Mem, sp: nat, cnt: nat): Result
    requires sp in m.spaces
  {
    var s := m.spaces[sp];
    if !(0 < cnt < 3840) || Range(0, s.n) <= s.bits then Halted else
    var i := FirstRun(s.bits, s.n, cnt, 0);
    if i + cnt > s.n then Null
    else if sp != KERNEL && s.start + i >= STACK_PAGE then Halted
    else
      match MapPages(SetBits(m, sp, i, cnt), sp, s.start + i, cnt)
      case None => Halted
      case Some(r) => Got(r, s.start + i)
  }

  /** The pages must be mapped; the frees of the source are of what an allocation returned. */
  function MfreePage(m: Mem, sp: nat, page: nat, cnt: nat): Mem
    requires sp in m.spaces && m.spaces[sp].start <= page
    requires forall p :: page <= p < page + cnt ==> p in m.spaces[sp].pt
  {
    var r := UnmapPages(m, sp, page, cnt);
    if sp in r.spaces then ClearBits(r, sp, page - m.spaces[sp].start, cnt) else r
  }

  lemma InPages(start: nat, bits: set<nat>, p: nat)
    ensures p in Pages(start, bits) <==> p >= start && p - start in bits
  {
    if p >= start && p - start in bits {
      assert start + (p - start) == p;
    }
  }

  lemma PagesOfRun(start: nat, bits: set<nat>, i: nat, cnt: nat)
    ensures Pages(start, bits + Range(i, cnt)) == Pages(start, bits) + Range(start + i, cnt)
    ensures Pages(start, bits - Range(i, cnt)) == Pages(start, bits) - Range(start + i, cnt)
    ensures Range(i, cnt) !! bits ==> Range(start + i, cnt) !! Pages(start, bits)
  {
    forall p: nat
      ensures p in Pages(start, bits + Range(i, cnt)) <==> p in Pages(start, bits) || p in Range(start + i, cnt)
      ensures p in Pages(start, bits - Range(i, cnt)) <==> p in Pages(start, bits) && p !in Range(start + i, cnt)
      ensures Range(i, cnt) !! bits && p in Range(start + i, cnt) ==> p !in Pages(start, bits)
    {
      InPages(start, bits + Range(i, cnt), p);
      InPages(start, bits - Range(i, cnt), p);
      InPages(start, bits, p);
      InRange(p, start + i, cnt);
      if p >= start { InRange(p - start, i, cnt); }
    }
  }

  lemma SetBitsOk(s: Space, i: nat, cnt: nat)
    requires SpaceOk(s, {}) && i + cnt <= s.n && Range(i, cnt) !! s.bits
    ensures SpaceOk(s.(bits := s.bits + Range(i, cnt)), Range(s.start + i, cnt))
  {
    PagesOfRun(s.start, s.bits, i, cnt);
    RangeWithin(i, cnt, s.n);
    hide Range, Pages;
  }

  lemma SetBitsKeeps(m: Mem, sp: nat, i: nat, cnt: nat)
    requires sp in m.spaces && Inv(m) && i + cnt <= m.spaces[sp].n && Range(i, cnt) !! m.spaces[sp].bits
    ensures InvWith(SetBits(m, sp, i, cnt), sp, Range(m.spaces[sp].start + i, cnt), {})
  {
    hide Uses, Range, Pages, SpaceOk;
    SetBitsOk(m.spaces[sp], i, cnt);
    var r := SetBits(m, sp, i, cnt);
    UsesFramed(m.spaces, r.spaces, m.own, sp);
  }

  lemma ClearBitsOk(s: Space, i: nat, cnt: nat)
    requires SpaceOk(s, Range(s.start + i, cnt))
    ensures SpaceOk(s.(bits := s.bits - Range(i, cnt)), {})
  {
    PagesOfRun(s.start, s.bits, i, cnt);
    hide Range, Pages;
  }

  lemma ClearBitsKeeps(m: Mem, sp: nat, i: nat, cnt: nat)
    requires sp in m.spaces && InvWith(m, sp, Range(m.spaces[sp].start + i, cnt), {})
    ensures Inv(ClearBits(m, sp, i, cnt))
  {
    hide Uses, Range, Pages, SpaceOk;
    ClearBitsOk(m.spaces[sp], i, cnt);
    var r := ClearBits(m, sp, i, cnt);
    UsesFramed(m.spaces, r.spaces, m.own, sp);
  }

  lemma RangeWithin(i: nat, cnt: nat, n: nat)
    requires i + cnt <= n
    ensures Range(i, cnt) <= Range(0, n)
  {
    assert forall k :: In(k, i, cnt) ==> In(k, 0, n);
  }

  lemma UsesFramed(spaces: map<nat, Space>, spaces': map<nat, Space>, own: map<nat, Use>, sp: nat)
    requires sp in spaces && Uses(spaces, own)
    requires sp in spaces' && spaces' == spaces[sp := spaces'[sp]]
    requires spaces'[sp].pt == spaces[sp].pt && spaces'[sp].tables == spaces[sp].tables
    ensures Uses(spaces', own)
  {
    forall f | f in own ensures UsedBy(spaces', f, own[f]) {
      assert UsedBy(spaces, f, own[f]);
    }
  }

  /** What an allocation gives: cnt fresh pages in a row, the lowest that are free, and nothing else has moved. */
  predicate Allocated(m: Mem, sp: nat, cnt: nat, r: Mem, page: nat) {
    && Framed(m, r, sp) && TablesGrow(m, r, sp) && m.spaces[sp].start <= page
    && (forall p :: page <= p < page + cnt ==> p !in m.spaces[sp].pt)
    && r.spaces[sp].pt.Keys == m.spaces[sp].pt.Keys + Range(page, cnt)
    && r.spaces[sp].bits == m.spaces[sp].bits + Range(page - m.spaces[sp].start, cnt)
    && (forall k :: 0 <= k < page - m.spaces[sp].start ==> !(Range(k, cnt) !! m.spaces[sp].bits))
    && (forall p :: p in m.spaces[sp].pt ==> r.spaces[sp].pt[p] == m.spaces[sp].pt[p])
  }

  lemma MallocKeeps(m: Mem, sp: nat, cnt: nat)
    requires sp in m.spaces && Inv(m) && MallocPage(m, sp, cnt).Got?
    ensures var a := MallocPage(m, sp, cnt); Inv(a.m) && Allocated(m, sp, cnt, a.m, a.page)
  {
    hide Inv, InvWith, MapPages, Range, FirstRun;
    var s := m.spaces[sp];
    var i := FirstRun(s.bits, s.n, cnt, 0);
    var pend := Range(s.start + i, cnt);
    SetBitsKeeps(m, sp, i, cnt);
    var m1 := SetBits(m, sp, i, cnt);
    MapPagesKeeps(m1, sp, s.start + i, cnt, pend);
    NotMapped(m1, sp, pend);
    assert pend - pend == {};
    AnySpace(MallocPage(m, sp, cnt).m, sp);
    forall p | s.start + i <= p < s.start + i + cnt ensures p !in s.pt {
      InRange(p, s.start + i, cnt);
    }
  }

  lemma NotMapped(m: Mem, sp: nat, pend: set<nat>)
    requires sp in m.spaces && InvWith(m, sp, pend, {})
    ensures m.spaces[sp].pt.Keys !! pend
  {
    assert SpaceOk(m.spaces[sp], pend);
  }

  /** With nothing pending it does not matter which space was being worked on. */
  lemma AnySpace(m: Mem, sp: nat)
    requires InvWith(m, sp, {}, {})
    ensures Inv(m)
  {
  }

  lemma AnySpaceBack(m: Mem, sp: nat)
    requires Inv(m)
    ensures InvWith(m, sp, {}, {})
  {
  }

  lemma MfreeKeeps(m: Mem, sp: nat, page: nat, cnt: nat)
    requires sp in m.spaces && Inv(m) && m.spaces[sp].start <= page
    requires forall p :: page <= p < page + cnt ==> p in m.spaces[sp].pt
    ensures var r := MfreePage(m, sp, page, cnt);
            && Inv(r) && Framed(m, r, sp)
            && r.spaces[sp] == m.spaces[sp].(pt := m.spaces[sp].pt - Range(page, cnt),
                                             bits := m.spaces[sp].bits - Range(page - m.spaces[sp].start, cnt))
  {
    hide InvWith, UnmapPages, Range;
    AnySpaceBack(m, sp);
    UnmapPagesKeeps(m, sp, page, cnt, {});
    var q := UnmapPages(m, sp, page, cnt);
    assert {} + Range(page, cnt) == Range(page, cnt);
    ClearBitsKeeps(q, sp, page - m.spaces[sp].start, cnt);
  }

  /** The frames taken are those in use, so spaces with the same entries have taken the same user frames. */
  lemma SameEntriesSameFrames(m: Mem, r: Mem)
    requires Inv(m) && Inv(r) && r.spaces.Keys == m.spaces.Keys
    requires forall id :: id in m.spaces ==> r.spaces[id].pt == m.spaces[id].pt
    ensures r.uUsed == m.uUsed
    ensures (forall id :: id in m.spaces ==> r.spaces[id].tables == m.spaces[id].tables) ==> r.kUsed == m.kUsed
  {
    UsedAlso(m, r);
    UsedAlso(r, m);
  }

  lemma UsedAlso(m: Mem, r: Mem)
    requires Inv(m) && Inv(r) && r.spaces.Keys == m.spaces.Keys
    requires forall id :: id in m.spaces ==> r.spaces[id].pt == m.spaces[id].pt
    ensures m.uUsed <= r.uUsed
    ensures (forall id :: id in m.spaces ==> r.spaces[id].tables == m.spaces[id].tables) ==> m.kUsed <= r.kUsed
  {
    hide Uses, Bits;
    forall f | f in m.own && m.own[f].Page? ensures f in r.own && r.own[f] == m.own[f] {
      SameUse(m, r, f);
    }
    if forall id :: id in m.spaces ==> r.spaces[id].tables == m.spaces[id].tables {
      forall f | f in m.own ensures f in r.own && r.own[f] == m.own[f] {
        SameUse(m, r, f);
      }
    }
    PoolsApart(m);
    PoolsApart(r);
  }

  lemma SameUse(m: Mem, r: Mem, f: nat)
    requires Uses(m.spaces, m.own) && Uses(r.spaces, r.own) && r.spaces.Keys == m.spaces.Keys && f in m.own
    requires m.own[f].sp in m.spaces ==>
               if m.own[f].Page? then r.spaces[m.own[f].sp].pt == m.spaces[m.own[f].sp].pt
               else r.spaces[m.own[f].sp].tables == m.spaces[m.own[f].sp].tables
    ensures f in r.own && r.own[f] == m.own[f]
  {
    assert UsedBy(m.spaces, f, m.own[f]);
    assert SpaceUses(r.own, m.own[f].sp, r.spaces[m.own[f].sp]);
  }

  /** No frame is in both pools. */
  lemma PoolsApart(m: Mem)
    requires Pools(m, {})
    ensures m.kUsed !! m.uUsed
  {
    forall f | f in m.kUsed && f in m.uUsed ensures false {
      InRange(f, m.kStart, m.kN);
      InRange(f, m.uStart, m.uN);
    }
  }

  /** mfree_page undoes malloc_page, but for the page tables that had to be made on the way. */
  lemma MfreeUndoesMalloc(m: Mem, sp: nat, cnt: nat)
    requires sp in m.spaces && Inv(m) && MallocPage(m, sp, cnt).Got?
    ensures var a := MallocPage(m, sp, cnt);
            && sp in a.m.spaces && a.m.spaces[sp].start <= a.page
            && (forall p :: a.page <= p < a.page + cnt ==> p in a.m.spaces[sp].pt)
            && var r := MfreePage(a.m, sp, a.page, cnt);
               && Inv(r) && Framed(m, r, sp) && TablesGrow(m, r, sp) && r.uUsed == m.uUsed
               && r.spaces[sp].pt == m.spaces[sp].pt && r.spaces[sp].bits == m.spaces[sp].bits
               && (r.spaces[sp].tables == m.spaces[sp].tables ==> r.kUsed == m.kUsed && r.spaces == m.spaces)
  {
    hide Inv, MallocPage, MfreePage, Range;
    MallocKeeps(m, sp, cnt);
    var a := MallocPage(m, sp, cnt);
    var s, s1, i := m.spaces[sp], a.m.spaces[sp], a.page - m.spaces[sp].start;
    forall p | a.page <= p < a.page + cnt ensures p in s1.pt {
      InRange(p, a.page, cnt);
    }
    MfreeKeeps(a.m, sp, a.page, cnt);
    var r := MfreePage(a.m, sp, a.page, cnt);
    FreshBits(m, sp, a.page, cnt);
    assert s1.bits - Range(i, cnt) == s.bits;
    assert s1.pt - Range(a.page, cnt) == s.pt by {
      forall p | p in Range(a.page, cnt) ensures p !in s.pt { InRange(p, a.page, cnt); }
    }
    SameEntriesSameFrames(m, r);
  }

  lemma FreshBits(m: Mem, sp: nat, page: nat, cnt: nat)
    requires sp in m.spaces && Inv(m) && m.spaces[sp].start <= page
    requires forall p :: page <= p < page + cnt ==> p !in m.spaces[sp].pt
    ensures Range(page - m.spaces[sp].start, cnt) !! m.spaces[sp].bits
  {
    var s := m.spaces[sp];
    assert SpaceOk(s, {});
    forall b | b in Range(page - s.start, cnt) ensures b !in s.bits {
      InRange(b, page - s.start, cnt);
      InPages(s.start, s.bits, s.start + b);
    }
  }

  // ---------------------------------------------------------------- mem_pool_init

  const PG_SIZE := 4096
  const USED_MEM := 0x200000  // the low megabyte and 256 frames of directory and tables

  /** The layout that mem_pool_init computes, with the widths of its variables: lengths in bytes, addresses in bytes. */
  datatype Layout = Layout(kFree: nat, uFree: nat, kbm: nat, ubm: nat, kpStart: nat, upStart: nat)

  function PoolInit(allMem: nat): Layout {
    var freeMem := (allMem - USED_MEM) % 0x1_0000_0000;
    var allFree := (freeMem / PG_SIZE) % 0x1_0000;
    var kFree := allFree / 2;
    var uFree := allFree - kFree;
    Layout(kFree, uFree, kFree / 8, uFree / 8, USED_MEM, (USED_MEM + kFree * PG_SIZE) % 0x1_0000_0000)
  }

  /** For any amount of memory the pools do not share a frame, and their bitmaps fit in the four pages kept for them. */
  lemma PoolsNeverMeet(allMem: nat)
    requires allMem < 0x1_0000_0000
    ensures var y := PoolInit(allMem);
            && y.upStart % PG_SIZE == 0 && y.kpStart + 8 * y.kbm * PG_SIZE <= y.upStart
            && y.upStart + 8 * y.ubm * PG_SIZE < 0x1_0000_0000 && y.kbm + y.ubm + y.kbm <= 4 * PG_SIZE
  {
    var y := PoolInit(allMem);
    FreePages(allMem);
    assert USED_MEM + y.kFree * PG_SIZE < 0x1_0000_0000;
    InEights(y.kFree);
    InEights(y.uFree);
  }

  lemma FreePages(allMem: nat)
    ensures PoolInit(allMem).kFree < 0x8000 && PoolInit(allMem).uFree <= 0x8000
  {
  }

  lemma InEights(n: nat)
    ensures 8 * (n / 8) <= n
  {
  }

  /** The frames of the pools are all there exactly when the machine has at least the memory that is taken beforehand. */
  lemma FramesExist(allMem: nat)
    requires allMem < 0x1_0000_0000
    ensures var y := PoolInit(allMem); y.upStart + 8 * y.ubm * PG_SIZE <= allMem <==> allMem >= USED_MEM
  {
    var y := PoolInit(allMem);
    PoolsNeverMeet(allMem);
    if allMem >= USED_MEM {
      EnoughPages(allMem - USED_MEM);
    } else {
      WrappedPages(allMem);
    }
  }

  lemma EnoughPages(free: nat)
    requires free < 0x1_0000_0000
    ensures (free / PG_SIZE) % 0x1_0000 * PG_SIZE <= free
  {
  }

  lemma WrappedPages(allMem: nat)
    requires allMem < USED_MEM
    ensures PoolInit(allMem).uFree + PoolInit(allMem).kFree >= 65024
  {
    assert (allMem - USED_MEM) % 0x1_0000_0000 == allMem + 0x1_0000_0000 - USED_MEM;
  }

  /** The state after mem_init. */
  function Boot(allMem: nat): Mem {
    var y := PoolInit(allMem);
    Mem(y.kpStart / PG_SIZE, 8 * y.kbm, y.upStart / PG_SIZE, 8 * y.ubm, {}, {},
        map[KERNEL := Space(0xc0100, 8 * y.kbm, {}, map[], map[])], map[])
  }

  lemma BootInv(allMem: nat)
    requires allMem < 0x1_0000_0000
    ensures Inv(Boot(allMem))
  {
    PoolsNeverMeet(allMem);
    hide PoolInit, Range;
  }

  // ---------------------------------------------------------------- every run

  /** The virtual pool that create_user_vaddr_bitmap makes for a process. */
  const USER_SPACE := Space(0x8048, 753592, {}, map[], map[])

  datatype Action = Alloc(sp: nat, cnt: nat) | Free(sp: nat, page: nat, cnt: nat) | NewProcess(sp: nat)

  /** A free is of pages that are mapped. */
  predicate Enabled(m: Mem, a: Action) {
    match a
    case Alloc(sp, cnt) => sp in m.spaces && !MallocPage(m, sp, cnt).Halted?
    case Free(sp, page, cnt) =>
      && sp in m.spaces && m.spaces[sp].start <= page && cnt >= 1
      && forall p :: page <= p < page + cnt ==> p in m.spaces[sp].pt
    case NewProcess(sp) => sp !in m.spaces && sp != KERNEL
  }

  function Step(m: Mem, a: Action): Mem
    requires Enabled(m, a)
  {
    match a
    case Alloc(sp, cnt) => var r := MallocPage(m, sp, cnt); if r.Got? then r.m else m
    case Free(sp, page, cnt) => MfreePage(m, sp, page, cnt)
    case NewProcess(sp) => SetSpace(m, sp, USER_SPACE)
  }

  lemma NewSpaceOk(own: map<nat, Use>, sp: nat)
    ensures SpaceOk(USER_SPACE, {}) && SpaceUses(own, sp, USER_SPACE)
  {
  }

  lemma NewProcessKeeps(m: Mem, sp: nat)
    requires Inv(m) && sp !in m.spaces
    ensures Inv(SetSpace(m, sp, USER_SPACE))
  {
    hide SpaceOk, SpaceUses, Range;
    NewSpaceOk(m.own, sp);
    var r := SetSpace(m, sp, USER_SPACE);
    forall f | f in m.own ensures UsedBy(r.spaces, f, m.own[f]) {
      assert UsedBy(m.spaces, f, m.own[f]);
    }
  }

  lemma StepKeeps(m: Mem, a: Action)
    requires Inv(m) && Enabled(m, a)
    ensures Inv(Step(m, a))
  {
    hide Inv, MallocPage, MfreePage;
    match a {
      case Alloc(sp, cnt) => if MallocPage(m, sp, cnt).Got? { MallocKeeps(m, sp, cnt); }
      case Free(sp, page, cnt) => MfreeKeeps(m, sp, page, cnt);
      case NewProcess(sp) => NewProcessKeeps(m, sp);
    }
  }

  predicate CanRun(m: Mem, acts: seq<Action>)
    decreases |acts|
  {
    acts == [] || (Enabled(m, acts[0]) && CanRun(Step(m, acts[0]), acts[1..]))
  }

  function Run(m: Mem, acts: seq<Action>): Mem
    requires CanRun(m, acts)
    decreases |acts|
  {
    if acts == [] then m else Run(Step(m, acts[0]), acts[1..])
  }

  lemma {:induction false} RunKeeps(m: Mem, acts: seq<Action>)
    requires Inv(m) && CanRun(m, acts)
    ensures Inv(Run(m, acts))
    decreases |acts|
  {
    hide Inv, Enabled, Step;
    if acts != [] {
      StepKeeps(m, acts[0]);
      RunKeeps(Step(m, acts[0]), acts[1..]);
    }
  }

  lemma BitMeansEntry(m: Mem, id: nat, p: nat)
    requires Inv(m) && id in m.spaces
    ensures p >= m.spaces[id].start && p - m.spaces[id].start in m.spaces[id].bits <==> p in m.spaces[id].pt
  {
    hide Uses, Pools;
    assert SpaceOk(m.spaces[id], {});
    InPages(m.spaces[id].start, m.spaces[id].bits, p);
  }

  lemma EntryFrame(m: Mem, id: nat, p: nat)
    requires Inv(m) && id in m.spaces && p in m.spaces[id].pt
    ensures m.spaces[id].pt[p] in m.own && m.own[m.spaces[id].pt[p]] == Page(id, p)
    ensures id == KERNEL <==> m.spaces[id].pt[p] < m.uStart
  {
    hide Uses, Pools, Bits;
    FrameOf(m, id, p);
  }

  /**
   * After every run of allocations and frees, for any total memory: a virtual bit is set exactly when the page
   * has an entry, two pages never share a frame, and the page of a process never has a frame of the kernel's.
   */
  lemma AddressSpacesAreSound(allMem: nat, acts: seq<Action>, id: nat, p: nat, id': nat, p': nat)
    requires allMem < 0x1_0000_0000 && CanRun(Boot(allMem), acts)
    requires id in Run(Boot(allMem), acts).spaces && id' in Run(Boot(allMem), acts).spaces
    ensures var m := Run(Boot(allMem), acts);
            && (p >= m.spaces[id].start && p - m.spaces[id].start in m.spaces[id].bits <==> p in m.spaces[id].pt)
            && (p in m.spaces[id].pt && p' in m.spaces[id'].pt && m.spaces[id].pt[p] == m.spaces[id'].pt[p'] ==>
                  id == id' && p == p')
            && (p in m.spaces[id].pt ==> (id == KERNEL <==> m.spaces[id].pt[p] < m.uStart))
  {
    hide *;
    BootInv(allMem);
    RunKeeps(Boot(allMem), acts);
    var m := Run(Boot(allMem), acts);
    BitMeansEntry(m, id, p);
    if p in m.spaces[id].pt { EntryFrame(m, id, p); }
    if p' in m.spaces[id'].pt { EntryFrame(m, id', p'); }
  }

  // ---------------------------------------------------------------- when the frames suffice

  function FreeFrames(m: Mem, user: bool): set<nat> {
    if user then Range(m.uStart, m.uN) - m.uUsed else Range(m.kStart, m.kN) - m.kUsed
  }

  /** palloc finds a frame exactly when one is free, and takes one that is. */
  lemma PallocExactly(m: Mem, user: bool)
    ensures Palloc(m, user).Some? <==> FreeFrames(m, user) != {}
    ensures Palloc(m, user).Some? ==> Palloc(m, user).value in FreeFrames(m, user)
  {
    var lo, n := if user then m.uStart else m.kStart, if user then m.uN else m.kN;
    var used := if user then m.uUsed else m.kUsed;
    var f := FirstFree(lo, lo + n, used);
    InRange(f, lo, n);
    assert f < lo + n ==> f in FreeFrames(m, user);
    if FreeFrames(m, user) != {} {
      var g :| g in FreeFrames(m, user);
      InRange(g, lo, n);
    }
  }

  lemma TakenFree(m: Mem, user: bool, f: nat)
    requires f in FreeFrames(m, user)
    ensures FreeFrames(Taken(m, user, f), user) == FreeFrames(m, user) - {f}
    ensures FreeFrames(Taken(m, user, f), !user) == FreeFrames(m, !user)
    ensures |FreeFrames(Taken(m, user, f), user)| == |FreeFrames(m, user)| - 1
  {
    hide Range;
    assert FreeFrames(Taken(m, user, f), user) == FreeFrames(m, user) - {f};
  }

  /** The directory entries of the run of pages that have no table yet. */
  function MissingDirs(m: Mem, sp: nat, page: nat, cnt: nat): set<nat>
    requires sp in m.spaces
  {
    set p | page <= p < page + cnt && !HasTable(m, sp, p / 1024) :: p / 1024
  }

  /** There are enough free frames for the pages, and for the tables, which are the kernel's. */
  predicate Enough(m: Mem, sp: nat, page: nat, cnt: nat)
    requires sp in m.spaces
  {
    if sp == KERNEL then |FreeFrames(m, false)| >= cnt + |MissingDirs(m, sp, page, cnt)|
    else |FreeFrames(m, true)| >= cnt && |FreeFrames(m, false)| >= |MissingDirs(m, sp, page, cnt)|
  }

  lemma InMissing(m: Mem, sp: nat, page: nat, cnt: nat, d: nat)
    requires sp in m.spaces
    ensures d in MissingDirs(m, sp, page, cnt) <==> !HasTable(m, sp, d) && exists p :: page <= p < page + cnt && p / 1024 == d
  {
  }


  lemma MissingLess(m: Mem, r: Mem, sp: nat, page: nat, cnt: nat)
    requires cnt > 0 && sp in m.spaces && sp in r.spaces
    requires forall x: nat :: HasTable(r, sp, x) <==> HasTable(m, sp, x) || x == page / 1024
    ensures MissingDirs(r, sp, page + 1, cnt - 1) == MissingDirs(m, sp, page, cnt) - {page / 1024}
    ensures page / 1024 in MissingDirs(m, sp, page, cnt) <==> !HasTable(m, sp, page / 1024)
  {
    hide HasTable;
    var a, b := MissingDirs(r, sp, page + 1, cnt - 1), MissingDirs(m, sp, page, cnt) - {page / 1024};
    forall d ensures d in a <==> d in b {
      InMissing(r, sp, page + 1, cnt - 1, d);
      InMissing(m, sp, page, cnt, d);
    }
    InMissing(m, sp, page, cnt, page / 1024);
  }

  function Wanted(m: Mem, sp: nat, dir: nat): nat
    requires sp in m.spaces
  {
    if HasTable(m, sp, dir) then 0 else 1
  }

  /** One table is there, and nothing else has changed in the spaces. */
  lemma TableExactly(m: Mem, sp: nat, dir: nat)
    requires sp in m.spaces
    ensures EnsureTable(m, sp, dir).Some? <==> |FreeFrames(m, false)| >= Wanted(m, sp, dir)
    ensures var r := EnsureTable(m, sp, dir);
            r.Some? ==>
              && sp in r.value.spaces && r.value.spaces[sp].pt == m.spaces[sp].pt
              && FreeFrames(r.value, true) == FreeFrames(m, true)
              && |FreeFrames(r.value, false)| == |FreeFrames(m, false)| - Wanted(m, sp, dir)
              && forall x: nat :: HasTable(r.value, sp, x) <==> HasTable(m, sp, x) || x == dir
  {
    hide Palloc, Range;
    PallocExactly(m, false);
    if !HasTable(m, sp, dir) && Palloc(m, false).Some? {
      TakenFree(m, false, Palloc(m, false).value);
    }
  }

  lemma SameTables(m: Mem, r: Mem, sp: nat)
    requires sp in m.spaces && sp in r.spaces && r.spaces[sp].tables == m.spaces[sp].tables
    ensures forall x: nat :: HasTable(r, sp, x) <==> HasTable(m, sp, x)
  {
  }

  lemma MapOneExactly(m: Mem, sp: nat, page: nat)
    requires sp in m.spaces && page !in m.spaces[sp].pt
    ensures MapOne(m, sp, page).Some? <==>
              if sp == KERNEL then |FreeFrames(m, false)| >= 1 + Wanted(m, sp, page / 1024)
              else |FreeFrames(m, true)| >= 1 && |FreeFrames(m, false)| >= Wanted(m, sp, page / 1024)
    ensures var r := MapOne(m, sp, page);
            r.Some? ==>
              && sp in r.value.spaces && r.value.spaces[sp].pt.Keys == m.spaces[sp].pt.Keys + {page}
              && |FreeFrames(r.value, true)| == |FreeFrames(m, true)| - (if sp == KERNEL then 0 else 1)
              && |FreeFrames(r.value, false)| == |FreeFrames(m, false)| - Wanted(m, sp, page / 1024) - (if sp == KERNEL then 1 else 0)
              && forall x: nat :: HasTable(r.value, sp, x) <==> HasTable(m, sp, x) || x == page / 1024
  {
    hide Palloc, Range, EnsureTable, HasTable;
    var user := sp != KERNEL;
    PallocExactly(m, user);
    if Palloc(m, user).Some? {
      var f := Palloc(m, user).value;
      var m0 := Taken(m, user, f);
      TakenFree(m, user, f);
      SameTables(m, m0, sp);
      TableExactly(m0, sp, page / 1024);
      if EnsureTable(m0, sp, page / 1024).Some? {
        var m1 := EnsureTable(m0, sp, page / 1024).value;
        SameTables(m1, Installed(m1, sp, page, f), sp);
      }
    }
  }

  /** Mapping a run halts exactly when there are too few frames for its pages and for the tables it still lacks. */
  lemma {:induction false} MapPagesExactly(m: Mem, sp: nat, page: nat, cnt: nat)
    requires sp in m.spaces && forall p :: page <= p < page + cnt ==> p !in m.spaces[sp].pt
    ensures MapPages(m, sp, page, cnt).Some? <==> Enough(m, sp, page, cnt)
    decreases cnt
  {
    hide MapOne, HasTable, FreeFrames, MissingDirs;
    if cnt == 0 {
      NoneMissing(m, sp, page);
    } else {
      MapOneExactly(m, sp, page);
      var dirs := MissingDirs(m, sp, page, cnt);
      if MapOne(m, sp, page).Some? {
        var r := MapOne(m, sp, page).value;
        MissingLess(m, r, sp, page, cnt);
        MapPagesExactly(r, sp, page + 1, cnt - 1);
        assert |dirs - {page / 1024}| == |dirs| - Wanted(m, sp, page / 1024);
      } else {
        FirstMissing(m, sp, page, cnt);
      }
    }
  }

  lemma NoneMissing(m: Mem, sp: nat, page: nat)
    requires sp in m.spaces
    ensures MissingDirs(m, sp, page, 0) == {}
  {
  }

  lemma FirstMissing(m: Mem, sp: nat, page: nat, cnt: nat)
    requires sp in m.spaces && cnt > 0
    ensures |MissingDirs(m, sp, page, cnt)| >= Wanted(m, sp, page / 1024)
  {
    InMissing(m, sp, page, cnt, page / 1024);
  }

  // ---------------------------------------------------------------- the three answers of malloc_page

  predicate ClearAt(bits: set<nat>, k: nat, cnt: nat) {
    forall b :: k <= b < k + cnt ==> b !in bits
  }

  /** The lowest place of cnt clear bits in a row. */
  predicate Lowest(s: Space, cnt: nat, i: nat) {
    i + cnt <= s.n && ClearAt(s.bits, i, cnt) && forall k :: 0 <= k < i ==> !ClearAt(s.bits, k, cnt)
  }

  predicate AllSet(s: Space) { forall b :: 0 <= b < s.n ==> b in s.bits }

  predicate NoRun(s: Space, cnt: nat) {
    forall k: nat :: k + cnt <= s.n ==> !ClearAt(s.bits, k, cnt)
  }

  /** The run cannot be had: it is that of a process and behind the stack page, or there are too few frames for it. */
  predicate Hopeless(m: Mem, sp: nat, cnt: nat, i: nat)
    requires sp in m.spaces
  {
    (sp != KERNEL && m.spaces[sp].start + i >= STACK_PAGE) || !Enough(m, sp, m.spaces[sp].start + i, cnt)
  }

  predicate AnswersNull(m: Mem, sp: nat, cnt: nat)
    requires sp in m.spaces
  {
    0 < cnt < 3840 && !AllSet(m.spaces[sp]) && NoRun(m.spaces[sp], cnt)
  }

  ghost predicate Halts(m: Mem, sp: nat, cnt: nat)
    requires sp in m.spaces
  {
    !(0 < cnt < 3840) || AllSet(m.spaces[sp]) || exists i :: Lowest(m.spaces[sp], cnt, i) && Hopeless(m, sp, cnt, i)
  }

  lemma ClearIsDisjoint(bits: set<nat>, k: nat, cnt: nat)
    ensures ClearAt(bits, k, cnt) <==> Range(k, cnt) !! bits
  {
    forall b: nat ensures b in Range(k, cnt) <==> k <= b < k + cnt {
      InRange(b, k, cnt);
    }
  }

  lemma AllSetIsFull(s: Space)
    ensures AllSet(s) <==> Range(0, s.n) <= s.bits
  {
    forall b: nat ensures b in Range(0, s.n) <==> b < s.n {
      InRange(b, 0, s.n);
    }
  }

  /** bitmap_scan finds the lowest run, if there is one. */
  lemma FirstRunExactly(s: Space, cnt: nat)
    ensures var i := FirstRun(s.bits, s.n, cnt, 0); if i + cnt <= s.n then Lowest(s, cnt, i) else NoRun(s, cnt)
  {
    hide ClearAt, Range;
    forall k: nat ensures ClearAt(s.bits, k, cnt) <==> Range(k, cnt) !! s.bits {
      ClearIsDisjoint(s.bits, k, cnt);
    }
  }

  lemma LowestIsOne(s: Space, cnt: nat, i: nat, j: nat)
    requires Lowest(s, cnt, i) && Lowest(s, cnt, j)
    ensures i == j && !NoRun(s, cnt)
  {
    hide ClearAt;
  }

  lemma RunIsClear(s: Space, cnt: nat, i: nat)
    requires Lowest(s, cnt, i) && cnt > 0
    ensures !AllSet(s)
  {
    assert i !in s.bits;
  }

  /** The bits play no part in how many frames and tables there are. */
  lemma EnoughAnyway(m: Mem, sp: nat, i: nat, cnt: nat, page: nat)
    requires sp in m.spaces
    ensures Enough(SetBits(m, sp, i, cnt), sp, page, cnt) <==> Enough(m, sp, page, cnt)
  {
    hide Range;
    var r := SetBits(m, sp, i, cnt);
    forall d ensures d in MissingDirs(r, sp, page, cnt) <==> d in MissingDirs(m, sp, page, cnt) {
      InMissing(r, sp, page, cnt, d);
      InMissing(m, sp, page, cnt, d);
    }
    assert MissingDirs(r, sp, page, cnt) == MissingDirs(m, sp, page, cnt);
  }

  lemma RunUnmapped(m: Mem, sp: nat, i: nat, cnt: nat)
    requires sp in m.spaces && Inv(m) && i + cnt <= m.spaces[sp].n && ClearAt(m.spaces[sp].bits, i, cnt)
    ensures forall p :: m.spaces[sp].start + i <= p < m.spaces[sp].start + i + cnt ==> p !in m.spaces[sp].pt
  {
    hide InvWith;
    forall p | m.spaces[sp].start + i <= p < m.spaces[sp].start + i + cnt ensures p !in m.spaces[sp].pt {
      BitMeansEntry(m, sp, p);
    }
  }

  /**
   * malloc_page for every state: NULL exactly when some bit is clear and no cnt of them in a row are, a halt exactly
   * for a bad count, for a full bitmap, and when the lowest run cannot be had; otherwise it gives the lowest run.
   */
  lemma MallocExactly(m: Mem, sp: nat, cnt: nat)
    requires sp in m.spaces && Inv(m)
    ensures MallocPage(m, sp, cnt).Null? <==> AnswersNull(m, sp, cnt)
    ensures MallocPage(m, sp, cnt).Halted? <==> Halts(m, sp, cnt)
    ensures var r := MallocPage(m, sp, cnt);
            r.Got? ==> r.page >= m.spaces[sp].start && Lowest(m.spaces[sp], cnt, r.page - m.spaces[sp].start)
  {
    hide Inv, MapPages, FirstRun, Range, Enough, ClearAt, AllSet, NoRun, Lowest;
    var s := m.spaces[sp];
    var i := FirstRun(s.bits, s.n, cnt, 0);
    AllSetIsFull(s);
    FirstRunExactly(s, cnt);
    forall j: nat | Lowest(s, cnt, j) ensures !NoRun(s, cnt) && (Lowest(s, cnt, i) ==> i == j) {
      LowestIsOne(s, cnt, j, j);
      if Lowest(s, cnt, i) { LowestIsOne(s, cnt, i, j); }
    }
    if Lowest(s, cnt, i) && cnt > 0 {
      RunIsClear(s, cnt, i);
      RunAt(s, cnt, i);
      RunUnmapped(m, sp, i, cnt);
      MapPagesExactly(SetBits(m, sp, i, cnt), sp, s.start + i, cnt);
      EnoughAnyway(m, sp, i, cnt, s.start + i);
    }
  }

  lemma RunAt(s: Space, cnt: nat, i: nat)
    requires Lowest(s, cnt, i)
    ensures i + cnt <= s.n && ClearAt(s.bits, i, cnt)
  {
  }

  // ---------------------------------------------------------------- the code

  datatype Answer = Stopped | NoPages | Start(page: nat)

  class PageAllocator {
    const kStart: nat
    const kN: nat
    const uStart: nat
    const uN: nat
    var kUsed: set<nat>
    var uUsed: set<nat>
    var spaces: map<nat, Space>
    ghost var own: map<nat, Use>

    ghost function State(): Mem
      reads this
    {
      Mem(kStart, kN, uStart, uN, kUsed, uUsed, spaces, own)
    }

    constructor (allMem: nat)
      requires allMem < 0x1_0000_0000
      ensures State() == Boot(allMem) && Inv(State())
    {
      var y := PoolInit(allMem);
      kStart, kN, uStart, uN := y.kpStart / PG_SIZE, 8 * y.kbm, y.upStart / PG_SIZE, 8 * y.ubm;
      kUsed, uUsed, own := {}, {}, map[];
      spaces := map[KERNEL := Space(0xc0100, 8 * y.kbm, {}, map[], map[])];
      new;
      BootInv(allMem);
    }

    /** bitmap_scan and bitmap_set on the bitmap of a pool of frames. */
    method TakeFrame(user: bool) returns (r: Option<nat>)
      modifies this`kUsed, this`uUsed
      ensures r == Palloc(old(State()), user)
      ensures State() == if r.Some? then Taken(old(State()), user, r.value) else old(State())
    {
      var lo, hi := if user then uStart else kStart, if user then uStart + uN else kStart + kN;
      var used := if user then uUsed else kUsed;
      var f := lo;
      while f < hi && f in used
        invariant lo <= f <= hi && FirstFree(lo, hi, used) == FirstFree(f, hi, used)
      {
        f := f + 1;
      }
      if f == hi {
        return None;
      }
      if user {
        uUsed := uUsed + {f};
      } else {
        kUsed := kUsed + {f};
      }
      r := Some(f);
    }

    /** palloc and page_table_add for one page; false is a halt. */
    method MapPage(sp: nat, page: nat) returns (ok: bool)
      requires sp in spaces
      modifies this
      ensures ok == MapOne(old(State()), sp, page).Some?
      ensures ok ==> State() == MapOne(old(State()), sp, page).value
    {
      hide Palloc;
      var r := TakeFrame(sp != KERNEL);
      if r.None? { return false; }
      var f, dir := r.value, page / 1024;
      if !(dir in spaces[sp].tables || (sp == KERNEL && dir >= KERNEL_DIRS)) {
        var t := TakeFrame(false);
        if t.None? { return false; }
        own := own[t.value := Table(sp, dir)];
        spaces := spaces[sp := spaces[sp].(tables := spaces[sp].tables[dir := t.value])];
      }
      if page in spaces[sp].pt { return false; }
      own := own[f := Page(sp, page)];
      spaces := spaces[sp := spaces[sp].(pt := spaces[sp].pt[page := f])];
      ok := true;
    }

    /** The loop of malloc_page; false is a halt. */
    method MapRun(sp: nat, start: nat, cnt: nat) returns (ok: bool)
      requires sp in spaces
      modifies this
      ensures ok == MapPages(old(State()), sp, start, cnt).Some?
      ensures ok ==> State() == MapPages(old(State()), sp, start, cnt).value
    {
      hide MapOne;
      var page: nat, left: nat := start, cnt;
      while left > 0
        invariant sp in spaces && left <= cnt
        invariant MapPages(old(State()), sp, start, cnt) == MapPages(State(), sp, page, left)
      {
        ok := MapPage(sp, page);
        if !ok { return; }
        page, left := page + 1, left - 1;
      }
      ok := true;
    }

    /** malloc_page. */
    method MallocPages(sp: nat, cnt: nat) returns (a: Answer)
      requires sp in spaces && Inv(State())
      modifies this
      ensures (a == Stopped <==> Halts(old(State()), sp, cnt)) && (a == NoPages <==> AnswersNull(old(State()), sp, cnt))
      ensures var r := MallocPage(old(State()), sp, cnt);
              && (a == Stopped <==> r.Halted?) && (a == NoPages <==> r.Null?)
              && (r.Null? ==> State() == old(State()))
              && (r.Got? ==> State() == r.m && a == Start(r.page) && Inv(State()) && Allocated(old(State()), sp, cnt, State(), r.page))
    {
      hide Inv, Allocated, MapPages, FirstRun, Range, Halts, AnswersNull, Lowest;
      MallocExactly(State(), sp, cnt);
      if MallocPage(State(), sp, cnt).Got? { MallocKeeps(State(), sp, cnt); }
      var s := spaces[sp];
      if !(0 < cnt < 3840) || Range(0, s.n) <= s.bits { return Stopped; }
      var i := ScanRun(s.bits, s.n, cnt);
      if i + cnt > s.n { return NoPages; }
      if sp != KERNEL && s.start + i >= STACK_PAGE { return Stopped; }
      spaces := spaces[sp := s.(bits := s.bits + Range(i, cnt))];
      var ok := MapRun(sp, s.start + i, cnt);
      a := if ok then Start(s.start + i) else Stopped;
    }

    /** pfree and page_table_pte_remove for one page. */
    method UnmapPage(sp: nat, page: nat)
      requires sp in spaces && page in spaces[sp].pt
      modifies this
      ensures State() == UnmapOne(old(State()), sp, page)
    {
      var f := spaces[sp].pt[page];
      if f >= uStart {
        uUsed := uUsed - {f};
      } else {
        kUsed := kUsed - {f};
      }
      own := own - {f};
      spaces := spaces[sp := spaces[sp].(pt := spaces[sp].pt - {page})];
    }

    method UnmapRun(sp: nat, start: nat, cnt: nat)
      requires sp in spaces && forall p :: start <= p < start + cnt ==> p in spaces[sp].pt
      modifies this
      ensures State() == UnmapPages(old(State()), sp, start, cnt)
    {
      var page: nat, left: nat := start, cnt;
      while left > 0
        invariant sp in spaces && left <= cnt
        invariant forall q :: page <= q < page + left ==> q in spaces[sp].pt
        invariant UnmapPages(old(State()), sp, start, cnt) == UnmapPages(State(), sp, page, left)
      {
        UnmapPage(sp, page);
        page, left := page + 1, left - 1;
      }
    }

    /** mfree_page. */
    method MfreePages(sp: nat, page: nat, cnt: nat)
      requires sp in spaces && Inv(State()) && spaces[sp].start <= page
      requires forall p :: page <= p < page + cnt ==> p in spaces[sp].pt
      modifies this
      ensures Inv(State()) && State() == MfreePage(old(State()), sp, page, cnt)
    {
      hide Inv, InvWith, UnmapPages, Range;
      MfreeKeeps(State(), sp, page, cnt);
      AnySpaceBack(State(), sp);
      UnmapPagesKeeps(State(), sp, page, cnt, {});
      var i := page - spaces[sp].start;
      UnmapRun(sp, page, cnt);
      spaces := spaces[sp := spaces[sp].(bits := spaces[sp].bits - Range(i, cnt))];
    }
  }

  /** bitmap_scan on the bitmap of a virtual pool. */
  method ScanRun(bits: set<nat>, n: nat, cnt: nat) returns (i: nat)
    ensures i == FirstRun(bits, n, cnt, 0)
  {
    i := 0;
    while i + cnt <= n && !(Range(i, cnt) !! bits)
      invariant FirstRun(bits, n, cnt, 0) == FirstRun(bits, n, cnt, i)
      decreases n + 1 - i
    {
      i := i + 1;
    }
  }
}
