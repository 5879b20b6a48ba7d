/** The heaps of the kernel and of the processes over the pages that malloc_page maps for them. */
module HeapSpace {
  import opened Basics
  import H = Heap
  import A = AddressSpace

  const PG := H.PG_SIZE

  // ---------------------------------------------------------------- sys_malloc and sys_free with their page calls

  /** Stopped is a halt inside malloc_page. */
  datatype Outcome = Stopped | Null | Given(m: A.Mem, h: H.Heap, b: nat)

  function Malloc(m: A.Mem, sp: nat, h: H.Heap, size: nat, poolSize: nat): Outcome
    requires sp in m.spaces && |h.free| == H.DESC_CNT
  {
    if !(0 < size < poolSize) then Null
    else if H.Needs(h, size) == 0 then Handed(m, H.Malloc(h, size, poolSize, None))
    else
      match A.MallocPage(m, sp, H.Needs(h, size))
      case Halted => Stopped
      case Null => Null
      case Got(m', page) => Handed(m', H.Malloc(h, size, poolSize, Some(page * PG)))
  }

  function Handed(m: A.Mem, r: H.Result): Outcome {
    match r
    case Null => Null
    case Block(h, b) => Given(m, h, b)
  }

  function PageCount(x: H.Arena): nat { if x.Small? then 1 else x.pages }

  predicate Mapped(s: A.Space, page: nat, cnt: nat) {
    s.start <= page && forall p :: page <= p < page + cnt ==> p in s.pt
  }

  /** None: mfree_page is called for a page that is not mapped. */
  function Free(m: A.Mem, sp: nat, h: H.Heap, b: nat): Option<(A.Mem, H.Heap)>
    requires sp in m.spaces && |h.free| == H.DESC_CNT && b in h.live && H.Block2Arena(b) in h.arenas
  {
    var a, h' := H.Block2Arena(b), H.Free(h, b);
    if a in h'.arenas then Some((m, h'))
    else if Mapped(m.spaces[sp], a / PG, PageCount(h.arenas[a])) then
      Some((A.MfreePage(m, sp, a / PG, PageCount(h.arenas[a])), h'))
    else None
  }

  // ---------------------------------------------------------------- what holds between calls

  /** The pages of an arena are mapped. */
  predicate Backs(s: A.Space, a: nat, x: H.Arena) { Mapped(s, a / PG, PageCount(x)) }

  predicate Backed(s: A.Space, h: H.Heap) {
    forall a :: a in h.arenas ==> Backs(s, a, h.arenas[a])
  }

  /** Page p is not part of any arena. */
  predicate Outside(h: H.Heap, page: nat, cnt: nat) {
    forall a :: a in h.arenas ==> page + cnt <= a / PG || a / PG + PageCount(h.arenas[a]) <= page
  }

  lemma InPages(a: nat, n: nat)
    requires a % PG == 0
    ensures a / PG * PG == a && (a + n * PG) == (a / PG + n) * PG
  {
  }

  /** Arenas lie apart as addresses exactly when they do as pages. */
  lemma ApartAsPages(a: nat, x: H.Arena, b: nat, y: H.Arena)
    requires H.ArenaOk(a, x) && H.ArenaOk(b, y)
    ensures H.Disjoint(a, x, b, y) <==> a / PG + PageCount(x) <= b / PG || b / PG + PageCount(y) <= a / PG
  {
    InPages(a, PageCount(x));
    InPages(b, PageCount(y));
    Scaled(a / PG + PageCount(x), b / PG);
    Scaled(b / PG + PageCount(y), a / PG);
  }

  lemma Scaled(i: nat, j: nat)
    ensures i <= j <==> i * PG <= j * PG
  {
  }

  /** Pages that were not mapped are apart from every arena. */
  lemma UnmappedIsOutside(s: A.Space, h: H.Heap, page: nat, cnt: nat)
    requires Backed(s, h) && cnt > 0 && (forall p :: page <= p < page + cnt ==> p !in s.pt)
    requires forall a :: a in h.arenas ==> H.ArenaOk(a, h.arenas[a])
    ensures Outside(h, page, cnt)
  {
    forall a | a in h.arenas ensures page + cnt <= a / PG || a / PG + PageCount(h.arenas[a]) <= page {
      assert Backs(s, a, h.arenas[a]) && H.ArenaOk(a, h.arenas[a]);
      var p := if page <= a / PG then a / PG else page;
      assert p < a / PG + PageCount(h.arenas[a]) ==> p in s.pt;
      assert p < page + cnt ==> p !in s.pt;
    }
  }

  lemma ArenasOk(h: H.Heap)
    requires H.Inv(h)
    ensures forall a :: a in h.arenas ==> H.ArenaOk(a, h.arenas[a])
    ensures |h.free| == H.DESC_CNT
  {
    hide H.Lists, H.Live, H.Counts;
    FreeLists(h);
  }

  lemma FreeLists(h: H.Heap)
    requires H.Lists(h)
    ensures |h.free| == H.DESC_CNT
  {
  }

  /** What malloc_page returns is no part of the heap yet. */
  lemma GivenIsFresh(h: H.Heap, page: nat, x: H.Arena)
    requires H.ArenaOk(page * PG, x) && Outside(h, page, PageCount(x))
    requires forall a :: a in h.arenas ==> H.ArenaOk(a, h.arenas[a])
    ensures H.Fresh(h, page * PG, x)
  {
    forall b | b in h.arenas ensures H.Disjoint(page * PG, x, b, h.arenas[b]) {
      ApartAsPages(page * PG, x, b, h.arenas[b]);
    }
  }

  lemma SamePages(x: H.Arena, y: H.Arena)
    requires H.SamePlace(x, y)
    ensures PageCount(x) == PageCount(y)
  {
  }

  /** The space with some more pages, or the same. */
  predicate PagesGrow(s: A.Space, s': A.Space) {
    s'.start == s.start && s.pt.Keys <= s'.pt.Keys
  }

  lemma BackedGrows(s: A.Space, s': A.Space, h: H.Heap, r: H.Heap, grows: bool, page: nat, x: H.Arena)
    requires Backed(s, h) && PagesGrow(s, s') && H.ArenasGrow(h, r, grows, page * PG, x)
    requires grows ==> Mapped(s', page, PageCount(x))
    ensures Backed(s', r)
  {
    forall a | a in r.arenas ensures Backs(s', a, r.arenas[a]) {
      if grows && a == page * PG {
        SamePages(x, r.arenas[a]);
        InPages(a, 0);
      } else {
        assert Backs(s, a, h.arenas[a]);
        SamePages(h.arenas[a], r.arenas[a]);
      }
    }
  }

  lemma NeedsPages(h: H.Heap, size: nat)
    requires |h.free| == H.DESC_CNT && H.Needs(h, size) > 0
    ensures PageCount(H.ArenaFor(size)) == H.Needs(h, size)
    ensures forall page: nat :: H.ArenaOk(page * PG, H.ArenaFor(size))
  {
    hide H.PagesFor, H.PerArena;
    forall page: nat ensures H.ArenaOk(page * PG, H.ArenaFor(size)) {
      Multiple(page);
    }
  }

  lemma Multiple(page: nat)
    ensures (page * PG) % PG == 0 && page * PG / PG == page
  {
  }

  /** What one call leaves true of a space and its heap. */
  ghost predicate Good(m: A.Mem, sp: nat, h: H.Heap) {
    sp in m.spaces && H.Inv(h) && Backed(m.spaces[sp], h)
  }

  /** What the pages given mean for the heap. */
  lemma PagesArrive(m: A.Mem, sp: nat, h: H.Heap, size: nat)
    requires A.Inv(m) && Good(m, sp, h) && |h.free| == H.DESC_CNT
    requires H.Needs(h, size) > 0 && A.MallocPage(m, sp, H.Needs(h, size)).Got?
    ensures var g := A.MallocPage(m, sp, H.Needs(h, size));
            && A.Inv(g.m) && A.Framed(m, g.m, sp) && PagesGrow(m.spaces[sp], g.m.spaces[sp])
            && H.Fresh(h, g.page * PG, H.ArenaFor(size)) && Mapped(g.m.spaces[sp], g.page, H.Needs(h, size))
            && PageCount(H.ArenaFor(size)) == H.Needs(h, size)
  {
    hide A.Inv, A.MallocPage, H.Inv, A.Range, H.Needs, H.ArenaFor, H.ArenaOk, H.Fresh, Backed, Outside;
    var cnt := H.Needs(h, size);
    A.MallocKeeps(m, sp, cnt);
    var g := A.MallocPage(m, sp, cnt);
    ArenasOk(h);
    NeedsPages(h, size);
    UnmappedIsOutside(m.spaces[sp], h, g.page, cnt);
    GivenIsFresh(h, g.page, H.ArenaFor(size));
    forall p | g.page <= p < g.page + cnt ensures p in g.m.spaces[sp].pt {
      A.InRange(p, g.page, cnt);
    }
  }

  /**
   * sys_malloc over the page allocator: a block that was not live, with room for the size, in pages that are mapped;
   * NULL changes nothing, and no other space is touched.
   */
  lemma MallocKeeps(m: A.Mem, sp: nat, h: H.Heap, size: nat, poolSize: nat)
    requires A.Inv(m) && Good(m, sp, h) && |h.free| == H.DESC_CNT
    ensures var r := Malloc(m, sp, h, size, poolSize);
            && (r.Null? <==> !(0 < size < poolSize) || (H.Needs(h, size) > 0 && A.AnswersNull(m, sp, H.Needs(h, size))))
            && (r.Stopped? <==> 0 < size < poolSize && H.Needs(h, size) > 0 && A.Halts(m, sp, H.Needs(h, size)))
            && (r.Given? ==>
                  && A.Inv(r.m) && A.Framed(m, r.m, sp) && Good(r.m, sp, r.h)
                  && r.b !in h.live && r.h.live == h.live[r.b := size])
  {
    hide A.Inv, A.MallocPage, A.Framed, H.Inv, H.Needs, H.ArenaFor, H.Fresh, H.Malloc, Backed, Mapped, H.ArenasGrow, PagesGrow;
    hide A.AnswersNull, A.Halts, A.Lowest;
    A.MallocExactly(m, sp, H.Needs(h, size));
    if 0 < size < poolSize {
      if H.Needs(h, size) == 0 {
        H.MallocKeeps(h, size, poolSize, None);
        SameGrows(m, sp);
        BackedGrows(m.spaces[sp], m.spaces[sp], h, H.Malloc(h, size, poolSize, None).h, false, 0, H.ArenaFor(size));
      } else if A.MallocPage(m, sp, H.Needs(h, size)).Got? {
        PagesArrive(m, sp, h, size);
        var g := A.MallocPage(m, sp, H.Needs(h, size));
        FramedHas(m, g.m, sp);
        H.MallocKeeps(h, size, poolSize, Some(g.page * PG));
        BackedGrows(m.spaces[sp], g.m.spaces[sp], h, H.Malloc(h, size, poolSize, Some(g.page * PG)).h, true, g.page, H.ArenaFor(size));
      }
    }
  }

  lemma SameGrows(m: A.Mem, sp: nat)
    requires sp in m.spaces
    ensures PagesGrow(m.spaces[sp], m.spaces[sp]) && A.Framed(m, m, sp)
  {
  }

  lemma FramedHas(m: A.Mem, r: A.Mem, sp: nat)
    requires A.Framed(m, r, sp)
    ensures sp in m.spaces && sp in r.spaces && r.spaces.Keys == m.spaces.Keys
    ensures forall id :: id in m.spaces && id != sp ==> r.spaces[id] == m.spaces[id]
  {
  }

  /** The space without the pages of one arena. */
  lemma BackedShrinks(s: A.Space, s': A.Space, h: H.Heap, r: H.Heap, a: nat)
    requires Backed(s, h) && H.Arenas(h) && a in h.arenas && H.ArenasShrink(h, r, a) && a !in r.arenas
    requires s'.start == s.start && s'.pt.Keys == s.pt.Keys - A.Range(a / PG, PageCount(h.arenas[a]))
    ensures Backed(s', r)
  {
    hide A.Range, H.Disjoint;
    forall c | c in r.arenas ensures Backs(s', c, r.arenas[c]) {
      assert Backs(s, c, h.arenas[c]);
      SamePages(h.arenas[c], r.arenas[c]);
      assert H.ArenaOk(a, h.arenas[a]) && H.ArenaOk(c, h.arenas[c]) && H.Disjoint(a, h.arenas[a], c, h.arenas[c]);
      ApartAsPages(a, h.arenas[a], c, h.arenas[c]);
      forall p | c / PG <= p < c / PG + PageCount(r.arenas[c]) ensures p in s'.pt {
        A.InRange(p, a / PG, PageCount(h.arenas[a]));
      }
    }
  }

  lemma BackedSame(s: A.Space, h: H.Heap, r: H.Heap, a: nat)
    requires Backed(s, h) && H.ArenasShrink(h, r, a)
    ensures Backed(s, r)
  {
    forall c | c in r.arenas ensures Backs(s, c, r.arenas[c]) {
      assert Backs(s, c, h.arenas[c]);
      SamePages(h.arenas[c], r.arenas[c]);
    }
  }

  lemma HeapArenas(h: H.Heap)
    requires H.Inv(h)
    ensures H.Arenas(h)
  {
  }

  /** sys_free of a live block: the pages that it gives back are mapped, and what is left is in order. */
  lemma FreeKeeps(m: A.Mem, sp: nat, h: H.Heap, b: nat)
    requires A.Inv(m) && Good(m, sp, h) && |h.free| == H.DESC_CNT && b in h.live && H.Block2Arena(b) in h.arenas
    ensures var r := Free(m, sp, h, b);
            && r.Some? && A.Inv(r.value.0) && A.Framed(m, r.value.0, sp) && Good(r.value.0, sp, r.value.1)
            && r.value.1.live == h.live - {b}
            && (r.value.0 == m || forall c :: c in r.value.1.live ==> H.Block2Arena(c) != H.Block2Arena(b))
  {
    hide A.Inv, A.MfreePage, A.Framed, H.Inv, H.Free, H.Block2Arena, Backed, H.ArenasShrink, H.Arenas, A.Range;
    var a, h' := H.Block2Arena(b), H.Free(h, b);
    H.FreeKeeps(h, b);
    SameGrows(m, sp);
    if a in h'.arenas {
      BackedSame(m.spaces[sp], h, h', a);
    } else {
      BacksAt(m.spaces[sp], h, a);
      var cnt := PageCount(h.arenas[a]);
      A.MfreeKeeps(m, sp, a / PG, cnt);
      HeapArenas(h);
      FramedHas(m, A.MfreePage(m, sp, a / PG, cnt), sp);
      BackedShrinks(m.spaces[sp], A.MfreePage(m, sp, a / PG, cnt).spaces[sp], h, h', a);
    }
  }

  /** Every arena has a live block. */
  lemma ArenaHasLive(h: H.Heap, a: nat)
    requires H.Inv(h) && a in h.arenas
    ensures exists c :: c in h.live && H.Block2Arena(c) == a
  {
    if h.arenas[a].Small? {
      hide H.Inv, H.Block2Arena;
      H.CountIsExact(h, a);
    } else {
      hide H.Lists, H.Live, H.IsBlock;
      assert H.ArenaOk(a, h.arenas[a]) && H.Accounted(h, a, h.arenas[a]);
      H.HeaderOf(a);
      assert a + H.HEADER in h.live;
    }
  }

  /** The block handed out lies in the arena that is new. */
  lemma InTheNewArena(h: H.Heap, r: H.Heap, b: nat, size: nat, a: nat)
    requires H.Inv(h) && H.Inv(r) && r.live == h.live[b := size] && a in r.arenas && a !in h.arenas
    ensures H.Block2Arena(b) == a
  {
    hide H.Sound, H.Block2Arena;
    ArenaHasLive(r, a);
    var c :| c in r.live && H.Block2Arena(c) == a;
    if c in h.live { H.LiveArena(h, c); }
  }

  lemma ArenaStays(h: H.Heap, b: nat, c: nat)
    requires H.Inv(h) && b in h.live && c in h.live && c != b && H.Block2Arena(c) == H.Block2Arena(b)
    requires |h.free| == H.DESC_CNT && H.Block2Arena(b) in h.arenas
    ensures H.Block2Arena(b) in H.Free(h, b).arenas
  {
    hide H.Inv, H.Block2Arena, H.Free;
    H.FreeKeeps(h, b);
    assert c in H.Free(h, b).live;
  }

  lemma ArenaGoes(h: H.Heap, b: nat)
    requires H.Inv(h) && b in h.live && (forall c :: c in h.live && c != b ==> H.Block2Arena(c) != H.Block2Arena(b))
    requires |h.free| == H.DESC_CNT && H.Block2Arena(b) in h.arenas
    ensures H.Block2Arena(b) !in H.Free(h, b).arenas
  {
    hide H.Inv, H.Block2Arena, H.Free;
    H.FreeKeeps(h, b);
  }

  /** sys_malloc out of an arena that is there, then sys_free. */
  lemma UndoesWithin(m: A.Mem, sp: nat, h: H.Heap, size: nat, poolSize: nat)
    requires A.Inv(m) && Good(m, sp, h) && |h.free| == H.DESC_CNT && 0 < size < poolSize && H.Needs(h, size) == 0
    ensures var r := Malloc(m, sp, h, size, poolSize);
            && r.Given? && r.m == m && |r.h.free| == H.DESC_CNT && r.b in r.h.live && H.Block2Arena(r.b) in r.h.arenas
            && Free(r.m, sp, r.h, r.b) == Some((m, H.Free(r.h, r.b)))
  {
    hide A.Inv, H.Inv, H.Needs, H.ArenaFor, H.Malloc, Backed, Mapped, H.Free, H.Block2Arena;
    H.MallocKeeps(h, size, poolSize, None);
    var r := Malloc(m, sp, h, size, poolSize);
    LiveIn(r.h, r.b);
    ArenaHasLive(h, H.Block2Arena(r.b));
    var c :| c in h.live && H.Block2Arena(c) == H.Block2Arena(r.b);
    ArenaStays(r.h, r.b, c);
  }

  lemma LiveIn(h: H.Heap, b: nat)
    requires H.Inv(h) && b in h.live
    ensures |h.free| == H.DESC_CNT && H.Block2Arena(b) in h.arenas
  {
    hide H.Sound, H.Block2Arena;
    H.LiveArena(h, b);
  }

  /** sys_malloc that takes pages, then sys_free: the same pages go back. */
  lemma UndoesPages(m: A.Mem, sp: nat, h: H.Heap, size: nat, poolSize: nat)
    requires A.Inv(m) && Good(m, sp, h) && |h.free| == H.DESC_CNT && 0 < size < poolSize
    requires H.Needs(h, size) > 0 && A.MallocPage(m, sp, H.Needs(h, size)).Got?
    ensures var r, g := Malloc(m, sp, h, size, poolSize), A.MallocPage(m, sp, H.Needs(h, size));
            && r.Given? && |r.h.free| == H.DESC_CNT && r.b in r.h.live && H.Block2Arena(r.b) in r.h.arenas
            && sp in r.m.spaces && Mapped(g.m.spaces[sp], g.page, H.Needs(h, size))
            && Free(r.m, sp, r.h, r.b) == Some((A.MfreePage(g.m, sp, g.page, H.Needs(h, size)), H.Free(r.h, r.b)))
  {
    hide A.Inv, A.MallocPage, A.MfreePage, A.Framed, H.Inv, H.Needs, H.ArenaFor, H.Malloc, H.Free, H.Block2Arena, Backed, Mapped, PagesGrow;
    PagesArrive(m, sp, h, size);
    var g := A.MallocPage(m, sp, H.Needs(h, size));
    FramedHas(m, g.m, sp);
    H.MallocKeeps(h, size, poolSize, Some(g.page * PG));
    var r := Malloc(m, sp, h, size, poolSize);
    var a := g.page * PG;
    ArenasOk(h);
    FreshIsNew(h, a, H.ArenaFor(size));
    InTheNewArena(h, r.h, r.b, size, a);
    LiveIn(r.h, r.b);
    SamePages(H.ArenaFor(size), r.h.arenas[a]);
    Multiple(g.page);
    forall c | c in r.h.live && c != r.b ensures H.Block2Arena(c) != a { LiveIn(h, c); }
    ArenaGoes(r.h, r.b);
  }

  lemma FreshIsNew(h: H.Heap, a: nat, x: H.Arena)
    requires H.Fresh(h, a, x) && forall b :: b in h.arenas ==> H.ArenaOk(b, h.arenas[b])
    ensures a !in h.arenas
  {
  }

  /**
   * sys_free of what sys_malloc has just handed out: the live blocks, the pages and the bits of the space, and the
   * frames of the user pool are as before; without new pages nothing of the page allocator has changed at all.
   */
  lemma FreeUndoesMalloc(m: A.Mem, sp: nat, h: H.Heap, size: nat, poolSize: nat)
    requires A.Inv(m) && Good(m, sp, h) && |h.free| == H.DESC_CNT && Malloc(m, sp, h, size, poolSize).Given?
    ensures var r := Malloc(m, sp, h, size, poolSize);
            && sp in r.m.spaces && |r.h.free| == H.DESC_CNT && r.b in r.h.live && H.Block2Arena(r.b) in r.h.arenas
            && var f := Free(r.m, sp, r.h, r.b);
               && f.Some? && f.value.1.live == h.live && A.Framed(m, f.value.0, sp) && sp in f.value.0.spaces
               && f.value.0.spaces[sp].pt == m.spaces[sp].pt && f.value.0.spaces[sp].bits == m.spaces[sp].bits
               && f.value.0.uUsed == m.uUsed && (H.Needs(h, size) == 0 ==> f.value.0 == m)
  {
    hide A.Inv, A.MallocPage, A.MfreePage, A.Framed, H.Inv, H.Needs, H.Malloc, H.Free, H.Block2Arena, Backed, Mapped, Free, H.ArenasShrink;
    MallocKeeps(m, sp, h, size, poolSize);
    var r := Malloc(m, sp, h, size, poolSize);
    if H.Needs(h, size) == 0 {
      UndoesWithin(m, sp, h, size, poolSize);
      SameGrows(m, sp);
    } else {
      UndoesPages(m, sp, h, size, poolSize);
      A.MfreeUndoesMalloc(m, sp, H.Needs(h, size));
      FramedHas(m, A.MfreePage(A.MallocPage(m, sp, H.Needs(h, size)).m, sp, A.MallocPage(m, sp, H.Needs(h, size)).page, H.Needs(h, size)), sp);
    }
    H.FreeKeeps(r.h, r.b);
    assert h.live[r.b := size] - {r.b} == h.live;
  }

  lemma BacksAt(s: A.Space, h: H.Heap, a: nat)
    requires Backed(s, h) && a in h.arenas
    ensures Mapped(s, a / PG, PageCount(h.arenas[a]))
  {
    assert Backs(s, a, h.arenas[a]);
  }

  // ---------------------------------------------------------------- every run

  /** The page allocator and the heap of the kernel and of every process. */
  datatype Kernel = Kernel(m: A.Mem, heaps: map<nat, H.Heap>)

  /** Calls of sys_malloc and sys_free, and the other uses of malloc_page and mfree_page. */
  datatype Action =
    | DoMalloc(sp: nat, size: nat, poolSize: nat)
    | DoFree(sp: nat, b: nat)
    | TakePages(sp: nat, cnt: nat)
    | GivePages(sp: nat, page: nat, cnt: nat)
    | NewProcess(sp: nat)

  predicate HeapFormed(h: H.Heap) {
    |h.free| == H.DESC_CNT && forall b :: b in h.live ==> H.Block2Arena(b) in h.arenas
  }

  predicate Formed(k: Kernel) {
    k.heaps.Keys == k.m.spaces.Keys && forall id :: id in k.heaps ==> HeapFormed(k.heaps[id])
  }

  /** A block is freed once; pages that are given back are mapped and not the heap's. */
  predicate Enabled(k: Kernel, x: Action) {
    Formed(k) &&
    match x
    case DoMalloc(sp, size, poolSize) => sp in k.heaps && !Malloc(k.m, sp, k.heaps[sp], size, poolSize).Stopped?
    case DoFree(sp, b) => sp in k.heaps && b in k.heaps[sp].live
    case TakePages(sp, cnt) => sp in k.heaps && !A.MallocPage(k.m, sp, cnt).Halted?
    case GivePages(sp, page, cnt) => sp in k.heaps && cnt >= 1 && Mapped(k.m.spaces[sp], page, cnt) && Outside(k.heaps[sp], page, cnt)
    case NewProcess(sp) => sp !in k.heaps && sp != A.KERNEL
  }

  function Step(k: Kernel, x: Action): Kernel
    requires Enabled(k, x)
  {
    match x
    case DoMalloc(sp, size, poolSize) =>
      var r := Malloc(k.m, sp, k.heaps[sp], size, poolSize);
      if r.Given? then Kernel(r.m, k.heaps[sp := r.h]) else k
    case DoFree(sp, b) =>
      var r := Free(k.m, sp, k.heaps[sp], b);
      if r.Some? then Kernel(r.value.0, k.heaps[sp := r.value.1]) else k
    case TakePages(sp, cnt) =>
      var r := A.MallocPage(k.m, sp, cnt);
      if r.Got? then k.(m := r.m) else k
    case GivePages(sp, page, cnt) => k.(m := A.MfreePage(k.m, sp, page, cnt))
    case NewProcess(sp) => Kernel(A.SetSpace(k.m, sp, A.USER_SPACE), k.heaps[sp := H.EMPTY])
  }

  ghost predicate Inv(k: Kernel) {
    A.Inv(k.m) && k.heaps.Keys == k.m.spaces.Keys && forall id :: id in k.heaps ==> Good(k.m, id, k.heaps[id])
  }

  /** One space and its heap have moved on. */
  lemma OneMoves(k: Kernel, k': Kernel, sp: nat)
    requires Inv(k) && sp in k.heaps && A.Inv(k'.m) && A.Framed(k.m, k'.m, sp)
    requires k'.heaps.Keys == k.heaps.Keys && Good(k'.m, sp, k'.heaps[sp])
    requires forall id :: id in k.heaps && id != sp ==> k'.heaps[id] == k.heaps[id]
    ensures Inv(k')
  {
    hide A.Inv, H.Inv, Backed;
    forall id | id in k'.heaps ensures Good(k'.m, id, k'.heaps[id]) {
      assert Good(k.m, id, k.heaps[id]);
    }
  }

  lemma GoodFormed(h: H.Heap)
    requires H.Inv(h)
    ensures HeapFormed(h)
  {
    hide H.Sound, H.Block2Arena;
    ArenasOk(h);
    forall b | b in h.live ensures H.Block2Arena(b) in h.arenas {
      H.LiveArena(h, b);
    }
  }

  /** The heap stays backed when pages are added, and when pages of no arena are taken away. */
  lemma BackedMore(s: A.Space, s': A.Space, h: H.Heap)
    requires Backed(s, h) && PagesGrow(s, s')
    ensures Backed(s', h)
  {
    forall a | a in h.arenas ensures Backs(s', a, h.arenas[a]) {
      assert Backs(s, a, h.arenas[a]);
    }
  }

  lemma BackedLess(s: A.Space, s': A.Space, h: H.Heap, page: nat, cnt: nat)
    requires Backed(s, h) && Outside(h, page, cnt) && s'.start == s.start && s'.pt.Keys == s.pt.Keys - A.Range(page, cnt)
    ensures Backed(s', h)
  {
    hide A.Range;
    forall a | a in h.arenas ensures Backs(s', a, h.arenas[a]) {
      assert Backs(s, a, h.arenas[a]);
      forall p | a / PG <= p < a / PG + PageCount(h.arenas[a]) ensures p in s'.pt {
        A.InRange(p, page, cnt);
      }
    }
  }

  lemma TakeKeeps(k: Kernel, sp: nat, cnt: nat)
    requires Inv(k) && sp in k.heaps && sp in k.m.spaces && A.MallocPage(k.m, sp, cnt).Got?
    ensures Inv(k.(m := A.MallocPage(k.m, sp, cnt).m))
  {
    hide A.Inv, A.MallocPage, H.Inv, A.Range, Backed;
    assert Good(k.m, sp, k.heaps[sp]);
    A.MallocKeeps(k.m, sp, cnt);
    var r := A.MallocPage(k.m, sp, cnt).m;
    BackedMore(k.m.spaces[sp], r.spaces[sp], k.heaps[sp]);
    OneMoves(k, k.(m := r), sp);
  }

  lemma GiveKeeps(k: Kernel, sp: nat, page: nat, cnt: nat)
    requires Inv(k) && sp in k.heaps && sp in k.m.spaces && Mapped(k.m.spaces[sp], page, cnt) && Outside(k.heaps[sp], page, cnt)
    ensures Inv(k.(m := A.MfreePage(k.m, sp, page, cnt)))
  {
    hide A.Inv, A.MfreePage, H.Inv, A.Range, Backed, Outside;
    assert Good(k.m, sp, k.heaps[sp]);
    A.MfreeKeeps(k.m, sp, page, cnt);
    var r := A.MfreePage(k.m, sp, page, cnt);
    BackedLess(k.m.spaces[sp], r.spaces[sp], k.heaps[sp], page, cnt);
    OneMoves(k, k.(m := r), sp);
  }

  lemma StartKeeps(k: Kernel, sp: nat)
    requires Inv(k) && sp !in k.heaps
    ensures Inv(Kernel(A.SetSpace(k.m, sp, A.USER_SPACE), k.heaps[sp := H.EMPTY]))
  {
    hide A.Inv, H.Inv, Backed;
    A.NewProcessKeeps(k.m, sp);
    H.EmptyInv();
    EmptyBacked(A.USER_SPACE);
    var k' := Kernel(A.SetSpace(k.m, sp, A.USER_SPACE), k.heaps[sp := H.EMPTY]);
    forall id | id in k'.heaps ensures Good(k'.m, id, k'.heaps[id]) {
      assert id != sp ==> Good(k.m, id, k.heaps[id]);
    }
  }

  lemma EmptyBacked(s: A.Space)
    ensures Backed(s, H.EMPTY)
  {
  }

  /** Every call keeps the heaps in order and backed by mapped pages. */
  lemma StepKeeps(k: Kernel, x: Action)
    requires Inv(k) && Enabled(k, x)
    ensures Inv(Step(k, x))
  {
    hide A.Inv, H.Inv, Backed, A.MallocPage, A.MfreePage, Malloc, Free, Outside, Mapped, A.Framed, H.Block2Arena;
    match x {
      case DoMalloc(sp, size, poolSize) =>
        assert Good(k.m, sp, k.heaps[sp]);
        MallocKeeps(k.m, sp, k.heaps[sp], size, poolSize);
        if Malloc(k.m, sp, k.heaps[sp], size, poolSize).Given? { OneMoves(k, Step(k, x), sp); }
      case DoFree(sp, b) =>
        assert Good(k.m, sp, k.heaps[sp]);
        FreeKeeps(k.m, sp, k.heaps[sp], b);
        OneMoves(k, Step(k, x), sp);
      case TakePages(sp, cnt) => if A.MallocPage(k.m, sp, cnt).Got? { TakeKeeps(k, sp, cnt); }
      case GivePages(sp, page, cnt) => GiveKeeps(k, sp, page, cnt);
      case NewProcess(sp) => StartKeeps(k, sp);
    }
  }

  predicate CanRun(k: Kernel, acts: seq<Action>)
    decreases |acts|
  {
    acts == [] || (Enabled(k, acts[0]) && CanRun(Step(k, acts[0]), acts[1..]))
  }

  function Run(k: Kernel, acts: seq<Action>): Kernel
    requires CanRun(k, acts)
    decreases |acts|
  {
    if acts == [] then k else Run(Step(k, acts[0]), acts[1..])
  }

  lemma {:induction false} RunKeeps(k: Kernel, acts: seq<Action>)
    requires Inv(k) && CanRun(k, acts)
    ensures Inv(Run(k, acts))
    decreases |acts|
  {
    hide Inv, Enabled, Step;
    if acts != [] {
      StepKeeps(k, acts[0]);
      RunKeeps(Step(k, acts[0]), acts[1..]);
    }
  }

  function Boot(allMem: nat): Kernel { Kernel(A.Boot(allMem), map[A.KERNEL := H.EMPTY]) }

  lemma BootInv(allMem: nat)
    requires allMem < 0x1_0000_0000
    ensures Inv(Boot(allMem))
  {
    A.BootInv(allMem);
    hide A.Inv, H.Inv, Backed, A.PoolInit;
    H.EmptyInv();
    EmptyBacked(A.Boot(allMem).spaces[A.KERNEL]);
  }

  /** The pages that hold n bytes from address b on. */
  predicate Holds(b: nat, n: nat, p: nat) {
    b < (p + 1) * PG && p * PG < b + n
  }

  lemma LiveIsMapped(m: A.Mem, sp: nat, h: H.Heap, b: nat, p: nat)
    requires Good(m, sp, h) && b in h.live && Holds(b, h.live[b], p)
    ensures p in m.spaces[sp].pt
  {
    hide H.Sound, H.Block2Arena;
    H.LiveInside(h, b);
    H.LiveArena(h, b);
    var a := H.Block2Arena(b);
    BacksAt(m.spaces[sp], h, a);
    InPages(a, PageCount(h.arenas[a]));
    Between(a / PG, PageCount(h.arenas[a]), p);
  }

  lemma Between(lo: nat, n: nat, p: nat)
    requires lo * PG < (p + 1) * PG && p * PG < (lo + n) * PG
    ensures lo <= p < lo + n
  {
  }

  /**
   * After every run from the start, with sys_malloc and sys_free of the kernel and of any processes and any other
   * page calls between them: a live block has room for what was asked, overlaps no other live block of its space and
   * no arena header, every page of it is mapped, and no frame of it is under a live block of another space.
   */
  lemma HeapIsSafe(allMem: nat, acts: seq<Action>, sp: nat, b: nat, c: nat, a: nat, p: nat, sp': nat, b': nat, p': nat)
    requires allMem < 0x1_0000_0000 && CanRun(Boot(allMem), acts)
    requires sp in Run(Boot(allMem), acts).heaps && b in Run(Boot(allMem), acts).heaps[sp].live
    ensures var k := Run(Boot(allMem), acts);
            && k.heaps.Keys == k.m.spaces.Keys
            && var h, s := k.heaps[sp], k.m.spaces[sp];
               && H.LiveBlock(h, b, h.live[b])
               && (c in h.live && b < c ==> b + h.live[b] <= c)
               && (a in h.arenas ==> b + h.live[b] <= a || a + H.HEADER <= b)
               && (Holds(b, h.live[b], p) ==> p in s.pt)
               && (sp' in k.heaps && sp' != sp && b' in k.heaps[sp'].live && Holds(b, h.live[b], p) && Holds(b', k.heaps[sp'].live[b'], p') ==>
                     p' in k.m.spaces[sp'].pt && s.pt[p] != k.m.spaces[sp'].pt[p'])
  {
    hide *;
    BootInv(allMem);
    RunKeeps(Boot(allMem), acts);
    SafeNow(Run(Boot(allMem), acts), sp, b, c, a);
    SafePages(Run(Boot(allMem), acts), sp, b, p, sp', b', p');
  }

  lemma InvAt(k: Kernel, sp: nat)
    requires Inv(k) && sp in k.heaps
    ensures A.Inv(k.m) && k.heaps.Keys == k.m.spaces.Keys && Good(k.m, sp, k.heaps[sp])
    ensures sp in k.m.spaces && H.Inv(k.heaps[sp]) && H.Sound(k.heaps[sp])
  {
    hide A.Inv, H.Sound, Backed;
  }

  lemma SafeNow(k: Kernel, sp: nat, b: nat, c: nat, a: nat)
    requires Inv(k) && sp in k.heaps && b in k.heaps[sp].live
    ensures k.heaps.Keys == k.m.spaces.Keys
    ensures var h := k.heaps[sp];
            && H.LiveBlock(h, b, h.live[b])
            && (c in h.live && b < c ==> b + h.live[b] <= c)
            && (a in h.arenas ==> b + h.live[b] <= a || a + H.HEADER <= b)
  {
    hide *;
    InvAt(k, sp);
    var h := k.heaps[sp];
    H.LiveArena(h, b);
    if c in h.live && b < c { H.LiveApart(h, b, c); }
    if a in h.arenas { H.LiveClearOfHeaders(h, b, a); }
  }

  lemma SafePages(k: Kernel, sp: nat, b: nat, p: nat, sp': nat, b': nat, p': nat)
    requires Inv(k) && sp in k.heaps && b in k.heaps[sp].live && k.heaps.Keys == k.m.spaces.Keys
    ensures var h, s := k.heaps[sp], k.m.spaces[sp];
            && (Holds(b, h.live[b], p) ==> p in s.pt)
            && (sp' in k.heaps && sp' != sp && b' in k.heaps[sp'].live && Holds(b, h.live[b], p) && Holds(b', k.heaps[sp'].live[b'], p') ==>
                  p' in k.m.spaces[sp'].pt && s.pt[p] != k.m.spaces[sp'].pt[p'])
  {
    hide *;
    InvAt(k, sp);
    if Holds(b, k.heaps[sp].live[b], p) {
      LiveIsMapped(k.m, sp, k.heaps[sp], b, p);
      A.EntryFrame(k.m, sp, p);
      if sp' in k.heaps && sp' != sp && b' in k.heaps[sp'].live && Holds(b', k.heaps[sp'].live[b'], p') {
        InvAt(k, sp');
        LiveIsMapped(k.m, sp', k.heaps[sp'], b', p');
        A.EntryFrame(k.m, sp', p');
      }
    }
  }

  lemma InvFormed(k: Kernel)
    requires Inv(k)
    ensures Formed(k)
  {
    hide A.Inv, H.Inv, HeapFormed, Backed;
    forall id | id in k.heaps ensures HeapFormed(k.heaps[id]) {
      assert Good(k.m, id, k.heaps[id]);
      GoodFormed(k.heaps[id]);
    }
  }

  /** After every such run any live block can be freed, and the pages that this gives back are mapped. */
  lemma LiveCanBeFreed(allMem: nat, acts: seq<Action>, sp: nat, b: nat)
    requires allMem < 0x1_0000_0000 && CanRun(Boot(allMem), acts)
    requires sp in Run(Boot(allMem), acts).heaps && b in Run(Boot(allMem), acts).heaps[sp].live
    ensures var k := Run(Boot(allMem), acts);
            && Enabled(k, DoFree(sp, b))
            && sp in k.m.spaces && HeapFormed(k.heaps[sp]) && Free(k.m, sp, k.heaps[sp], b).Some?
  {
    hide Inv, H.Inv, A.Inv, Good, Run, CanRun, Boot, H.Free, A.MfreePage, A.Framed, H.Block2Arena;
    BootInv(allMem);
    RunKeeps(Boot(allMem), acts);
    var k := Run(Boot(allMem), acts);
    InvFormed(k);
    InvAt(k, sp);
    FreeKeeps(k.m, sp, k.heaps[sp], b);
  }

  /** After every such run an arena's count is the number of its blocks on the free list, and not all of them. */
  lemma CountsAreExact(allMem: nat, acts: seq<Action>, sp: nat, a: nat)
    requires allMem < 0x1_0000_0000 && CanRun(Boot(allMem), acts) && sp in Run(Boot(allMem), acts).heaps
    requires var h := Run(Boot(allMem), acts).heaps[sp]; a in h.arenas && h.arenas[a].Small?
    ensures var h := Run(Boot(allMem), acts).heaps[sp];
            && h.arenas[a].k < |h.free| && h.arenas[a].cnt == |H.FreeIn(h.free[h.arenas[a].k], a)| < H.PerArena(h.arenas[a].k)
            && exists b :: b in h.live && H.Block2Arena(b) == a
  {
    hide *;
    BootInv(allMem);
    RunKeeps(Boot(allMem), acts);
    InvAt(Run(Boot(allMem), acts), sp);
    H.CountIsExact(Run(Boot(allMem), acts).heaps[sp], a);
  }

  lemma Follow(k: Kernel, x: Action, acts: seq<Action>)
    requires Enabled(k, x)
    ensures CanRun(k, [x] + acts) <==> CanRun(Step(k, x), acts)
    ensures CanRun(k, [x] + acts) ==> Run(k, [x] + acts) == Run(Step(k, x), acts)
  {
    hide Enabled, Step;
    assert ([x] + acts)[1..] == acts;
  }

  lemma Ends(k: Kernel)
    ensures CanRun(k, []) && Run(k, []) == k
  {
  }

  predicate SameBlocks(k: Kernel, r: Kernel) {
    && r.heaps.Keys == k.heaps.Keys == r.m.spaces.Keys == k.m.spaces.Keys
    && forall id :: id in k.heaps ==> r.heaps[id].live == k.heaps[id].live && r.m.spaces[id].pt == k.m.spaces[id].pt
  }

  /** The two calls as a run: the heap of every space has the live blocks it had, in the pages it had. */
  lemma MallocThenFree(k: Kernel, sp: nat, size: nat, poolSize: nat, b: nat)
    requires Enabled(k, DoMalloc(sp, size, poolSize)) && Inv(k)
    requires var r := Malloc(k.m, sp, k.heaps[sp], size, poolSize); r.Given? && r.b == b
    ensures b !in k.heaps[sp].live && Step(k, DoMalloc(sp, size, poolSize)).heaps[sp].live == k.heaps[sp].live[b := size]
    ensures var acts := [DoMalloc(sp, size, poolSize), DoFree(sp, b)]; CanRun(k, acts) && SameBlocks(k, Run(k, acts))
  {
    hide A.Inv, H.Inv, Good, Malloc, Free, H.Block2Arena, A.Framed, CanRun, Run, HeapFormed;
    var x := DoMalloc(sp, size, poolSize);
    InvAt(k, sp);
    FreeUndoesMalloc(k.m, sp, k.heaps[sp], size, poolSize);
    MallocKeeps(k.m, sp, k.heaps[sp], size, poolSize);
    var r := Malloc(k.m, sp, k.heaps[sp], size, poolSize);
    StepKeeps(k, x);
    var k1 := Step(k, x);
    InvFormed(k1);
    var y := DoFree(sp, r.b);
    var k2 := Step(k1, y);
    FramedHas(k.m, k2.m, sp);
    Ends(k2);
    Follow(k1, y, []);
    Follow(k, x, [y]);
    assert [y] + [] == [y] && [x] + [y] == [x, y];
  }

  // ---------------------------------------------------------------- the code

  datatype Reply = Halt | NullPointer | Pointer(b: nat)

  /** The heap of one space, on the pages of the page allocator. */
  class Allocator {
    const pages: A.PageAllocator
    const sp: nat
    var arenas: map<nat, H.Arena>
    var free: seq<seq<nat>>
    ghost var live: map<nat, nat>

    ghost function State(): H.Heap
      reads this
    {
      H.Heap(arenas, free, live)
    }

    ghost predicate Valid()
      reads this, pages
    {
      A.Inv(pages.State()) && Good(pages.State(), sp, State()) && |free| == H.DESC_CNT
    }

    constructor (pages: A.PageAllocator, sp: nat)
      requires sp in pages.spaces && A.Inv(pages.State())
      ensures Valid() && State() == H.EMPTY && this.pages == pages && this.sp == sp
    {
      this.pages, this.sp := pages, sp;
      arenas, free, live := map[], [[], [], [], [], [], [], []], map[];
      new;
      H.EmptyInv();
      hide A.Inv, H.Inv;
    }

    /** sys_malloc. */
    method SysMalloc(size: nat, poolSize: nat) returns (r: Reply)
      requires Valid()
      modifies this, pages
      ensures var o := Malloc(old(pages.State()), sp, old(State()), size, poolSize);
              && (r == Halt <==> o.Stopped?) && (r == NullPointer <==> o.Null?)
              && (o.Null? ==> Valid() && State() == old(State()) && pages.State() == old(pages.State()))
              && (o.Given? ==> Valid() && r == Pointer(o.b) && State() == o.h && pages.State() == o.m)
    {
      hide A.AnswersNull, A.Halts, A.Lowest;
      hide A.Inv, H.Inv, Backed, A.MallocPage, A.Framed, A.Allocated, H.Fresh, H.Block2Arena, H.IsBlock, H.PerArena, H.PagesFor, Mapped, PagesGrow;
      ghost var m, h := pages.State(), State();
      MallocKeeps(m, sp, h, size, poolSize);
      if !(0 < size < poolSize) { return NullPointer; }
      if size > 1024 {
        var cnt := H.PagesFor(size);
        H.PagesSuffice(size);
        var a := pages.MallocPages(sp, cnt);
        match a {
          case Stopped => return Halt;
          case NoPages => return NullPointer;
          case Start(page) =>
            live := live[page * PG + H.HEADER := size];
            arenas := arenas[page * PG := H.Large(cnt)];
            return Pointer(page * PG + H.HEADER);
        }
      }
      var k := H.FindDesc(size);
      if free[k] == [] {
        var a := pages.MallocPages(sp, 1);
        match a {
          case Stopped => return Halt;
          case NoPages => return NullPointer;
          case Start(page) =>
            PagesArrive(m, sp, h, size);
            H.RefillFacts(h, size, page * PG);
            var q := H.CutBlocks(free[k], page * PG, k);
            arenas, free := arenas[page * PG := H.Small(k, H.PerArena(k))], free[k := q];
        }
      } else {
        H.RefillFacts(h, size, 0);
      }
      var b := free[k][0];
      live := live[b := size];
      free := free[k := free[k][1..]];
      arenas := arenas[H.Block2Arena(b) := H.Small(k, arenas[H.Block2Arena(b)].cnt - 1)];
      r := Pointer(b);
    }

    /** sys_free of a block that was handed out. */
    method SysFree(b: nat)
      requires Valid() && b in live && H.Block2Arena(b) in arenas
      modifies this, pages
      ensures Valid() && live == old(live) - {b}
      ensures Free(old(pages.State()), sp, old(State()), b) == Some((pages.State(), State()))
    {
      hide A.Inv, H.Sound, Backed, A.MfreePage, A.Framed, H.Block2Arena, H.IsBlock, H.PerArena, H.Purge;
      ghost var m, h := pages.State(), State();
      FreeKeeps(m, sp, h, b);
      H.FreeKeeps(h, b);
      H.LiveArena(h, b);
      var a := H.Block2Arena(b);
      BacksAt(pages.spaces[sp], h, a);
      if arenas[a].Large? {
        H.AloneInLarge(h, b);
        var cnt := arenas[a].pages;
        arenas, live := arenas - {a}, live - {b};
        pages.MfreePages(sp, a / PG, cnt);
        return;
      }
      H.PutKeeps(h, b);
      var k := arenas[a].k;
      free := free[k := free[k] + [b]];
      arenas := arenas[a := H.Small(k, arenas[a].cnt + 1)];
      live := live - {b};
      if arenas[a].cnt == H.PerArena(k) {
        H.AllOnList(State(), a);
        var q := H.TakeBlocksOff(free[k], a, k);
        free, arenas := free[k := q], arenas - {a};
        pages.MfreePages(sp, a / PG, 1);
      }
    }
  }
}
