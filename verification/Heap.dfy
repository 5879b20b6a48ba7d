/** The arena allocator of kernel/memory.c: sys_malloc and sys_free over whole pages. */
module Heap {
  import opened Basics

  const PG_SIZE := 4096
  const HEADER := 12  // sizeof(struct arena)
  const DESC_CNT := 7

  /** block_desc_init: the sizes double from 16 to 1024. */
  function Size(k: nat): (s: nat)
    ensures s > 0
  {
    if k == 0 then 16 else if k == 1 then 32 else if k == 2 then 64 else if k == 3 then 128
    else if k == 4 then 256 else if k == 5 then 512 else 1024
  }

  function PerArena(k: nat): nat { (PG_SIZE - HEADER) / Size(k) }

  /** An arena of small blocks knows its descriptor and how many of its blocks are free; a large one its pages. */
  datatype Arena = Small(k: nat, cnt: nat) | Large(pages: nat)

  /** arenas by address, the seven free lists, and (auxiliary) what was asked for each block handed out. */
  datatype Heap = Heap(arenas: map<nat, Arena>, free: seq<seq<nat>>, live: map<nat, nat>)

  // ---------------------------------------------------------------- addresses

  function Arena2Block(a: nat, k: nat, i: nat): nat { a + HEADER + i * Size(k) }

  /** The address with its low twelve bits cleared. */
  function Block2Arena(b: nat): nat { b - b % PG_SIZE }

  /** Where the blocks of size class k lie in a page. */
  predicate IsBlock(b: nat, k: nat) {
    var o := b % PG_SIZE;
    o >= HEADER && (o - HEADER) % Size(k) == 0 && (o - HEADER) / Size(k) < PerArena(k)
  }

  function Index(b: nat, k: nat): nat
    requires IsBlock(b, k)
  {
    (b % PG_SIZE - HEADER) / Size(k)
  }

  lemma Offsets(k: nat, i: nat)
    requires k < DESC_CNT && i < PerArena(k)
    ensures i * Size(k) + Size(k) <= PG_SIZE - HEADER
    ensures (i * Size(k)) % Size(k) == 0 && (i * Size(k)) / Size(k) == i
  {
    var s := Size(k);
    assert (i + 1) * s <= PerArena(k) * s;
    assert PerArena(k) * s <= PG_SIZE - HEADER;
    assert (i + 1) * s == i * s + s;
    if k == 0 { assert i * 16 % 16 == 0 && i * 16 / 16 == i; }
    else if k == 1 { assert i * 32 % 32 == 0 && i * 32 / 32 == i; }
    else if k == 2 { assert i * 64 % 64 == 0 && i * 64 / 64 == i; }
    else if k == 3 { assert i * 128 % 128 == 0 && i * 128 / 128 == i; }
    else if k == 4 { assert i * 256 % 256 == 0 && i * 256 / 256 == i; }
    else if k == 5 { assert i * 512 % 512 == 0 && i * 512 / 512 == i; }
    else { assert i * 1024 % 1024 == 0 && i * 1024 / 1024 == i; }
  }

  lemma Spaced(i: nat, j: nat, s: nat)
    requires s > 0 && i * s < j * s
    ensures i * s + s <= j * s
  {
    Ordered(i, j, s);
    Monotone(i + 1, j, s);
    assert (i + 1) * s == i * s + s;
  }

  lemma {:induction false} Monotone(i: nat, j: nat, s: nat)
    requires i <= j
    ensures i * s <= j * s
    decreases j
  {
    if i < j {
      Monotone(i, j - 1, s);
      assert j * s == (j - 1) * s + s;
    }
  }

  lemma Ordered(i: nat, j: nat, s: nat)
    ensures i * s < j * s ==> i < j
  {
    if j <= i { Monotone(j, i, s); }
  }

  /** block2arena inverts arena2block, and a block does not leave its page. */
  lemma BlockInArena(a: nat, k: nat, i: nat)
    requires a % PG_SIZE == 0 && k < DESC_CNT && i < PerArena(k)
    ensures var b := Arena2Block(a, k, i);
            Block2Arena(b) == a && IsBlock(b, k) && Index(b, k) == i && a + HEADER <= b && b + Size(k) <= a + PG_SIZE
  {
    Offsets(k, i);
    var b := Arena2Block(a, k, i);
    PageOf(a, b - a);
  }

  lemma PageOf(a: nat, o: nat)
    requires a % PG_SIZE == 0 && o < PG_SIZE
    ensures (a + o) % PG_SIZE == o
  {
  }

  /** Every block is the block of its arena that its index says. */
  lemma ArenaOfBlock(b: nat, k: nat)
    requires k < DESC_CNT && IsBlock(b, k)
    ensures var a := Block2Arena(b);
            && a % PG_SIZE == 0 && Index(b, k) < PerArena(k) && b == Arena2Block(a, k, Index(b, k))
            && a + HEADER <= b && b + Size(k) <= a + PG_SIZE
  {
    var o, s := b % PG_SIZE, Size(k);
    assert o - HEADER == (o - HEADER) / s * s + (o - HEADER) % s;
    Offsets(k, Index(b, k));
  }

  /** Two blocks of one arena do not overlap. */
  lemma BlocksApart(b: nat, c: nat, k: nat)
    requires k < DESC_CNT && IsBlock(b, k) && IsBlock(c, k) && b < c
    ensures b + Size(k) <= c
  {
    ArenaOfBlock(b, k);
    ArenaOfBlock(c, k);
    var a, d := Block2Arena(b), Block2Arena(c);
    var i, j, s := Index(b, k), Index(c, k), Size(k);
    if a == d {
      Spaced(i, j, s);
    } else {
      assert a + PG_SIZE <= d || d + PG_SIZE <= a;
    }
  }

  // ---------------------------------------------------------------- what holds between calls

  function Bytes(x: Arena): nat { if x.Small? then PG_SIZE else x.pages * PG_SIZE }

  predicate ArenaOk(a: nat, x: Arena) {
    a % PG_SIZE == 0 && if x.Small? then x.k < DESC_CNT else x.pages >= 1
  }

  predicate Disjoint(a: nat, x: Arena, b: nat, y: Arena) {
    a + Bytes(x) <= b || b + Bytes(y) <= a
  }

  predicate Arenas(h: Heap) {
    && (forall a :: a in h.arenas ==> ArenaOk(a, h.arenas[a]))
    && (forall a, b :: a in h.arenas && b in h.arenas && a != b ==> Disjoint(a, h.arenas[a], b, h.arenas[b]))
  }

  /** The block lies in a small arena of class k. */
  predicate InSmall(h: Heap, b: nat, k: nat) {
    IsBlock(b, k) && Block2Arena(b) in h.arenas && h.arenas[Block2Arena(b)].Small? && h.arenas[Block2Arena(b)].k == k
  }

  predicate Lists(h: Heap) {
    && |h.free| == DESC_CNT
    && (forall k :: 0 <= k < DESC_CNT ==> NoDup(h.free[k]))
    && (forall k, b :: 0 <= k < DESC_CNT && b in h.free[k] ==> InSmall(h, b, k) && b !in h.live)
  }

  /** A live block has room for what was asked, inside its arena and behind the header. */
  predicate LiveBlock(h: Heap, b: nat, size: nat) {
    && Block2Arena(b) in h.arenas && size > 0
    && match h.arenas[Block2Arena(b)]
       case Small(k, _) => IsBlock(b, k) && size <= Size(k)
       case Large(pages) => b == Block2Arena(b) + HEADER && HEADER + size <= pages * PG_SIZE
  }

  predicate Live(h: Heap) {
    forall b :: b in h.live ==> LiveBlock(h, b, h.live[b])
  }

  /** The blocks of arena a that are on the free list q. */
  function FreeIn(q: seq<nat>, a: nat): set<nat> {
    set b | b in q && Block2Arena(b) == a
  }

  /** Every block of an arena is live or free, and the header counts the free ones. */
  ghost predicate Accounted(h: Heap, a: nat, x: Arena) {
    match x
    case Small(k, cnt) =>
      && k < |h.free| && cnt == |FreeIn(h.free[k], a)|
      && (forall b :: Block2Arena(b) == a && IsBlock(b, k) ==> b in h.live || b in h.free[k])
    case Large(_) => a + HEADER in h.live
  }

  ghost predicate Counts(h: Heap) {
    forall a :: a in h.arenas ==> Accounted(h, a, h.arenas[a])
  }

  /** A page all of whose blocks are free is given back. */
  predicate Busy(h: Heap) {
    forall a :: a in h.arenas && h.arenas[a].Small? ==> h.arenas[a].cnt < PerArena(h.arenas[a].k)
  }

  ghost predicate Sound(h: Heap) {
    Arenas(h) && Lists(h) && Live(h) && Counts(h)
  }

  ghost predicate Inv(h: Heap) { Sound(h) && Busy(h) }

  // ---------------------------------------------------------------- free lists

  lemma FreeInTail(q: seq<nat>, a: nat)
    requires NoDup(q) && q != []
    ensures NoDup(q[1..]) && q[0] !in q[1..] && (forall b :: b in q <==> b == q[0] || b in q[1..])
    ensures FreeIn(q[1..], a) == FreeIn(q, a) - {q[0]}
  {
    hide Block2Arena;
    assert forall b :: b in q <==> b == q[0] || b in q[1..];
  }

  lemma FreeInAppend(q: seq<nat>, b: nat, a: nat)
    requires NoDup(q) && b !in q
    ensures NoDup(q + [b]) && FreeIn(q + [b], a) == FreeIn(q, a) + (if Block2Arena(b) == a then {b} else {})
  {
    hide Block2Arena;
  }

  // ---------------------------------------------------------------- the steps of sys_malloc and sys_free

  predicate Takeable(h: Heap, k: nat) {
    k < |h.free| && h.free[k] != [] && InSmall(h, h.free[k][0], k) && h.arenas[Block2Arena(h.free[k][0])].cnt > 0
  }

  /** list_pop on the free list, and the count in the header. */
  function TakeBlock(h: Heap, k: nat, size: nat): Heap
    requires Takeable(h, k)
  {
    var b := h.free[k][0];
    var a := Block2Arena(b);
    Heap(h.arenas[a := Small(k, h.arenas[a].cnt - 1)], h.free[k := h.free[k][1..]], h.live[b := size])
  }

  lemma TakeCan(h: Heap, k: nat)
    requires Sound(h) && k < DESC_CNT && h.free[k] != []
    ensures Takeable(h, k) && h.free[k][0] !in h.live
  {
    var b := h.free[k][0];
    var a := Block2Arena(b);
    assert InSmall(h, b, k);
    assert Accounted(h, a, h.arenas[a]);
    assert b in FreeIn(h.free[k], a);
  }

  lemma TakeLists(h: Heap, k: nat, size: nat)
    requires Sound(h) && k < DESC_CNT && Takeable(h, k)
    ensures Lists(TakeBlock(h, k, size))
  {
    TakeCan(h, k);
    var b := h.free[k][0];
    FreeInTail(h.free[k], 0);
    hide IsBlock, Block2Arena, Size, PerArena, NoDup, Counts, Live, Arenas;
    var r := TakeBlock(h, k, size);
    forall j, c | 0 <= j < DESC_CNT && c in r.free[j] ensures InSmall(r, c, j) && c !in r.live {
      assert c in h.free[j];
      assert InSmall(h, c, j);
    }
  }

  lemma TakeCounts(h: Heap, k: nat, size: nat)
    requires Sound(h) && k < DESC_CNT && Takeable(h, k)
    ensures Counts(TakeBlock(h, k, size))
  {
    TakeCan(h, k);
    var b := h.free[k][0];
    var r := TakeBlock(h, k, size);
    hide IsBlock, Block2Arena, Size, PerArena, NoDup, Live, Arenas;
    hide Accounted, TakeBlock;
    forall a | a in r.arenas ensures Accounted(r, a, r.arenas[a]) {
      TakeArenas(h, k, size);
      assert Accounted(h, a, h.arenas[a]);
      TakeCount(h, k, size, a);
    }
  }

  lemma TakeArenas(h: Heap, k: nat, size: nat)
    requires Takeable(h, k)
    ensures TakeBlock(h, k, size).arenas.Keys == h.arenas.Keys
  {
    hide IsBlock, Block2Arena;
  }

  lemma TakeCount(h: Heap, k: nat, size: nat, a: nat)
    requires Takeable(h, k) && NoDup(h.free[k]) && a in h.arenas && Accounted(h, a, h.arenas[a])
    ensures a in TakeBlock(h, k, size).arenas && Accounted(TakeBlock(h, k, size), a, TakeBlock(h, k, size).arenas[a])
  {
    hide IsBlock, Block2Arena, Size, PerArena, NoDup;
    var b := h.free[k][0];
    FreeInTail(h.free[k], a);
    assert b in FreeIn(h.free[k], a) <==> Block2Arena(b) == a;
  }

  lemma TakeLive(h: Heap, k: nat, size: nat)
    requires Sound(h) && k < DESC_CNT && Takeable(h, k) && 0 < size <= Size(k)
    ensures Live(TakeBlock(h, k, size))
  {
    hide IsBlock, Block2Arena, Size, PerArena, NoDup, Counts, Lists, Arenas;
    var r := TakeBlock(h, k, size);
    forall b | b in r.live ensures LiveBlock(r, b, r.live[b]) {
      assert b in h.live ==> LiveBlock(h, b, h.live[b]);
    }
  }

  predicate SamePlace(x: Arena, y: Arena) {
    x == y || (x.Small? && y.Small? && x.k == y.k)
  }

  /** The arenas are where they were; only counts have changed. */
  predicate SamePlaces(h: Heap, r: Heap) {
    && r.arenas.Keys == h.arenas.Keys
    && forall a :: a in h.arenas ==> SamePlace(h.arenas[a], r.arenas[a])
  }

  lemma PlacesKept(h: Heap, r: Heap)
    requires Arenas(h) && SamePlaces(h, r)
    ensures Arenas(r)
  {
    forall a | a in r.arenas ensures ArenaOk(a, r.arenas[a]) {
      assert ArenaOk(a, h.arenas[a]);
    }
    forall a, b | a in r.arenas && b in r.arenas && a != b ensures Disjoint(a, r.arenas[a], b, r.arenas[b]) {
      assert Disjoint(a, h.arenas[a], b, h.arenas[b]);
    }
  }

  lemma TakeKeeps(h: Heap, k: nat, size: nat)
    requires Sound(h) && k < DESC_CNT && Takeable(h, k) && 0 < size <= Size(k)
    ensures Sound(TakeBlock(h, k, size)) && SamePlaces(h, TakeBlock(h, k, size))
  {
    hide Lists, Live, Counts, Arenas;
    TakeLists(h, k, size);
    TakeCounts(h, k, size);
    TakeLive(h, k, size);
    PlacesKept(h, TakeBlock(h, k, size));
  }

  // ---------------------------------------------------------------- a new arena

  function NewBlocks(a: nat, k: nat, n: nat): (q: seq<nat>)
    ensures |q| == n && forall i :: 0 <= i < n ==> q[i] == Arena2Block(a, k, i)
  {
    if n == 0 then [] else NewBlocks(a, k, n - 1) + [Arena2Block(a, k, n - 1)]
  }

  /** The page is no part of the heap yet. */
  predicate Fresh(h: Heap, a: nat, x: Arena) {
    ArenaOk(a, x) && forall b :: b in h.arenas ==> Disjoint(a, x, b, h.arenas[b])
  }

  function AddArena(h: Heap, a: nat, k: nat): Heap
    requires k < |h.free|
  {
    h.(arenas := h.arenas[a := Small(k, PerArena(k))], free := h.free[k := h.free[k] + NewBlocks(a, k, PerArena(k))])
  }

  lemma NewBlocksAre(a: nat, k: nat)
    requires a % PG_SIZE == 0 && k < DESC_CNT
    ensures NoDup(NewBlocks(a, k, PerArena(k)))
    ensures forall b :: b in NewBlocks(a, k, PerArena(k)) <==> Block2Arena(b) == a && IsBlock(b, k)
  {
    var q := NewBlocks(a, k, PerArena(k));
    forall i | 0 <= i < |q| ensures Block2Arena(q[i]) == a && IsBlock(q[i], k) && Index(q[i], k) == i {
      BlockInArena(a, k, i);
    }
    forall b | Block2Arena(b) == a && IsBlock(b, k) ensures b in q {
      ArenaOfBlock(b, k);
      assert q[Index(b, k)] == b;
    }
  }

  lemma AllFree(a: nat, k: nat, q: seq<nat>)
    requires a % PG_SIZE == 0 && k < DESC_CNT && forall b :: b in q ==> Block2Arena(b) != a
    ensures FreeIn(q + NewBlocks(a, k, PerArena(k)), a) == Elems(NewBlocks(a, k, PerArena(k)))
    ensures |FreeIn(q + NewBlocks(a, k, PerArena(k)), a)| == PerArena(k)
  {
    NewBlocksAre(a, k);
    hide Block2Arena, IsBlock;
    ElemsCount(NewBlocks(a, k, PerArena(k)));
  }

  function Elems(q: seq<nat>): set<nat> { set b | b in q }

  lemma {:induction false} ElemsCount(q: seq<nat>)
    requires NoDup(q)
    ensures |Elems(q)| == |q|
  {
    if q == [] {
      assert Elems(q) == {};
    } else {
      FreeInTail(q, 0);
      ElemsCount(q[1..]);
      assert Elems(q) == Elems(q[1..]) + {q[0]};
    }
  }

  lemma FreshIsNew(h: Heap, a: nat, x: Arena)
    requires Arenas(h) && Fresh(h, a, x)
    ensures a !in h.arenas
  {
    forall b | b in h.arenas ensures b != a {
      assert ArenaOk(b, h.arenas[b]);
      assert Disjoint(a, x, b, h.arenas[b]);
    }
  }

  lemma AddPlaces(h: Heap, r: Heap, a: nat, x: Arena)
    requires Arenas(h) && Fresh(h, a, x) && r.arenas == h.arenas[a := x]
    ensures Arenas(r)
  {
    forall b, c | b in r.arenas && c in r.arenas && b != c ensures Disjoint(b, r.arenas[b], c, r.arenas[c]) {
      if b == a { assert Disjoint(a, x, c, h.arenas[c]); }
      if c == a { assert Disjoint(a, x, b, h.arenas[b]); }
    }
  }

  /** Live blocks stay where they are when an arena is added or the list of a class changes. */
  lemma LiveKept(h: Heap, r: Heap)
    requires Live(h) && r.live == h.live
    requires forall a :: a in h.arenas ==> a in r.arenas && SamePlace(h.arenas[a], r.arenas[a])
    ensures Live(r)
  {
    hide IsBlock, Block2Arena, Size;
    forall b | b in r.live ensures LiveBlock(r, b, r.live[b]) {
      assert LiveBlock(h, b, h.live[b]);
    }
  }

  lemma LiveInArenas(h: Heap)
    requires Live(h)
    ensures forall b :: b in h.live ==> Block2Arena(b) in h.arenas
  {
    forall b | b in h.live ensures Block2Arena(b) in h.arenas {
      assert LiveBlock(h, b, h.live[b]);
    }
  }

  lemma AddLists(h: Heap, a: nat, k: nat)
    requires Sound(h) && k < DESC_CNT && a !in h.arenas && a % PG_SIZE == 0
    ensures Lists(AddArena(h, a, k))
  {
    hide IsBlock, Block2Arena, Size, PerArena, Counts, Arenas, NewBlocks;
    NewBlocksAre(a, k);
    var r := AddArena(h, a, k);
    var q, n := h.free[k], NewBlocks(a, k, PerArena(k));
    forall b | b in q ensures Block2Arena(b) != a {
      assert InSmall(h, b, k);
    }
    NoDupConcat(q, n);
    hide NoDup;
    LiveInArenas(h);
    forall j, b | 0 <= j < DESC_CNT && b in r.free[j] ensures InSmall(r, b, j) && b !in r.live {
      if b in h.free[j] { assert InSmall(h, b, j); }
    }
  }

  lemma AddCounts(h: Heap, a: nat, k: nat)
    requires Sound(h) && k < DESC_CNT && a !in h.arenas && a % PG_SIZE == 0
    ensures Counts(AddArena(h, a, k))
  {
    hide IsBlock, Block2Arena, Size, PerArena, Arenas, NewBlocks, NoDup, Live;
    NewBlocksAre(a, k);
    var r := AddArena(h, a, k);
    var q, n := h.free[k], NewBlocks(a, k, PerArena(k));
    forall b | b in q ensures Block2Arena(b) != a {
      assert InSmall(h, b, k);
    }
    AllFree(a, k, q);
    forall c | c in r.arenas ensures Accounted(r, c, r.arenas[c]) {
      if c != a {
        assert Accounted(h, c, h.arenas[c]);
        assert FreeIn(q + n, c) == FreeIn(q, c);
      }
    }
  }

  lemma AddKeeps(h: Heap, a: nat, k: nat)
    requires Sound(h) && k < DESC_CNT && Fresh(h, a, Small(k, PerArena(k)))
    ensures Sound(AddArena(h, a, k)) && AddArena(h, a, k).free[k] != [] && a !in h.arenas
  {
    hide Lists, Live, Counts, Arenas;
    FreeListThere(h, k);
    var r := AddArena(h, a, k);
    FreshIsNew(h, a, Small(k, PerArena(k)));
    AddPlaces(h, r, a, Small(k, PerArena(k)));
    AddLists(h, a, k);
    AddCounts(h, a, k);
    LiveKept(h, r);
  }

  lemma FreeListThere(h: Heap, k: nat)
    requires Lists(h) && k < DESC_CNT
    ensures k < |h.free| && PerArena(k) > 0
  {
  }

  // ---------------------------------------------------------------- giving back

  function PutBlock(h: Heap, b: nat): Heap
    requires Block2Arena(b) in h.arenas && h.arenas[Block2Arena(b)].Small? && h.arenas[Block2Arena(b)].k < |h.free|
  {
    var a := Block2Arena(b);
    var k, cnt := h.arenas[a].k, h.arenas[a].cnt;
    Heap(h.arenas[a := Small(k, cnt + 1)], h.free[k := h.free[k] + [b]], h.live - {b})
  }

  /** What sys_free needs of its argument: that it was handed out and not yet given back. */
  predicate LiveSmall(h: Heap, b: nat) {
    b in h.live && Block2Arena(b) in h.arenas && h.arenas[Block2Arena(b)].Small? && h.arenas[Block2Arena(b)].k < |h.free|
  }

  lemma PutLists(h: Heap, b: nat)
    requires Sound(h) && LiveSmall(h, b)
    ensures Lists(PutBlock(h, b))
  {
    hide IsBlock, Block2Arena, Size, PerArena, Counts, Arenas;
    var a := Block2Arena(b);
    var k := h.arenas[a].k;
    assert LiveBlock(h, b, h.live[b]);
    var r := PutBlock(h, b);
    FreeInAppend(h.free[k], b, a);
    hide NoDup;
    forall j, c | 0 <= j < DESC_CNT && c in r.free[j] ensures InSmall(r, c, j) && c !in r.live {
      if c in h.free[j] { assert InSmall(h, c, j); }
    }
  }

  lemma PutCounts(h: Heap, b: nat)
    requires Sound(h) && LiveSmall(h, b)
    ensures Counts(PutBlock(h, b))
  {
    hide IsBlock, Block2Arena, Size, PerArena, Arenas, NoDup;
    var k := h.arenas[Block2Arena(b)].k;
    assert LiveBlock(h, b, h.live[b]);
    assert b !in h.free[k];
    var r := PutBlock(h, b);
    forall a | a in r.arenas ensures Accounted(r, a, r.arenas[a]) {
      assert Accounted(h, a, h.arenas[a]);
      FreeInAppend(h.free[k], b, a);
      if h.arenas[a].Large? { NotTheHeader(h, a, b); }
    }
  }

  /** The block of a small arena is not the one block of a large arena. */
  lemma NotTheHeader(h: Heap, a: nat, b: nat)
    requires Arenas(h) && LiveSmall(h, b) && a in h.arenas && h.arenas[a].Large?
    ensures a + HEADER != b
  {
    assert ArenaOk(a, h.arenas[a]);
    PageOf(a, HEADER);
  }

  lemma PutLive(h: Heap, b: nat)
    requires Sound(h) && LiveSmall(h, b)
    ensures Live(PutBlock(h, b))
  {
    hide IsBlock, Block2Arena, Size, PerArena, Arenas, NoDup, Counts, Lists;
    var r := PutBlock(h, b);
    forall c | c in r.live ensures LiveBlock(r, c, r.live[c]) {
      assert LiveBlock(h, c, h.live[c]);
    }
  }

  lemma PutKeeps(h: Heap, b: nat)
    requires Sound(h) && LiveSmall(h, b)
    ensures Sound(PutBlock(h, b)) && SamePlaces(h, PutBlock(h, b))
  {
    hide Lists, Live, Counts, Arenas;
    PutLists(h, b);
    PutCounts(h, b);
    PutLive(h, b);
    PlacesKept(h, PutBlock(h, b));
  }

  // ---------------------------------------------------------------- a page goes back

  /** The list without the blocks of arena a. */
  function Purge(q: seq<nat>, a: nat): seq<nat> {
    if q == [] then [] else if Block2Arena(q[0]) == a then Purge(q[1..], a) else [q[0]] + Purge(q[1..], a)
  }

  lemma {:induction false} PurgeIs(q: seq<nat>, a: nat)
    requires NoDup(q)
    ensures NoDup(Purge(q, a)) && forall b :: b in Purge(q, a) <==> b in q && Block2Arena(b) != a
  {
    if q != [] {
      hide Block2Arena;
      FreeInTail(q, a);
      PurgeIs(q[1..], a);
      if Block2Arena(q[0]) != a { NoDupConcat([q[0]], Purge(q[1..], a)); }
    }
  }

  function Retire(h: Heap, a: nat): Heap
    requires a in h.arenas && h.arenas[a].Small? && h.arenas[a].k < |h.free|
  {
    var k := h.arenas[a].k;
    h.(arenas := h.arenas - {a}, free := h.free[k := Purge(h.free[k], a)])
  }

  predicate Full(h: Heap, a: nat) {
    a in h.arenas && h.arenas[a].Small? && h.arenas[a].k < |h.free| && h.arenas[a].cnt == PerArena(h.arenas[a].k)
  }

  lemma SubsetEqual(x: set<nat>, y: set<nat>)
    requires x <= y && |x| == |y|
    ensures x == y
  {
    assert y == x + (y - x);
    assert |y - x| == 0;
  }

  /** When the count in the header says so, all the blocks of the arena are on the free list. */
  lemma FullIsFree(h: Heap, a: nat, b: nat)
    requires Sound(h) && Full(h, a) && Block2Arena(b) == a && IsBlock(b, h.arenas[a].k)
    ensures b in h.free[h.arenas[a].k] && b !in h.live
  {
    hide IsBlock, Block2Arena, Size, PerArena, NoDup, Live, NewBlocks;
    var k := h.arenas[a].k;
    assert ArenaOk(a, h.arenas[a]) && Accounted(h, a, h.arenas[a]);
    NewBlocksAre(a, k);
    var all := NewBlocks(a, k, PerArena(k));
    ElemsCount(all);
    NewBlocksLength(a, k);
    var free := FreeIn(h.free[k], a);
    forall c | c in free ensures c in Elems(all) {
      assert InSmall(h, c, k);
    }
    SubsetEqual(free, Elems(all));
    assert b in free;
  }

  lemma NewBlocksLength(a: nat, k: nat)
    ensures |NewBlocks(a, k, PerArena(k))| == PerArena(k)
  {
  }

  lemma RetireLive(h: Heap, a: nat)
    requires Sound(h) && Full(h, a)
    ensures Live(Retire(h, a)) && forall b :: b in h.live ==> Block2Arena(b) != a
  {
    hide IsBlock, Block2Arena, Size, PerArena, NoDup, Counts, Lists, Arenas, Purge;
    var r := Retire(h, a);
    forall b | b in h.live ensures LiveBlock(r, b, h.live[b]) && Block2Arena(b) != a {
      assert LiveBlock(h, b, h.live[b]);
      NoLiveInFull(h, a, b);
    }
  }

  lemma NoLiveInFull(h: Heap, a: nat, b: nat)
    requires Sound(h) && Full(h, a) && b in h.live
    ensures Block2Arena(b) != a
  {
    hide Block2Arena, IsBlock, Size, PerArena, NoDup, Counts, Lists, Arenas;
    assert LiveBlock(h, b, h.live[b]);
    assert Block2Arena(b) == a ==> IsBlock(b, h.arenas[a].k);
    hide LiveBlock, Live;
    if Block2Arena(b) == a { FullIsFree(h, a, b); }
  }

  lemma RetireLists(h: Heap, a: nat)
    requires Sound(h) && Full(h, a)
    ensures Lists(Retire(h, a))
  {
    hide IsBlock, Block2Arena, Size, PerArena, Counts, Arenas, Live, Purge, NoDup;
    var k := h.arenas[a].k;
    PurgeIs(h.free[k], a);
    var r := Retire(h, a);
    forall j, b | 0 <= j < DESC_CNT && b in r.free[j] ensures InSmall(r, b, j) && b !in r.live {
      assert InSmall(h, b, j);
    }
  }

  lemma RetireCounts(h: Heap, a: nat)
    requires Sound(h) && Full(h, a)
    ensures Counts(Retire(h, a))
  {
    hide IsBlock, Block2Arena, Size, PerArena, Arenas, Live, Purge, NoDup;
    var k := h.arenas[a].k;
    PurgeIs(h.free[k], a);
    var r := Retire(h, a);
    forall c | c in r.arenas ensures Accounted(r, c, r.arenas[c]) {
      assert Accounted(h, c, h.arenas[c]);
      assert FreeIn(Purge(h.free[k], a), c) == FreeIn(h.free[k], c);
    }
  }

  lemma RetireKeeps(h: Heap, a: nat)
    requires Sound(h) && Full(h, a)
    ensures Sound(Retire(h, a))
  {
    hide Lists, Live, Counts, Purge;
    RetireLists(h, a);
    RetireCounts(h, a);
    RetireLive(h, a);
  }

  // ---------------------------------------------------------------- whole pages

  function AddLarge(h: Heap, a: nat, pages: nat, size: nat): Heap {
    h.(arenas := h.arenas[a := Large(pages)], live := h.live[a + HEADER := size])
  }

  function DropLarge(h: Heap, a: nat): Heap {
    h.(arenas := h.arenas - {a}, live := h.live - {a + HEADER})
  }

  lemma HeaderOf(a: nat)
    requires a % PG_SIZE == 0
    ensures Block2Arena(a + HEADER) == a
  {
    PageOf(a, HEADER);
  }

  lemma AddLargeLive(h: Heap, a: nat, pages: nat, size: nat)
    requires Live(h) && a !in h.arenas && a % PG_SIZE == 0 && size > 0 && HEADER + size <= pages * PG_SIZE
    ensures Live(AddLarge(h, a, pages, size)) && a + HEADER !in h.live
  {
    hide IsBlock, Block2Arena, Size;
    var r := AddLarge(h, a, pages, size);
    HeaderOf(a);
    LiveInArenas(h);
    forall b | b in r.live ensures LiveBlock(r, b, r.live[b]) {
      assert b in h.live ==> LiveBlock(h, b, h.live[b]);
    }
  }

  lemma AddLargeRest(h: Heap, a: nat, pages: nat, size: nat)
    requires Lists(h) && Counts(h) && a !in h.arenas && a % PG_SIZE == 0
    ensures Lists(AddLarge(h, a, pages, size)) && Counts(AddLarge(h, a, pages, size))
  {
    hide IsBlock, Block2Arena, Size, PerArena, NoDup;
    HeaderOf(a);
    var r := AddLarge(h, a, pages, size);
    forall j, b | 0 <= j < DESC_CNT && b in r.free[j] ensures InSmall(r, b, j) && b !in r.live {
      assert InSmall(h, b, j);
    }
    forall c | c in r.arenas ensures Accounted(r, c, r.arenas[c]) {
      assert c in h.arenas ==> Accounted(h, c, h.arenas[c]);
    }
  }

  lemma AddLargeKeeps(h: Heap, a: nat, pages: nat, size: nat)
    requires Sound(h) && Fresh(h, a, Large(pages)) && size > 0 && HEADER + size <= pages * PG_SIZE
    ensures Sound(AddLarge(h, a, pages, size)) && a !in h.arenas && a + HEADER !in h.live
  {
    hide Lists, Live, Counts, Arenas;
    var r := AddLarge(h, a, pages, size);
    FreshIsNew(h, a, Large(pages));
    AddPlaces(h, r, a, Large(pages));
    AddLargeLive(h, a, pages, size);
    AddLargeRest(h, a, pages, size);
  }

  lemma DropLargeLive(h: Heap, a: nat)
    requires Live(h) && a in h.arenas && h.arenas[a].Large?
    ensures Live(DropLarge(h, a))
  {
    hide IsBlock, Block2Arena, Size;
    var r := DropLarge(h, a);
    forall b | b in r.live ensures LiveBlock(r, b, r.live[b]) {
      assert LiveBlock(h, b, h.live[b]);
    }
  }

  lemma DropLargeRest(h: Heap, a: nat)
    requires Lists(h) && Counts(h) && Arenas(h) && a in h.arenas && h.arenas[a].Large?
    ensures Lists(DropLarge(h, a)) && Counts(DropLarge(h, a))
  {
    hide IsBlock, Block2Arena, Size, PerArena, NoDup;
    assert ArenaOk(a, h.arenas[a]);
    HeaderOf(a);
    var r := DropLarge(h, a);
    forall j, b | 0 <= j < DESC_CNT && b in r.free[j] ensures InSmall(r, b, j) && b !in r.live {
      assert InSmall(h, b, j);
    }
    forall c | c in r.arenas ensures Accounted(r, c, r.arenas[c]) {
      assert Accounted(h, c, h.arenas[c]);
    }
  }

  lemma DropLargeKeeps(h: Heap, a: nat)
    requires Sound(h) && a in h.arenas && h.arenas[a].Large?
    ensures Sound(DropLarge(h, a))
  {
    hide Lists, Live, Counts;
    DropLargeLive(h, a);
    DropLargeRest(h, a);
  }

  // ---------------------------------------------------------------- sys_malloc and sys_free

  /** The smallest class that has room. */
  function DescOf(size: nat, k: nat): (r: nat)
    requires k < DESC_CNT && size <= 1024
    ensures k <= r < DESC_CNT && size <= Size(r) && forall j :: k <= j < r ==> Size(j) < size
    decreases DESC_CNT - k
  {
    if size <= Size(k) then k else DescOf(size, k + 1)
  }

  function PagesFor(size: nat): nat { (size + HEADER + PG_SIZE - 1) / PG_SIZE }

  /** The pages that the call asks malloc_page for. */
  function Needs(h: Heap, size: nat): nat
    requires |h.free| == DESC_CNT
  {
    if size > 1024 then PagesFor(size) else if h.free[DescOf(size, 0)] == [] then 1 else 0
  }

  /** The arena that the pages become. */
  function ArenaFor(size: nat): Arena {
    if size > 1024 then Large(PagesFor(size)) else Small(DescOf(size, 0), PerArena(DescOf(size, 0)))
  }

  function Refill(h: Heap, k: nat, page: nat): Heap
    requires k < |h.free|
  {
    if h.free[k] == [] then AddArena(h, page, k) else h
  }

  datatype Result = Null | Block(h: Heap, b: nat)

  /** page is what malloc_page returns when the call asks for pages; the pool's size only turns sizes away. */
  function Malloc(h: Heap, size: nat, poolSize: nat, page: Option<nat>): Result
    requires |h.free| == DESC_CNT
  {
    if !(0 < size < poolSize) || (Needs(h, size) > 0 && page.None?) then Null
    else
      var p := if page.Some? then page.value else 0;
      if size > 1024 then Block(AddLarge(h, p, PagesFor(size), size), p + HEADER)
      else
        var k := DescOf(size, 0);
        var h1 := Refill(h, k, p);
        if Takeable(h1, k) then Block(TakeBlock(h1, k, size), h1.free[k][0]) else Null
  }

  function Free(h: Heap, b: nat): Heap
    requires b in h.live && Block2Arena(b) in h.arenas && |h.free| == DESC_CNT
  {
    var a := Block2Arena(b);
    match h.arenas[a]
    case Large(_) => DropLarge(h, a)
    case Small(k, _) =>
      if k >= DESC_CNT then h else
      var h1 := PutBlock(h, b);
      if h1.arenas[a].cnt == PerArena(k) then Retire(h1, a) else h1
  }

  lemma PagesSuffice(size: nat)
    ensures HEADER + size <= PagesFor(size) * PG_SIZE < HEADER + size + PG_SIZE
  {
  }

  lemma RefillKeeps(h: Heap, k: nat, page: nat)
    requires Inv(h) && k < DESC_CNT && |h.free| == DESC_CNT && (h.free[k] == [] ==> Fresh(h, page, Small(k, PerArena(k))))
    ensures var h1 := Refill(h, k, page);
            && Sound(h1) && Takeable(h1, k) && h1.live == h.live && h1.free[k][0] !in h.live
            && (forall a :: a in h1.arenas && h1.arenas[a].Small? && a != Block2Arena(h1.free[k][0]) ==>
                  h1.arenas[a].cnt < PerArena(h1.arenas[a].k))
            && h1.arenas[Block2Arena(h1.free[k][0])].cnt <= PerArena(k)
            && (h.free[k] != [] ==> h1 == h) && (h.free[k] == [] ==> h1.arenas.Keys == h.arenas.Keys + {page})
  {
    hide Sound, Arena2Block, Block2Arena, IsBlock, PerArena, Size;
    if h.free[k] == [] {
      AddKeeps(h, page, k);
      FirstOfNew(h, page, k);
    }
    TakeCan(Refill(h, k, page), k);
  }

  lemma FirstOfNew(h: Heap, a: nat, k: nat)
    requires k < DESC_CNT && k < |h.free| && h.free[k] == [] && a % PG_SIZE == 0
    ensures AddArena(h, a, k).free[k] != [] && Block2Arena(AddArena(h, a, k).free[k][0]) == a
  {
    FreeListPositive(k);
    BlockInArena(a, k, 0);
  }

  lemma FreeListPositive(k: nat)
    ensures PerArena(k) > 0
  {
  }

  /** The arenas of h with one more at p, or the same; only counts differ. */
  predicate ArenasGrow(h: Heap, r: Heap, grows: bool, p: nat, x: Arena) {
    && r.arenas.Keys == h.arenas.Keys + (if grows then {p} else {})
    && (forall a :: a in h.arenas && !(grows && a == p) ==> SamePlace(h.arenas[a], r.arenas[a]))
    && (grows ==> SamePlace(x, r.arenas[p]))
  }

  /**
   * sys_malloc hands out a block that was not live, for the size asked, and changes no other. It says NULL exactly
   * when the size is turned away or there are no pages, and then changes nothing.
   */
  lemma MallocKeeps(h: Heap, size: nat, poolSize: nat, page: Option<nat>)
    requires Inv(h) && |h.free| == DESC_CNT
    requires 0 < size < poolSize && Needs(h, size) > 0 && page.Some? ==> Fresh(h, page.value, ArenaFor(size))
    ensures var r := Malloc(h, size, poolSize, page);
            && (r.Null? <==> !(0 < size < poolSize) || (Needs(h, size) > 0 && page.None?))
            && (r.Block? ==>
                  && Inv(r.h) && |r.h.free| == DESC_CNT && r.b !in h.live && r.h.live == h.live[r.b := size]
                  && ArenasGrow(h, r.h, Needs(h, size) > 0, if page.Some? then page.value else 0, ArenaFor(size)))
  {
    hide Sound, Arena2Block, Block2Arena, IsBlock, PerArena, Size, PagesFor, Fresh;
    if 0 < size < poolSize && (Needs(h, size) > 0 ==> page.Some?) {
      var p := if page.Some? then page.value else 0;
      if size > 1024 {
        PagesSuffice(size);
        AddLargeKeeps(h, p, PagesFor(size), size);
      } else {
        var k := DescOf(size, 0);
        RefillKeeps(h, k, p);
        TakeKeeps(Refill(h, k, p), k, size);
      }
    }
  }

  lemma LiveArena(h: Heap, b: nat)
    requires Sound(h) && b in h.live
    ensures |h.free| == DESC_CNT && Block2Arena(b) in h.arenas && LiveBlock(h, b, h.live[b])
    ensures ArenaOk(Block2Arena(b), h.arenas[Block2Arena(b)])
  {
    hide Block2Arena, IsBlock;
    assert LiveBlock(h, b, h.live[b]);
  }

  /** An arena with fewer free blocks than it has blocks has a live one. */
  lemma NotFullHasLive(h: Heap, a: nat)
    requires Sound(h) && a in h.arenas && h.arenas[a].Small? && h.arenas[a].cnt != PerArena(h.arenas[a].k)
    ensures exists c :: c in h.live && Block2Arena(c) == a
  {
    hide IsBlock, Block2Arena, Size, PerArena, NoDup, Live, NewBlocks;
    var k := h.arenas[a].k;
    assert ArenaOk(a, h.arenas[a]) && Accounted(h, a, h.arenas[a]);
    NewBlocksAre(a, k);
    var all := NewBlocks(a, k, PerArena(k));
    ElemsCount(all);
    NewBlocksLength(a, k);
    var free := FreeIn(h.free[k], a);
    forall c | c in free ensures c in Elems(all) {
      assert InSmall(h, c, k);
    }
    assert free != Elems(all);
    var c :| c in Elems(all) && c !in free;
    assert Block2Arena(c) == a && IsBlock(c, k);
  }

  /** The arenas of h, perhaps without the one at a; only counts differ. */
  predicate ArenasShrink(h: Heap, r: Heap, a: nat) {
    && r.arenas.Keys <= h.arenas.Keys && h.arenas.Keys - {a} <= r.arenas.Keys
    && forall c :: c in r.arenas ==> SamePlace(h.arenas[c], r.arenas[c])
  }

  /** sys_free takes the block back; its page goes back exactly when no other block of it is live. */
  lemma FreeKeeps(h: Heap, b: nat)
    requires Inv(h) && b in h.live && Block2Arena(b) in h.arenas && |h.free| == DESC_CNT
    ensures var r := Free(h, b);
            && Inv(r) && r.live == h.live - {b}
            && (Block2Arena(b) in r.arenas <==> exists c :: c in r.live && Block2Arena(c) == Block2Arena(b))
            && |r.free| == DESC_CNT && ArenasShrink(h, r, Block2Arena(b))
  {
    hide Sound, Block2Arena, IsBlock, Size, PerArena, Purge;
    var a := Block2Arena(b);
    LiveArena(h, b);
    if h.arenas[a].Large? {
      DropLargeKeeps(h, a);
      AloneInLarge(h, b);
    } else {
      PutKeeps(h, b);
      var h1 := PutBlock(h, b);
      if h1.arenas[a].cnt == PerArena(h1.arenas[a].k) {
        RetireKeeps(h1, a);
        NoneLive(h1, a);
      } else {
        NotFullHasLive(h1, a);
      }
    }
  }

  lemma NoneLive(h: Heap, a: nat)
    requires Sound(h) && Full(h, a)
    ensures forall c :: c in h.live ==> Block2Arena(c) != a
  {
    forall c | c in h.live ensures Block2Arena(c) != a {
      NoLiveInFull(h, a, c);
    }
  }

  lemma AloneInLarge(h: Heap, b: nat)
    requires Sound(h) && b in h.live && Block2Arena(b) in h.arenas && h.arenas[Block2Arena(b)].Large?
    ensures b == Block2Arena(b) + HEADER && forall c :: c in h.live && c != b ==> Block2Arena(c) != Block2Arena(b)
  {
    hide Block2Arena, IsBlock, Counts, Lists, Arenas;
    assert LiveBlock(h, b, h.live[b]);
    forall c | c in h.live && c != b ensures Block2Arena(c) != Block2Arena(b) {
      assert LiveBlock(h, c, h.live[c]);
    }
  }

  // ---------------------------------------------------------------- what the callers rely on

  lemma LiveInside(h: Heap, b: nat)
    requires Sound(h) && b in h.live
    ensures var a := Block2Arena(b);
            a in h.arenas && a + HEADER <= b && b + h.live[b] <= a + Bytes(h.arenas[a])
  {
    LiveArena(h, b);
    var a := Block2Arena(b);
    if h.arenas[a].Small? { ArenaOfBlock(b, h.arenas[a].k); }
  }

  /** Two live blocks do not overlap. */
  lemma LiveApart(h: Heap, b: nat, c: nat)
    requires Sound(h) && b in h.live && c in h.live && b < c
    ensures b + h.live[b] <= c
  {
    hide Block2Arena, IsBlock, Size, Lists, Counts;
    LiveInside(h, b);
    LiveInside(h, c);
    LiveArena(h, b);
    LiveArena(h, c);
    var a, d := Block2Arena(b), Block2Arena(c);
    if a == d {
      if h.arenas[a].Small? { BlocksApart(b, c, h.arenas[a].k); }
    } else {
      assert Disjoint(a, h.arenas[a], d, h.arenas[d]);
    }
  }

  /** A live block does not touch the header of any arena. */
  lemma LiveClearOfHeaders(h: Heap, b: nat, a: nat)
    requires Sound(h) && b in h.live && a in h.arenas
    ensures b + h.live[b] <= a || a + HEADER <= b
  {
    hide Block2Arena, IsBlock, Size, Lists, Counts;
    LiveInside(h, b);
    var d := Block2Arena(b);
    assert ArenaOk(a, h.arenas[a]);
    if a != d { assert Disjoint(a, h.arenas[a], d, h.arenas[d]); }
  }

  const EMPTY := Heap(map[], [[], [], [], [], [], [], []], map[])

  lemma EmptyInv()
    ensures Inv(EMPTY)
  {
  }

  /** An arena's count is the number of its blocks on the free list, and not all of them. */
  lemma CountIsExact(h: Heap, a: nat)
    requires Inv(h) && a in h.arenas && h.arenas[a].Small?
    ensures h.arenas[a].k < |h.free| && h.arenas[a].cnt == |FreeIn(h.free[h.arenas[a].k], a)| < PerArena(h.arenas[a].k)
    ensures exists b :: b in h.live && Block2Arena(b) == a
  {
    hide PerArena, Block2Arena, IsBlock, Lists, Live;
    assert Accounted(h, a, h.arenas[a]);
    NotFullHasLive(h, a);
  }

  /**
   * When sys_malloc asks for pages: for a small size one, exactly when no arena of its class counts a free block;
   * for a large size always, and the fewest that hold it with its header.
   */
  lemma NeedsExactly(h: Heap, size: nat)
    requires Inv(h) && |h.free| == DESC_CNT
    ensures size <= 1024 ==>
              && Needs(h, size) <= 1
              && (Needs(h, size) == 0 <==>
                    exists a :: a in h.arenas && h.arenas[a].Small? && h.arenas[a].k == DescOf(size, 0) && h.arenas[a].cnt > 0)
    ensures size > 1024 ==> HEADER + size <= Needs(h, size) * PG_SIZE < HEADER + size + PG_SIZE
  {
    if size > 1024 {
      PagesSuffice(size);
    } else {
      OnListIsCounted(h, DescOf(size, 0));
    }
  }

  /** A list has a block exactly when some arena of the class counts one. */
  lemma OnListIsCounted(h: Heap, k: nat)
    requires Inv(h) && k < DESC_CNT && |h.free| == DESC_CNT
    ensures h.free[k] != [] <==> exists a :: a in h.arenas && h.arenas[a].Small? && h.arenas[a].k == k && h.arenas[a].cnt > 0
  {
    hide PerArena, Block2Arena, IsBlock, Live;
    if h.free[k] != [] {
      var b := h.free[k][0];
      assert InSmall(h, b, k) && Accounted(h, Block2Arena(b), h.arenas[Block2Arena(b)]);
      assert b in FreeIn(h.free[k], Block2Arena(b));
    }
    forall a | a in h.arenas && h.arenas[a].Small? && h.arenas[a].k == k && h.free[k] == [] ensures h.arenas[a].cnt == 0 {
      assert Accounted(h, a, h.arenas[a]);
      assert FreeIn(h.free[k], a) == {};
    }
  }

  // ---------------------------------------------------------------- the code

  function Doubled(k: nat): nat { if k == 0 then 16 else 2 * Doubled(k - 1) }

  /** The sizes are 16 doubled so many times. */
  lemma {:induction false} SizesDouble(k: nat)
    requires k < DESC_CNT
    ensures Size(k) == Doubled(k)
  {
    if k > 0 { SizesDouble(k - 1); }
  }

  /** n blocks of this size fit in a page behind the header, and one more does not. */
  predicate JustFit(n: nat, size: nat) { HEADER + n * size <= PG_SIZE < HEADER + (n + 1) * size }

  lemma BlocksFit(size: nat)
    requires size > 0
    ensures JustFit((PG_SIZE - HEADER) / size, size)
  {
    assert PG_SIZE - HEADER == (PG_SIZE - HEADER) / size * size + (PG_SIZE - HEADER) % size;
  }

  lemma DoubledFrom()
    ensures Doubled(0) == 16
  {
  }

  lemma DescAt(k: nat)
    requires k < DESC_CNT
    ensures Size(k) == Doubled(k) && Doubled(k) > 0 && Doubled(k + 1) == 2 * Doubled(k)
    ensures PerArena(k) == (PG_SIZE - HEADER) / Doubled(k) && JustFit(PerArena(k), Size(k))
  {
    hide Size, JustFit;
    SizesDouble(k);
    BlocksFit(Size(k));
  }

  /** block_desc_init: each size is twice the one before, from 16 on, and an arena has as many blocks as fit in its page. */
  method BlockDescInit() returns (sizes: seq<nat>, counts: seq<nat>, lists: seq<seq<nat>>)
    ensures |sizes| == |counts| == DESC_CNT && lists == EMPTY.free
    ensures forall k :: 0 <= k < DESC_CNT ==> sizes[k] == Size(k) == Doubled(k)
    ensures forall k :: 0 <= k < DESC_CNT ==> counts[k] == PerArena(k) && JustFit(counts[k], sizes[k])
  {
    hide Size, JustFit, PerArena, Doubled;
    DoubledFrom();
    sizes, counts, lists := [], [], [];
    var size: nat := 16;
    for k := 0 to DESC_CNT
      invariant size == Doubled(k) && |sizes| == |counts| == |lists| == k
      invariant forall j :: 0 <= j < k ==> sizes[j] == Size(j) == Doubled(j)
      invariant forall j :: 0 <= j < k ==> counts[j] == PerArena(j) && JustFit(counts[j], sizes[j]) && lists[j] == []
    {
      DescAt(k);
      sizes, counts, lists := sizes + [size], counts + [(PG_SIZE - HEADER) / size], lists + [[]];
      size := 2 * size;
    }
  }

  /** The loop of sys_malloc over the descriptors. */
  method FindDesc(size: nat) returns (k: nat)
    requires size <= 1024
    ensures k == DescOf(size, 0)
  {
    k := 0;
    while size > Size(k)
      invariant k < DESC_CNT && DescOf(size, 0) == DescOf(size, k)
      decreases DESC_CNT - k
    {
      k := k + 1;
    }
  }

  /** The loop of sys_malloc that cuts a new arena into blocks, with its assert. */
  method CutBlocks(q: seq<nat>, a: nat, k: nat) returns (r: seq<nat>)
    requires a % PG_SIZE == 0 && k < DESC_CNT && forall b :: b in q ==> Block2Arena(b) != a
    ensures r == q + NewBlocks(a, k, PerArena(k))
  {
    r := q;
    var i := 0;
    while i < PerArena(k)
      invariant i <= PerArena(k) && r == q + NewBlocks(a, k, i)
    {
      var b := Arena2Block(a, k, i);
      NotYetCut(q, a, k, i);
      assert b !in r;
      r := r + [b];
      i := i + 1;
    }
  }

  lemma NotYetCut(q: seq<nat>, a: nat, k: nat, i: nat)
    requires a % PG_SIZE == 0 && k < DESC_CNT && i < PerArena(k) && forall b :: b in q ==> Block2Arena(b) != a
    ensures Arena2Block(a, k, i) !in q + NewBlocks(a, k, i)
  {
    BlockInArena(a, k, i);
    var n := NewBlocks(a, k, i);
    forall j | 0 <= j < |n| ensures n[j] != Arena2Block(a, k, i) {
      BlockInArena(a, k, j);
    }
  }

  /** The list without the first i blocks of arena a. */
  function PurgeTo(q: seq<nat>, a: nat, k: nat, i: nat): seq<nat> {
    if q == [] then []
    else if Block2Arena(q[0]) == a && IsBlock(q[0], k) && Index(q[0], k) < i then PurgeTo(q[1..], a, k, i)
    else [q[0]] + PurgeTo(q[1..], a, k, i)
  }

  lemma {:induction false} PurgeStart(q: seq<nat>, a: nat, k: nat)
    ensures PurgeTo(q, a, k, 0) == q
  {
    if q != [] { PurgeStart(q[1..], a, k); }
  }

  lemma {:induction false} PurgeEnd(q: seq<nat>, a: nat, k: nat)
    requires k < DESC_CNT && forall b :: b in q ==> IsBlock(b, k)
    ensures PurgeTo(q, a, k, PerArena(k)) == Purge(q, a)
  {
    if q != [] {
      ArenaOfBlock(q[0], k);
      PurgeEnd(q[1..], a, k);
    }
  }

  lemma {:induction false} PurgeNext(q: seq<nat>, a: nat, k: nat, i: nat)
    requires k < DESC_CNT && i < PerArena(k) && a % PG_SIZE == 0 && NoDup(q)
    ensures Without(PurgeTo(q, a, k, i), Arena2Block(a, k, i)) == PurgeTo(q, a, k, i + 1)
    ensures Arena2Block(a, k, i) in PurgeTo(q, a, k, i) <==> Arena2Block(a, k, i) in q
  {
    var b := Arena2Block(a, k, i);
    BlockInArena(a, k, i);
    if q != [] {
      FreeInTail(q, a);
      PurgeNext(q[1..], a, k, i);
      if IsBlock(q[0], k) { ArenaOfBlock(q[0], k); }
      hide Block2Arena, IsBlock, Index, Arena2Block, NoDup;
      if q[0] == b { PurgeSame(q[1..], a, k, i); }
    }
  }

  lemma {:induction false} PurgeSame(q: seq<nat>, a: nat, k: nat, i: nat)
    requires k < DESC_CNT && i < PerArena(k) && a % PG_SIZE == 0 && Arena2Block(a, k, i) !in q
    ensures PurgeTo(q, a, k, i + 1) == PurgeTo(q, a, k, i)
  {
    if q != [] {
      if IsBlock(q[0], k) { ArenaOfBlock(q[0], k); }
      hide Block2Arena, IsBlock, Index;
      PurgeSame(q[1..], a, k, i);
    }
  }

  /** The loop of sys_free that takes all blocks of an idle arena off the list, with its assert. */
  method TakeBlocksOff(q: seq<nat>, a: nat, k: nat) returns (r: seq<nat>)
    requires k < DESC_CNT && a % PG_SIZE == 0 && NoDup(q) && forall b :: b in q ==> IsBlock(b, k)
    requires forall i :: 0 <= i < PerArena(k) ==> Arena2Block(a, k, i) in q
    ensures r == Purge(q, a)
  {
    hide IsBlock, PerArena, Arena2Block, Block2Arena, Size;
    PurgeStart(q, a, k);
    r := q;
    var i := 0;
    while i < PerArena(k)
      invariant i <= PerArena(k) && r == PurgeTo(q, a, k, i)
    {
      PurgeNext(q, a, k, i);
      assert Arena2Block(a, k, i) in r;
      r := Unlink(r, Arena2Block(a, k, i));
      i := i + 1;
    }
    PurgeEnd(q, a, k);
  }

  lemma RefillFacts(h: Heap, size: nat, page: nat)
    requires Inv(h) && |h.free| == DESC_CNT && 0 < size <= 1024
    requires h.free[DescOf(size, 0)] == [] ==> Fresh(h, page, ArenaFor(size))
    ensures var k := DescOf(size, 0);
            Takeable(Refill(h, k, page), k) && (h.free[k] == [] ==> page % PG_SIZE == 0)
  {
    hide Inv;
    RefillKeeps(h, DescOf(size, 0), page);
  }

  lemma AllOnList(h: Heap, a: nat)
    requires Sound(h) && Full(h, a)
    ensures var k := h.arenas[a].k;
            && k < DESC_CNT && a % PG_SIZE == 0 && NoDup(h.free[k]) && (forall b :: b in h.free[k] ==> IsBlock(b, k))
            && forall i :: 0 <= i < PerArena(k) ==> Arena2Block(a, k, i) in h.free[k]
  {
    hide IsBlock, Block2Arena, PerArena, Arena2Block, NoDup, Size;
    var k := h.arenas[a].k;
    assert ArenaOk(a, h.arenas[a]);
    forall i | 0 <= i < PerArena(k) ensures Arena2Block(a, k, i) in h.free[k] {
      BlockInArena(a, k, i);
      FullIsFree(h, a, Arena2Block(a, k, i));
    }
    forall b | b in h.free[k] ensures IsBlock(b, k) {
      assert InSmall(h, b, k);
    }
  }
}
