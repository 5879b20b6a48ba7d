/**
 The data path of one regular file: where its blocks are, what bytes it holds, and how
 file_write and file_read move data between a buffer and the sectors.

 A file's block references are the 12 direct pointers, the 128 entries of the indirect
 table and the table's own sector: 141 numbers, zero meaning "none".
 */
module FileData {
  import opened Sectors
  import Bitmap

  const MAX_FILE_SIZE: nat := 71680  // BLOCK_SIZE * 140
  const BLOCKS: nat := 140
  const TABLE: nat := 140            // index of the table's sector among the references

  /** i_sectors: 12 direct blocks and the sector of the indirect table. */
  type Pointers = s: seq<nat> | |s| == 13 witness seq(13, i => 0)

  /** The persistent part of an inode. */
  datatype Inode = Inode(size: nat, sectors: Pointers)

  /**
   The block bitmap as the sectors it marks: bit k stands for sector ds + k, and a sector is
   used when its bit is set. `PoolOfBits` ties this to the bits.
   */
  datatype Pool = Pool(ds: nat, n: nat, used: set<nat>) {
    predicate Valid() {
      0 < ds && ds + n <= WORD_LIMIT && forall b :: b in used ==> ds <= b < ds + n
    }

    predicate IsFree(b: nat) {
      ds <= b < ds + n && b !in used
    }

    function FreeSet(): set<nat> {
      set b | ds <= b < ds + n && b !in used
    }

    function FreeCount(): nat {
      |FreeSet()|
    }

    function Take(s: set<nat>): Pool {
      this.(used := used + s)
    }
  }

  function PoolOfBits(ds: nat, bits: seq<bool>): Pool {
    Pool(ds, |bits|, set k: nat | k < |bits| && bits[k] :: ds + k)
  }

  /** The lowest free sector is the lowest clear bit, and taking it sets that bit. */
  lemma PoolMatchesBitmap(ds: nat, bits: seq<bool>, i: nat)
    requires Bitmap.LowestRun(bits, i, 1)
    ensures PoolOfBits(ds, bits).IsFree(ds + i)
    ensures forall b :: ds <= b < ds + i ==> b in PoolOfBits(ds, bits).used
    ensures PoolOfBits(ds, Bitmap.SetRun(bits, i, 1)) == PoolOfBits(ds, bits).Take({ds + i})
  {
    var p := PoolOfBits(ds, bits);
    assert !bits[i];
    forall b | ds <= b < ds + i ensures b in p.used {
      assert !Bitmap.ClearRun(bits, b - ds, 1);
      assert bits[b - ds];
    }
    var p' := PoolOfBits(ds, Bitmap.SetRun(bits, i, 1));
    forall b ensures b in p'.used <==> b in p.used + {ds + i} {
      if b in p.used {
        var k: nat :| k < |bits| && bits[k] && ds + k == b;
        assert Bitmap.SetRun(bits, i, 1)[k];
      }
      if b == ds + i { assert Bitmap.SetRun(bits, i, 1)[i]; }
    }
  }

  function TableEntries(ptr: nat, d: Drive): (t: seq<nat>)
    ensures |t| == 128
  {
    if ptr != 0 && ptr in d then DecWords(d[ptr], 0, 128) else seq(128, i => 0)
  }

  /** All block references of an inode, in file order, then the table's sector. */
  function Refs(sectors: Pointers, d: Drive): (r: seq<nat>)
    ensures |r| == 141
    ensures forall i :: 0 <= i < 12 ==> r[i] == sectors[i]
    ensures r[TABLE] == sectors[12]
  {
    sectors[..12] + TableEntries(sectors[12], d) + [sectors[12]]
  }

  /** The sectors an inode owns. */
  function Owned(sectors: Pointers, d: Drive): set<nat> {
    NonZero(Refs(sectors, d))
  }

  function NonZero(refs: seq<nat>): (s: set<nat>)
    ensures forall i :: 0 <= i < |refs| && refs[i] != 0 ==> refs[i] in s
    ensures 0 !in s
  {
    set i | 0 <= i < |refs| && refs[i] != 0 :: refs[i]
  }

  function BlockCount(ino: Inode): nat {
    if ino.sectors[0] == 0 then 0 else ino.size / 512 + 1
  }

  /** Exactly the first n references are in use, and the table iff it is needed. */
  predicate InUse(refs: seq<nat>, n: nat) {
    && |refs| == 141 && n <= BLOCKS
    && (forall i :: 0 <= i < BLOCKS ==> (refs[i] != 0 <==> i < n))
    && (refs[TABLE] != 0 <==> n > 12)
  }

  predicate Distinct(refs: seq<nat>) {
    forall i, j :: 0 <= i < j < |refs| && refs[i] != 0 ==> refs[i] != refs[j]
  }

  /** Every reference points to a sector that is marked as used. */
  predicate Taken(refs: seq<nat>, used: set<nat>) {
    forall i :: 0 <= i < |refs| && refs[i] != 0 ==> refs[i] in used
  }

  /** Every sector of the data area exists on the disk. */
  predicate Area(d: Drive, p: Pool) {
    p.Valid() && forall b :: p.ds <= b < p.ds + p.n ==> b in d
  }

  predicate WellFormed(ino: Inode, d: Drive, p: Pool) {
    && Area(d, p)
    && ino.size < MAX_FILE_SIZE
    && (ino.sectors[0] == 0 ==> ino.size == 0)
    && InUse(Refs(ino.sectors, d), BlockCount(ino))
    && Distinct(Refs(ino.sectors, d))
    && Taken(Refs(ino.sectors, d), p.used)
  }

  function ByteAt(d: Drive, refs: seq<nat>, k: nat): byte {
    if k / 512 < |refs| && refs[k / 512] in d then d[refs[k / 512]][k % 512] else 0
  }

  function BytesOf(d: Drive, refs: seq<nat>, size: nat): (c: seq<byte>)
    ensures |c| == size
    ensures forall k :: 0 <= k < size ==> c[k] == ByteAt(d, refs, k)
  {
    seq(size, k requires 0 <= k < size => ByteAt(d, refs, k))
  }

  /** The bytes of a file. */
  function Content(ino: Inode, d: Drive): seq<byte> {
    BytesOf(d, Refs(ino.sectors, d), ino.size)
  }

  // ---------------------------------------------------------------- allocating blocks

  /** block_bitmap_alloc; 0 stands for the ASSERT in bitmap_scan that halts on a full map. */
  method BlockAlloc(p: Pool) returns (lba: nat, p': Pool)
    requires p.Valid()
    ensures lba == 0 <==> p.FreeCount() == 0
    ensures lba != 0 ==> p.IsFree(lba) && forall b :: p.ds <= b < lba ==> b in p.used
    ensures lba != 0 ==> p' == p.Take({lba}) && p'.Valid() && p'.FreeCount() == p.FreeCount() - 1
    ensures lba == 0 ==> p' == p
  {
    lba := p.ds;
    while lba < p.ds + p.n && lba in p.used
      invariant p.ds <= lba <= p.ds + p.n
      invariant forall b :: p.ds <= b < lba ==> b in p.used
    {
      lba := lba + 1;
    }
    if lba == p.ds + p.n {
      assert p.FreeSet() == {};
      return 0, p;
    }
    p' := p.Take({lba});
    assert lba in p.FreeSet() && p'.FreeSet() == p.FreeSet() - {lba};
  }

  /** New blocks: in the data area, not used before, and different from each other. */
  predicate Fresh(lbas: seq<nat>, p: Pool) {
    && (forall i :: 0 <= i < |lbas| ==> p.IsFree(lbas[i]))
    && (forall i, j :: 0 <= i < j < |lbas| ==> lbas[i] != lbas[j])
  }

  function SetOf(lbas: seq<nat>): (s: set<nat>)
    ensures forall i :: 0 <= i < |lbas| ==> lbas[i] in s
  {
    set i | 0 <= i < |lbas| :: lbas[i]
  }

  lemma SetOfAppend(lbas: seq<nat>, b: nat)
    ensures SetOf(lbas + [b]) == SetOf(lbas) + {b}
  {
    var l := lbas + [b];
    forall x ensures x in SetOf(l) <==> x in SetOf(lbas) + {b} {
      if x in SetOf(lbas) {
        var i :| 0 <= i < |lbas| && lbas[i] == x;
        assert l[i] == x;
      }
      if x == b { assert l[|lbas|] == x; }
    }
  }

  /** s with the elements from position `at` on replaced by those of t, up to `end`. */
  function Overlay(s: seq<nat>, at: nat, t: seq<nat>, end: nat): (r: seq<nat>)
    requires at <= |s| && end <= |s|
    ensures |r| == |s|
    ensures forall i :: 0 <= i < |s| ==> r[i] == if at <= i < at + |t| && i < end then t[i - at] else s[i]
  {
    seq(|s|, i requires 0 <= i < |s| => if at <= i < at + |t| && i < end then t[i - at] else s[i])
  }

  /** The allocation loop shared by the three situations of file_write. */
  method AllocRange(p: Pool, sectors: Pointers, all: seq<nat>, from: nat, to: nat)
    returns (ok: bool, p': Pool, sectors': Pointers, all': seq<nat>, ghost added: seq<nat>)
    requires p.Valid() && |all| == BLOCKS && from <= to <= BLOCKS
    ensures ok <==> p.FreeCount() >= to - from
    ensures ok ==> |added| == to - from && Fresh(added, p)
    ensures ok ==> all' == Overlay(all, from, added, BLOCKS)
    ensures ok ==> sectors' == if from <= 12 then Overlay(sectors, from, added, 12) else sectors
    ensures ok ==> p' == p.Take(SetOf(added)) && p'.Valid()
    ensures ok ==> p'.FreeCount() == p.FreeCount() - (to - from)
  {
    ok, p', sectors', all', added := true, p, sectors, all, [];
    var blockIdx := from;
    while blockIdx < to
      invariant from <= blockIdx <= to && |added| == blockIdx - from
      invariant Fresh(added, p)
      invariant all' == Overlay(all, from, added, BLOCKS)
      invariant sectors' == if from <= 12 then Overlay(sectors, from, added, 12) else sectors
      invariant p' == p.Take(SetOf(added)) && p'.Valid()
      invariant p'.FreeCount() == p.FreeCount() - (blockIdx - from)
    {
      var lba;
      lba, p' := BlockAlloc(p');
      if lba == 0 { ok := false; return; }
      SetOfAppend(added, lba);
      if blockIdx < 12 { sectors' := sectors'[blockIdx := lba]; }
      all' := all'[blockIdx := lba];
      added := added + [lba];
      blockIdx := blockIdx + 1;
    }
  }

  // ---------------------------------------------------------------- growing a file

  /** Old references stay and new ones were unused sectors of the data area. */
  predicate Keeps(r0: seq<nat>, r1: seq<nat>, p: Pool) {
    && |r0| == |r1|
    && (forall i :: 0 <= i < |r0| && r0[i] != 0 ==> r1[i] == r0[i])
    && (forall i :: 0 <= i < |r0| && r0[i] == 0 && r1[i] != 0 ==> p.IsFree(r1[i]))
  }

  /** From n0 blocks to n1: old references stay, new ones were free, and just those are marked. */
  predicate Grown(r0: seq<nat>, r1: seq<nat>, n0: nat, n1: nat, p0: Pool, p1: Pool) {
    && InUse(r0, n0) && InUse(r1, n1) && Keeps(r0, r1, p0) && Distinct(r1)
    && p1 == p0.Take(NonZero(r1)) && p1.Valid()
  }

  /** The references after blocks `added` (and table tbl, if not 0) were put behind the first n0. */
  function Extended(r0: seq<nat>, n0: nat, tbl: nat, added: seq<nat>): (r1: seq<nat>)
    requires |r0| == 141 && n0 + |added| <= BLOCKS
    ensures |r1| == 141
    ensures forall i :: 0 <= i < BLOCKS ==> r1[i] == if n0 <= i < n0 + |added| then added[i - n0] else r0[i]
    ensures r1[TABLE] == if tbl != 0 then tbl else r0[TABLE]
  {
    seq(141, i requires 0 <= i < 141 =>
      if i == TABLE then (if tbl != 0 then tbl else r0[TABLE])
      else if n0 <= i < n0 + |added| then added[i - n0] else r0[i])
  }

  /** What must hold of n0 blocks r0 and the new blocks for `Extended` to be a proper growth. */
  predicate Extensible(r0: seq<nat>, n0: nat, tbl: nat, added: seq<nat>, p: Pool) {
    && p.Valid() && InUse(r0, n0) && Distinct(r0) && Taken(r0, p.used)
    && n0 + |added| <= BLOCKS && (tbl != 0 <==> n0 <= 12 < n0 + |added|)
    && Fresh(News(tbl, added), p)
  }

  function News(tbl: nat, added: seq<nat>): seq<nat> {
    if tbl == 0 then added else [tbl] + added
  }

  /** Where reference i stands among the new blocks. */
  function NewIndex(n0: nat, tbl: nat, i: nat): int {
    if i == TABLE then 0 else i - n0 + (if tbl == 0 then 0 else 1)
  }

  lemma ExtendedAt(r0: seq<nat>, n0: nat, tbl: nat, added: seq<nat>, p: Pool, i: nat)
    requires Extensible(r0, n0, tbl, added, p) && i < 141
    ensures var r1 := Extended(r0, n0, tbl, added);
            if r0[i] != 0 then r1[i] == r0[i]
            else if i < n0 + |added| || (i == TABLE && tbl != 0)
            then 0 <= NewIndex(n0, tbl, i) < |News(tbl, added)| && r1[i] == News(tbl, added)[NewIndex(n0, tbl, i)] != 0
            else r1[i] == 0
  {
  }

  lemma ExtendedDistinct(r0: seq<nat>, n0: nat, tbl: nat, added: seq<nat>, p: Pool)
    requires Extensible(r0, n0, tbl, added, p)
    ensures Distinct(Extended(r0, n0, tbl, added))
  {
    var r1 := Extended(r0, n0, tbl, added);
    forall i, j | 0 <= i < j < 141 && r1[i] != 0
      ensures r1[i] != r1[j]
    {
      ExtendedAt(r0, n0, tbl, added, p, i);
      ExtendedAt(r0, n0, tbl, added, p, j);
    }
  }

  lemma ExtendedHasOld(r0: seq<nat>, n0: nat, tbl: nat, added: seq<nat>, p: Pool, b: nat)
    requires Extensible(r0, n0, tbl, added, p) && b in NonZero(r0)
    ensures b in NonZero(Extended(r0, n0, tbl, added))
  {
    var i :| 0 <= i < 141 && r0[i] != 0 && r0[i] == b;
    ExtendedAt(r0, n0, tbl, added, p, i);
  }

  lemma ExtendedHasNew(r0: seq<nat>, n0: nat, tbl: nat, added: seq<nat>, p: Pool, j: nat)
    requires Extensible(r0, n0, tbl, added, p) && j < |News(tbl, added)|
    ensures News(tbl, added)[j] in NonZero(Extended(r0, n0, tbl, added))
  {
    var i := if tbl == 0 then n0 + j else if j == 0 then TABLE else n0 + j - 1;
    ExtendedAt(r0, n0, tbl, added, p, i);
  }

  lemma ExtendedNonZero(r0: seq<nat>, n0: nat, tbl: nat, added: seq<nat>, p: Pool)
    requires Extensible(r0, n0, tbl, added, p)
    ensures NonZero(Extended(r0, n0, tbl, added)) == NonZero(r0) + SetOf(News(tbl, added))
  {
    var r1, news := Extended(r0, n0, tbl, added), News(tbl, added);
    forall b | b in NonZero(r1) ensures b in NonZero(r0) + SetOf(news) {
      var i :| 0 <= i < 141 && r1[i] != 0 && r1[i] == b;
      ExtendedAt(r0, n0, tbl, added, p, i);
    }
    forall b | b in NonZero(r0) ensures b in NonZero(r1) {
      ExtendedHasOld(r0, n0, tbl, added, p, b);
    }
    forall b | b in SetOf(news) ensures b in NonZero(r1) {
      var j :| 0 <= j < |news| && news[j] == b;
      ExtendedHasNew(r0, n0, tbl, added, p, j);
    }
  }

  lemma ExtendedKeeps(r0: seq<nat>, n0: nat, tbl: nat, added: seq<nat>, p: Pool)
    requires Extensible(r0, n0, tbl, added, p)
    ensures InUse(Extended(r0, n0, tbl, added), n0 + |added|)
    ensures Keeps(r0, Extended(r0, n0, tbl, added), p)
  {
    var r1 := Extended(r0, n0, tbl, added);
    forall i | 0 <= i < 141
      ensures r0[i] != 0 ==> r1[i] == r0[i]
      ensures r1[i] != 0 <==> i < n0 + |added| || (i == TABLE && n0 + |added| > 12)
      ensures r0[i] == 0 && r1[i] != 0 ==> p.IsFree(r1[i])
    {
      ExtendedAt(r0, n0, tbl, added, p, i);
    }
  }

  lemma ExtendedGrown(r0: seq<nat>, n0: nat, tbl: nat, added: seq<nat>, p0: Pool, p1: Pool)
    requires Extensible(r0, n0, tbl, added, p0)
    requires p1 == p0.Take(SetOf(News(tbl, added))) && p1.Valid()
    ensures Grown(r0, Extended(r0, n0, tbl, added), n0, n0 + |added|, p0, p1)
  {
    ExtendedKeeps(r0, n0, tbl, added, p0);
    ExtendedDistinct(r0, n0, tbl, added, p0);
    ExtendedNonZero(r0, n0, tbl, added, p0);
    assert p0.used + NonZero(Extended(r0, n0, tbl, added)) == p1.used;
  }

  /** Situation 1: the direct blocks suffice. */
  method GrowDirect(p: Pool, d: Drive, sectors: Pointers, has: nat, will: nat)
    returns (ok: bool, p': Pool, sectors': Pointers, all: seq<nat>)
    requires Area(d, p)
    requires InUse(Refs(sectors, d), has) && Distinct(Refs(sectors, d)) && Taken(Refs(sectors, d), p.used)
    requires 1 <= has < will <= 12
    ensures ok <==> p.FreeCount() >= will - has
    ensures ok ==> Grown(Refs(sectors, d), Refs(sectors', d), has, will, p, p')
    ensures ok ==> |all| == BLOCKS && forall i :: has - 1 <= i < will ==> all[i] == Refs(sectors', d)[i]
  {
    all := seq(BLOCKS, i => 0)[has - 1 := sectors[has - 1]];
    ghost var added;
    ok, p', sectors', all, added := AllocRange(p, sectors, all, has, will);
    if !ok { return; }
    ExtendedGrown(Refs(sectors, d), has, 0, added, p, p');
    assert Refs(sectors', d) == Extended(Refs(sectors, d), has, 0, added);
  }

  /** Writing all_blocks + 12 over the table's sector makes the table hold those entries. */
  lemma TableWritten(sectors: Pointers, d: Drive, all: seq<nat>)
    requires sectors[12] != 0 && sectors[12] in d
    requires |all| == BLOCKS && forall i :: 12 <= i < BLOCKS ==> IsWord(all[i])
    ensures var r := Refs(sectors, d[sectors[12] := EncWords(all[12..])]);
            forall i :: 12 <= i < BLOCKS ==> r[i] == all[i]
  {
    var ws := all[12..];
    var sec := EncWords(ws);
    assert sec[0..0 + 4 * |ws|] == sec;
    WordsRoundTrip(sec, 0, ws);
    var d' := d[sectors[12] := sec];
    assert TableEntries(sectors[12], d') == ws;
  }

  lemma TableIsWords(sectors: Pointers, d: Drive, p: Pool)
    requires Area(d, p) && Taken(Refs(sectors, d), p.used)
    ensures forall i :: 0 <= i < 141 ==> IsWord(Refs(sectors, d)[i])
  {
  }

  function TableSet(ptr: nat): set<nat> {
    if ptr == 0 then {} else {ptr}
  }

  /** d' is d with at most the sectors in s rewritten. */
  predicate OnlyAt(d: Drive, d': Drive, s: set<nat>) {
    d'.Keys == d.Keys && forall b :: b in d && b !in s ==> d'[b] == d[b]
  }

  /** Situation 2: the file outgrows its direct blocks, so the table is created as well. */
  method GrowIntoTable(p: Pool, d: Drive, sectors: Pointers, has: nat, will: nat)
    returns (ok: bool, p': Pool, d': Drive, sectors': Pointers, all: seq<nat>)
    requires Area(d, p)
    requires InUse(Refs(sectors, d), has) && Distinct(Refs(sectors, d)) && Taken(Refs(sectors, d), p.used)
    requires 1 <= has <= 12 < will <= BLOCKS
    ensures ok <==> p.FreeCount() >= will - has + 1
    ensures ok ==> Grown(Refs(sectors, d), Refs(sectors', d'), has, will, p, p')
    ensures ok ==> |all| == BLOCKS && forall i :: has - 1 <= i < will ==> all[i] == Refs(sectors', d')[i]
    ensures ok ==> OnlyAt(d, d', TableSet(sectors'[12]))
  {
    all := seq(BLOCKS, i => 0)[has - 1 := sectors[has - 1]];
    ghost var all0, added := all, [];
    d', sectors' := d, sectors;
    var t;
    t, p' := BlockAlloc(p);
    if t == 0 { ok := false; return; }
    ok, p', sectors', all, added := AllocRange(p', sectors[12 := t], all, has, will);
    if !ok { return; }
    FreshBehind(p, t, added);
    d' := WriteTable(d, sectors', all);
    IntoTableRefs(sectors, sectors', d, d', has, t, added, all0, all);
    ExtendedGrown(Refs(sectors, d), has, t, added, p, p');
  }

  /** Lines 363 and 386: the tail of all_blocks becomes the table. */
  method WriteTable(d: Drive, sectors: Pointers, all: seq<nat>) returns (d': Drive)
    requires sectors[12] != 0 && sectors[12] in d && |all| == BLOCKS
    requires forall i :: 12 <= i < BLOCKS ==> IsWord(all[i])
    ensures OnlyAt(d, d', TableSet(sectors[12]))
    ensures forall i :: 12 <= i < BLOCKS ==> Refs(sectors, d')[i] == all[i]
  {
    d' := d[sectors[12] := EncWords(all[12..])];
    TableWritten(sectors, d, all);
  }

  lemma FreshBehind(p: Pool, t: nat, added: seq<nat>)
    requires p.Valid() && p.IsFree(t)
    requires Fresh(added, p.Take({t}))
    ensures Fresh([t] + added, p)
    ensures SetOf([t] + added) == {t} + SetOf(added)
  {
    var l := [t] + added;
    forall b ensures b in SetOf(l) <==> b in {t} + SetOf(added) {
      if b == t { assert l[0] == b; }
      if b in SetOf(added) {
        var i :| 0 <= i < |added| && added[i] == b;
        assert l[i + 1] == b;
      }
    }
  }

  lemma IntoTableRefs(sectors: Pointers, sectors': Pointers, d: Drive, d': Drive, has: nat, t: nat, added: seq<nat>,
                      all0: seq<nat>, all: seq<nat>)
    requires InUse(Refs(sectors, d), has) && 1 <= has <= 12 < has + |added| <= BLOCKS && t != 0
    requires |all0| == BLOCKS && forall i :: has <= i < BLOCKS ==> all0[i] == 0
    requires all == Overlay(all0, has, added, BLOCKS)
    requires sectors' == Overlay(sectors[12 := t], has, added, 12)
    requires forall i :: 12 <= i < BLOCKS ==> Refs(sectors', d')[i] == all[i]
    ensures Refs(sectors', d') == Extended(Refs(sectors, d), has, t, added)
  {
  }

  /** Situation 3: the table exists already and gains entries. */
  method GrowInTable(p: Pool, d: Drive, sectors: Pointers, has: nat, will: nat)
    returns (ok: bool, p': Pool, d': Drive, all: seq<nat>)
    requires Area(d, p)
    requires InUse(Refs(sectors, d), has) && Distinct(Refs(sectors, d)) && Taken(Refs(sectors, d), p.used)
    requires 12 < has < will <= BLOCKS
    ensures ok <==> p.FreeCount() >= will - has
    ensures ok ==> Grown(Refs(sectors, d), Refs(sectors, d'), has, will, p, p')
    ensures ok ==> |all| == BLOCKS && forall i :: has - 1 <= i < will ==> all[i] == Refs(sectors, d')[i]
    ensures ok ==> OnlyAt(d, d', TableSet(sectors[12]))
  {
    d' := d;
    all := ReadTable(p, d, sectors, has);
    ghost var all0, added := all, [];
    var sectors';
    ok, p', sectors', all, added := AllocRange(p, sectors, all, has, will);
    if !ok { return; }
    d' := WriteTable(d, sectors, all);
    InTableRefs(sectors, d, d', has, added, all0, all);
    ExtendedGrown(Refs(sectors, d), has, 0, added, p, p');
  }

  /** ide_read of the table behind the direct part of all_blocks. */
  method ReadTable(ghost p: Pool, d: Drive, sectors: Pointers, ghost n: nat) returns (all: seq<nat>)
    requires Area(d, p) && InUse(Refs(sectors, d), n) && Taken(Refs(sectors, d), p.used) && n > 12
    ensures |all| == BLOCKS
    ensures forall i :: 12 <= i < BLOCKS ==> all[i] == Refs(sectors, d)[i] && IsWord(all[i])
    ensures sectors[12] != 0 && sectors[12] in d
  {
    assert sectors[12] == Refs(sectors, d)[TABLE];
    all := seq(12, i => 0) + DecWords(d[sectors[12]], 0, 128);
    TableIsWords(sectors, d, p);
    assert Refs(sectors, d)[12..BLOCKS] == DecWords(d[sectors[12]], 0, 128);
    assert forall i :: 12 <= i < BLOCKS ==> all[i] == Refs(sectors, d)[12..BLOCKS][i - 12];
  }

  lemma InTableRefs(sectors: Pointers, d: Drive, d': Drive, has: nat, added: seq<nat>, all0: seq<nat>, all: seq<nat>)
    requires 12 < has && has + |added| <= BLOCKS
    requires |all0| == BLOCKS && forall i :: 12 <= i < BLOCKS ==> all0[i] == Refs(sectors, d)[i]
    requires all == Overlay(all0, has, added, BLOCKS)
    requires forall i :: 12 <= i < BLOCKS ==> Refs(sectors, d')[i] == all[i]
    ensures Refs(sectors, d') == Extended(Refs(sectors, d), has, 0, added)
  {
  }

  // ---------------------------------------------------------------- moving the bytes

  /** References [lo, hi] of all are sectors of the disk, no two alike. */
  predicate Span(all: seq<nat>, lo: nat, hi: nat, d: Drive) {
    && hi < |all|
    && (forall i :: lo <= i <= hi ==> all[i] in d)
    && (forall i, j :: lo <= i < j <= hi ==> all[i] != all[j])
  }

  /** d' differs from d only in sectors that all refers to in [lo, hi]. */
  predicate OnlyIn(d: Drive, d': Drive, all: seq<nat>, lo: nat, hi: nat) {
    && d'.Keys == d.Keys
    && forall b {:trigger d'[b]} :: b in d ==> d'[b] == d[b] || exists i :: lo <= i <= hi && i < |all| && all[i] == b
  }

  /** One sector write puts chunk at position pos of the file and keeps what io kept. */
  lemma SectorWrite(d: Drive, all: seq<nat>, lo: nat, hi: nat, pos: nat, io: Sector, chunk: seq<byte>, k: nat)
    requires Span(all, lo, hi, d) && lo <= pos / 512 <= hi && lo <= k / 512 <= hi
    requires pos % 512 + |chunk| <= 512
    ensures ByteAt(d[all[pos / 512] := Splice(io, pos % 512, chunk)], all, k)
         == if pos <= k < pos + |chunk| then chunk[k - pos]
            else if k / 512 == pos / 512 then io[k % 512]
            else ByteAt(d, all, k)
  {
    if k / 512 == pos / 512 {
      assert k - pos == k % 512 - pos % 512;
    }
  }

  /** So far w bytes of buf are in place behind the first `size` bytes, which are as they were. */
  predicate Written(d: Drive, d': Drive, all: seq<nat>, size: nat, buf: seq<byte>, w: nat) {
    && w <= |buf|
    && (forall k :: size <= k < size + w ==> ByteAt(d', all, k) == buf[k - size])
    && (forall k :: size / 512 * 512 <= k < size ==> ByteAt(d', all, k) == ByteAt(d, all, k))
  }

  lemma WrittenStep(d: Drive, d': Drive, all: seq<nat>, size: nat, buf: seq<byte>, w: nat, io: Sector, n: nat)
    requires Span(all, size / 512, (size + |buf|) / 512, d') && w < |buf|
    requires Written(d, d', all, size, buf, w)
    requires 0 < n && w + n <= |buf| && (size + w) % 512 + n <= 512
    requires io == d'[all[(size + w) / 512]] || (size + w) % 512 == 0
    ensures Written(d, d'[all[(size + w) / 512] := Splice(io, (size + w) % 512, buf[w..w + n])], all, size, buf, w + n)
  {
    var lo, hi, pos, chunk := size / 512, (size + |buf|) / 512, size + w, buf[w..w + n];
    var d'' := d'[all[pos / 512] := Splice(io, pos % 512, chunk)];
    forall k | size / 512 * 512 <= k < size + w + n
      ensures ByteAt(d'', all, k) == if k < pos then ByteAt(d', all, k) else buf[k - size]
    {
      SectorWrite(d', all, lo, hi, pos, io, chunk, k);
      if k < pos && k / 512 == pos / 512 { assert (size + w) % 512 != 0; }
    }
  }

  /** Lines 391-414 of file_write. */
  method WriteData(d: Drive, all: seq<nat>, size: nat, buf: seq<byte>) returns (d': Drive, size': nat)
    requires |all| == BLOCKS && Span(all, size / 512, (size + |buf|) / 512, d)
    ensures size' == size + |buf|
    ensures OnlyIn(d, d', all, size / 512, (size + |buf|) / 512)
    ensures Written(d, d', all, size, buf, |buf|)
  {
    var firstWriteBlock, bytesWritten := true, 0;
    d', size' := d, size;
    while bytesWritten < |buf|
      invariant bytesWritten <= |buf| && size' == size + bytesWritten
      invariant firstWriteBlock ==> bytesWritten == 0 && d' == d
      invariant !firstWriteBlock && bytesWritten < |buf| ==> size' % 512 == 0
      invariant OnlyIn(d, d', all, size / 512, (size + |buf|) / 512)
      invariant Written(d, d', all, size, buf, bytesWritten)
    {
      var io: Sector := ZeroSector();
      var secIdx, secOff := size' / 512, size' % 512;
      var secLba, secLeft := all[secIdx], 512 - secOff;
      var chunk := if |buf| - bytesWritten < secLeft then |buf| - bytesWritten else secLeft;
      if firstWriteBlock {
        io := d'[secLba];
        firstWriteBlock := false;
      }
      WrittenStep(d, d', all, size, buf, bytesWritten, io, chunk);
      io := Splice(io, secOff, buf[bytesWritten..bytesWritten + chunk]);
      d' := d'[secLba := io];
      size', bytesWritten := size' + chunk, bytesWritten + chunk;
    }
  }

  // ---------------------------------------------------------------- facts about growth

  lemma GrownTaken(r0: seq<nat>, r1: seq<nat>, n0: nat, n1: nat, p0: Pool, p1: Pool)
    requires Grown(r0, r1, n0, n1, p0, p1)
    ensures Taken(r1, p1.used)
  {
  }

  lemma GrownSame(r: seq<nat>, n: nat, p: Pool)
    requires InUse(r, n) && Distinct(r) && Taken(r, p.used) && p.Valid()
    ensures Grown(r, r, n, n, p, p)
  {
    assert p.used + NonZero(r) == p.used;
  }

  lemma GrownTwice(r0: seq<nat>, r1: seq<nat>, r2: seq<nat>, n0: nat, n1: nat, n2: nat, p0: Pool, p1: Pool, p2: Pool)
    requires Grown(r0, r1, n0, n1, p0, p1) && Grown(r1, r2, n1, n2, p1, p2)
    ensures Grown(r0, r2, n0, n2, p0, p2)
  {
    forall b | b in NonZero(r1) ensures b in NonZero(r2) {
      var i :| 0 <= i < 141 && r1[i] != 0 && r1[i] == b;
      assert r2[i] == b;
    }
    assert p0.used + NonZero(r1) + NonZero(r2) == p0.used + NonZero(r2);
  }

  // ---------------------------------------------------------------- file_write

  datatype Outcome = Halted | Refused | Overrun | Done(count: nat)

  /** Lines 261-273: a file that was never written gets its first block. */
  method FirstBlock(p: Pool, d: Drive, sectors: Pointers, ghost n: nat)
    returns (ok: bool, p': Pool, sectors': Pointers)
    requires Area(d, p) && p.ds in p.used
    requires InUse(Refs(sectors, d), n) && Distinct(Refs(sectors, d)) && Taken(Refs(sectors, d), p.used)
    ensures ok <==> sectors[0] != 0 || p.FreeCount() >= 1
    ensures ok ==> Grown(Refs(sectors, d), Refs(sectors', d), n, if n == 0 then 1 else n, p, p')
    ensures ok ==> p'.FreeCount() == p.FreeCount() - (if sectors[0] == 0 then 1 else 0)
  {
    ok, p', sectors' := true, p, sectors;
    GrownSame(Refs(sectors, d), n, p);
    if sectors[0] == 0 {
      var lba;
      lba, p' := BlockAlloc(p);
      if lba == 0 { ok := false; return; }
      sectors' := sectors[0 := lba];
      assert lba - p.ds != 0;  // the ASSERT of line 271
      SetOfAppend([], lba);
      ExtendedGrown(Refs(sectors, d), 0, 0, [] + [lba], p, p');
      assert Refs(sectors', d) == Extended(Refs(sectors, d), 0, 0, [] + [lba]);
    }
  }

  /** Lines 283-388: gather the addresses of the blocks about to be written, allocating the missing ones. */
  method CollectBlocks(p: Pool, d: Drive, sectors: Pointers, has: nat, will: nat)
    returns (ok: bool, p': Pool, d': Drive, sectors': Pointers, all: seq<nat>)
    requires Area(d, p)
    requires InUse(Refs(sectors, d), has) && Distinct(Refs(sectors, d)) && Taken(Refs(sectors, d), p.used)
    requires 1 <= has <= will <= BLOCKS
    ensures ok <==> p.FreeCount() >= will - has + (if has <= 12 < will then 1 else 0)
    ensures ok ==> Grown(Refs(sectors, d), Refs(sectors', d'), has, will, p, p')
    ensures ok ==> |all| == BLOCKS && forall i :: has - 1 <= i < will ==> all[i] == Refs(sectors', d')[i]
    ensures ok ==> OnlyAt(d, d', TableSet(sectors'[12]))
  {
    ok, p', d', sectors' := true, p, d, sectors;
    if will == has {
      GrownSame(Refs(sectors, d), has, p);
      if will <= 12 {
        all := seq(BLOCKS, i => 0)[has - 1 := sectors[has - 1]];
      } else {
        all := ReadTable(p, d, sectors, has);
      }
    } else if will <= 12 {
      ok, p', sectors', all := GrowDirect(p, d, sectors, has, will);
    } else if has <= 12 {
      ok, p', d', sectors', all := GrowIntoTable(p, d, sectors, has, will);
    } else {
      ok, p', d', all := GrowInTable(p, d, sectors, has, will);
    }
  }

  /** How many blocks a write of count bytes takes from the bitmap. */
  function Needed(ino: Inode, count: nat): int {
    var has, will := ino.size / 512 + 1, (ino.size + count) / 512 + 1;
    (if ino.sectors[0] == 0 then 1 else 0) + will - has + (if has <= 12 < will then 1 else 0)
  }

  /** The same table after the data sectors were written. */
  lemma TableKept(sectors: Pointers, d: Drive, d': Drive)
    requires d'.Keys == d.Keys && (sectors[12] != 0 && sectors[12] in d ==> d'[sectors[12]] == d[sectors[12]])
    ensures Refs(sectors, d') == Refs(sectors, d)
  {
  }

  /**
   What the two phases of file_write leave behind: d0 became d1 when the table was written,
   d1 became d2 when the data was written, refs0 grew into refs.
   */
  ghost predicate Phases(d0: Drive, d1: Drive, d2: Drive, refs0: seq<nat>, refs: seq<nat>, all: seq<nat>, size: nat,
                         buf: seq<byte>)
  {
    var lo, hi := size / 512, (size + |buf|) / 512;
    && |refs0| == 141 && |all| == BLOCKS && hi < BLOCKS && InUse(refs, hi + 1) && Distinct(refs)
    && (forall i :: 0 <= i < 141 && refs0[i] != 0 ==> refs[i] == refs0[i])
    && (forall i :: 0 <= i < 141 && refs[i] != 0 ==> refs[i] in d0)
    && (size == 0 || forall i :: 0 <= i <= lo ==> refs0[i] != 0)
    && OnlyAt(d0, d1, TableSet(refs[TABLE])) && OnlyIn(d1, d2, all, lo, hi)
    && (forall i :: lo <= i <= hi ==> all[i] == refs[i])
    && Written(d1, d2, all, size, buf, |buf|)
  }

  lemma PhasesByte(d0: Drive, d1: Drive, d2: Drive, refs0: seq<nat>, refs: seq<nat>, all: seq<nat>, size: nat,
                   buf: seq<byte>, k: nat)
    requires Phases(d0, d1, d2, refs0, refs, all, size, buf) && k < size + |buf|
    ensures ByteAt(d2, refs, k) == if k < size then ByteAt(d0, refs0, k) else buf[k - size]
  {
    var lo, hi, b := size / 512, (size + |buf|) / 512, k / 512;
    if lo <= b {
      assert all[b] == refs[b];
      assert ByteAt(d2, all, k) == ByteAt(d2, refs, k);
      assert k < size ==> ByteAt(d1, all, k) == ByteAt(d1, refs, k);
    } else {
      assert forall i :: lo <= i <= hi ==> all[i] != refs[b];
      assert d2[refs[b]] == d1[refs[b]];
    }
    if k < size {
      assert refs[b] == refs0[b] && refs[b] != refs[TABLE];
      assert d1[refs[b]] == d0[refs[b]];
    }
  }

  lemma PhasesContent(d0: Drive, d1: Drive, d2: Drive, refs0: seq<nat>, refs: seq<nat>, all: seq<nat>, size: nat,
                      buf: seq<byte>)
    requires Phases(d0, d1, d2, refs0, refs, all, size, buf)
    ensures BytesOf(d2, refs, size + |buf|) == BytesOf(d0, refs0, size) + buf
    ensures OnlyAt(d0, d2, NonZero(refs))
    ensures refs[TABLE] in d1 ==> d2[refs[TABLE]] == d1[refs[TABLE]]
  {
    forall k | 0 <= k < size + |buf|
      ensures BytesOf(d2, refs, size + |buf|)[k] == (BytesOf(d0, refs0, size) + buf)[k]
    {
      PhasesByte(d0, d1, d2, refs0, refs, all, size, buf, k);
    }
  }

  /** What file_write has achieved once the blocks are gathered in all. */
  ghost predicate Gathered(ino: Inode, d: Drive, p: Pool, count: nat,
                           p': Pool, d': Drive, sectors: Pointers, all: seq<nat>)
  {
    var lo, hi := ino.size / 512, (ino.size + count) / 512;
    && hi < BLOCKS && |all| == BLOCKS
    && Grown(Refs(ino.sectors, d), Refs(sectors, d'), BlockCount(ino), hi + 1, p, p')
    && Taken(Refs(sectors, d'), p'.used)
    && (forall i :: lo <= i <= hi ==> all[i] == Refs(sectors, d')[i])
    && OnlyAt(d, d', TableSet(sectors[12]))
  }

  /** Lines 261-388. */
  method Gather(ino: Inode, d: Drive, p: Pool, count: nat)
    returns (ok: bool, p': Pool, d': Drive, sectors: Pointers, all: seq<nat>)
    requires WellFormed(ino, d, p) && p.ds in p.used
    requires ino.size + count <= MAX_FILE_SIZE
    ensures ok <==> ino.size + count < MAX_FILE_SIZE && p.FreeCount() >= Needed(ino, count)
    ensures ok ==> Gathered(ino, d, p, count, p', d', sectors, all)
  {
    d', all := d, [];
    ok, p', sectors := FirstBlock(p, d, ino.sectors, BlockCount(ino));
    if !ok { return; }
    var has, will := ino.size / 512 + 1, (ino.size + count) / 512 + 1;
    if will > 140 { ok := false; return; }  // the ASSERT of line 279
    ghost var p1, refs0, refs1 := p', Refs(ino.sectors, d), Refs(sectors, d);
    GrownTaken(refs0, refs1, BlockCount(ino), has, p, p1);
    ok, p', d', sectors, all := CollectBlocks(p', d, sectors, has, will);
    if !ok { return; }
    GrownTaken(refs1, Refs(sectors, d'), has, will, p1, p');
    GrownTwice(refs0, refs1, Refs(sectors, d'), BlockCount(ino), has, will, p, p1, p');
  }

  lemma GatheredSpan(ino: Inode, d: Drive, p: Pool, count: nat,
                     p': Pool, d': Drive, sectors: Pointers, all: seq<nat>)
    requires WellFormed(ino, d, p) && Gathered(ino, d, p, count, p', d', sectors, all)
    ensures Span(all, ino.size / 512, (ino.size + count) / 512, d')
  {
    var refs := Refs(sectors, d');
    forall i | ino.size / 512 <= i <= (ino.size + count) / 512 ensures all[i] in d' && all[i] == refs[i] != 0 {
    }
  }

  lemma PhasesHold(ino: Inode, d: Drive, p: Pool, buf: seq<byte>,
                   p': Pool, d1: Drive, sectors: Pointers, all: seq<nat>, d2: Drive)
    requires WellFormed(ino, d, p) && Gathered(ino, d, p, |buf|, p', d1, sectors, all)
    requires OnlyIn(d1, d2, all, ino.size / 512, (ino.size + |buf|) / 512) && Written(d1, d2, all, ino.size, buf, |buf|)
    ensures Phases(d, d1, d2, Refs(ino.sectors, d), Refs(sectors, d1), all, ino.size, buf)
  {
    var refs0, refs := Refs(ino.sectors, d), Refs(sectors, d1);
    forall i | 0 <= i < 141 && refs[i] != 0 ensures refs[i] in d {
      assert p.ds <= refs[i] < p.ds + p.n;
    }
    if ino.size > 0 {
      forall i | 0 <= i <= ino.size / 512 ensures refs0[i] != 0 {
      }
    }
  }

  /** A file grew by buf: its bytes, its references, the bitmap and the rest of the disk. */
  ghost predicate Appended(ino: Inode, d: Drive, p: Pool, buf: seq<byte>,
                           ino': Inode, d': Drive, p': Pool)
  {
    && WellFormed(ino', d', p')
    && Content(ino', d') == Content(ino, d) + buf
    && Keeps(Refs(ino.sectors, d), Refs(ino'.sectors, d'), p)
    && p' == p.Take(Owned(ino'.sectors, d'))
    && OnlyAt(d, d', Owned(ino'.sectors, d'))
  }

  lemma WriteWellFormed(ino: Inode, d: Drive, p: Pool, buf: seq<byte>,
                        p': Pool, d1: Drive, sectors: Pointers, all: seq<nat>, d2: Drive)
    requires WellFormed(ino, d, p) && Gathered(ino, d, p, |buf|, p', d1, sectors, all)
    requires ino.size + |buf| < MAX_FILE_SIZE
    requires d2.Keys == d.Keys && Refs(sectors, d2) == Refs(sectors, d1)
    ensures WellFormed(Inode(ino.size + |buf|, sectors), d2, p')
  {
  }

  lemma WriteAppended(ino: Inode, d: Drive, p: Pool, buf: seq<byte>,
                      p': Pool, d1: Drive, sectors: Pointers, all: seq<nat>, d2: Drive)
    requires Gathered(ino, d, p, |buf|, p', d1, sectors, all)
    requires Phases(d, d1, d2, Refs(ino.sectors, d), Refs(sectors, d1), all, ino.size, buf)
    requires Refs(sectors, d2) == Refs(sectors, d1)
    requires WellFormed(Inode(ino.size + |buf|, sectors), d2, p')
    ensures Appended(ino, d, p, buf, Inode(ino.size + |buf|, sectors), d2, p')
  {
    hide Distinct, InUse, WellFormed, Phases;
    PhasesContent(d, d1, d2, Refs(ino.sectors, d), Refs(sectors, d1), all, ino.size, buf);
  }

  /** Lines 390-414, with the blocks gathered. */
  method WriteGathered(ghost ino: Inode, ghost d: Drive, ghost p: Pool, buf: seq<byte>,
                       ghost p': Pool, d1: Drive, sectors: Pointers, all: seq<nat>, size: nat)
    returns (d2: Drive, ino': Inode)
    requires WellFormed(ino, d, p) && Gathered(ino, d, p, |buf|, p', d1, sectors, all)
    requires size == ino.size && size + |buf| < MAX_FILE_SIZE
    ensures ino'.size == size + |buf| && Appended(ino, d, p, buf, ino', d2, p')
  {
    hide Appended, Distinct, Taken, InUse, Area, Phases, Grown;
    GatheredSpan(ino, d, p, |buf|, p', d1, sectors, all);
    var size';
    d2, size' := WriteData(d1, all, size, buf);
    ino' := Inode(size', sectors);
    PhasesHold(ino, d, p, buf, p', d1, sectors, all, d2);
    PhasesContent(d, d1, d2, Refs(ino.sectors, d), Refs(sectors, d1), all, ino.size, buf);
    TableKept(sectors, d1, d2);
    WriteWellFormed(ino, d, p, buf, p', d1, sectors, all, d2);
    WriteAppended(ino, d, p, buf, p', d1, sectors, all, d2);
  }

  /** One less than the size, in 32-bit arithmetic: 0xffffffff for an empty file. */
  function LastPos(size: nat): nat {
    if size == 0 then WORD_LIMIT - 1 else size - 1
  }

  /** The position of the last byte; for an empty file the position before the first one, as a 32-bit number. */
  predicate AtLastByte(pos: nat, size: nat) {
    if size == 0 then pos == 0xffff_ffff else pos + 1 == size
  }

  lemma LastPosIs(size: nat)
    ensures AtLastByte(LastPos(size), size)
  {
  }

  lemma LastPosMoves(size: nat, n: nat)
    requires size + n < WORD_LIMIT
    ensures (LastPos(size) + n) % WORD_LIMIT == LastPos(size + n)
  {
    if size == 0 && n > 0 { assert LastPos(size) + n == WORD_LIMIT + (n - 1); }
  }

  /** A sum that wraps is below its first part. */
  lemma WrapsBelow(a: nat, b: nat)
    requires a < WORD_LIMIT && b < WORD_LIMIT
    ensures (a + b) % WORD_LIMIT == if a + b < WORD_LIMIT then a + b else a + b - WORD_LIMIT
  {
  }

  /**
   Overrun: the sum at line 232 wraps, so the check and the count of blocks see a small size, while the loop
   goes on for count bytes and leaves all_blocks; the model does not follow it there.
   */
  method FileWrite(ino: Inode, d: Drive, p: Pool, buf: seq<byte>)
    returns (r: Outcome, ino': Inode, d': Drive, p': Pool, fdPos: nat)
    requires WellFormed(ino, d, p) && p.ds in p.used
    requires |buf| < WORD_LIMIT  // count has 32 bits
    ensures r.Overrun? <==> ino.size + |buf| >= WORD_LIMIT
    ensures r.Refused? <==> MAX_FILE_SIZE < ino.size + |buf| < WORD_LIMIT
    ensures r.Done? <==> ino.size + |buf| < MAX_FILE_SIZE && p.FreeCount() >= Needed(ino, |buf|)
    ensures r.Done? ==> r.count == |buf| && Appended(ino, d, p, buf, ino', d', p')
    ensures r.Done? ==> AtLastByte(fdPos, ino'.size)
    ensures r.Refused? ==> ino' == ino && d' == d && p' == p
  {
    hide Appended, Gathered, InUse, Distinct, Taken, Area, Refs, LastPos, Needed;
    ino', d', p', fdPos := ino, d, p, 0;
    SizeBound(ino, d, p);
    var wanted := (ino.size + |buf|) % WORD_LIMIT;
    WrapsBelow(ino.size, |buf|);
    if wanted > MAX_FILE_SIZE { r := Refused; return; }
    if wanted < ino.size { r := Overrun; return; }
    var ok, sectors, all;
    ok, p', d', sectors, all := Gather(ino, d, p, |buf|);
    if !ok { r := Halted; return; }
    fdPos := LastPos(ino.size);
    d', ino' := WriteGathered(ino, d, p, buf, p', d', sectors, all, ino.size);
    LastPosMoves(ino.size, |buf|);
    LastPosIs(ino'.size);
    fdPos := (fdPos + |buf|) % WORD_LIMIT;
    r := Done(|buf|);
  }

  // ---------------------------------------------------------------- file_read

  /** Lines 455-496: the addresses of blocks [start, end]. */
  method ReadBlocks(ino: Inode, d: Drive, ghost p: Pool, start: nat, end: nat) returns (all: seq<nat>)
    requires WellFormed(ino, d, p) && start <= end < 139 && end <= ino.size / 512
    ensures |all| == BLOCKS && forall i :: start <= i <= end ==> all[i] == Refs(ino.sectors, d)[i]
  {
    all := seq(BLOCKS, i => 0);
    if start == end {
      if end < 12 {
        all := all[end := ino.sectors[end]];
      } else {
        all := ReadTable(p, d, ino.sectors, BlockCount(ino));
      }
    } else {
      var stop := if end < 12 then end + 1 else 12;
      if end >= 12 {
        all := ReadTable(p, d, ino.sectors, BlockCount(ino));  // leaves all_blocks[0..12] alone
      }
      var blockIdx := start;
      while blockIdx < stop
        invariant start <= blockIdx && (blockIdx <= stop || blockIdx == start) && |all| == BLOCKS
        invariant forall i :: start <= i < blockIdx && i < 12 ==> all[i] == ino.sectors[i]
        invariant end >= 12 ==> forall i :: 12 <= i < BLOCKS ==> all[i] == Refs(ino.sectors, d)[i]
      {
        all := all[blockIdx := ino.sectors[blockIdx]];
        blockIdx := blockIdx + 1;
      }
    }
  }

  /** Lines 497-515. */
  method ReadData(d: Drive, all: seq<nat>, pos: nat, size: nat) returns (data: seq<byte>, pos': nat)
    requires |all| == BLOCKS && (pos + size) / 512 < BLOCKS
    requires forall i :: pos / 512 <= i <= (pos + size) / 512 && 512 * i < pos + size ==> all[i] in d
    ensures |data| == size && pos' == pos + size
    ensures forall k :: 0 <= k < size ==> data[k] == ByteAt(d, all, pos + k)
  {
    data, pos' := [], pos;
    while |data| < size
      invariant |data| <= size && pos' == pos + |data|
      invariant forall k :: 0 <= k < |data| ==> data[k] == ByteAt(d, all, pos + k)
      decreases size - |data|
    {
      var secIdx, secOff := pos' / 512, pos' % 512;
      var secLba, secLeft := all[secIdx], 512 - secOff;
      var sizeLeft := size - |data|;
      var chunk := if sizeLeft < secLeft then sizeLeft else secLeft;
      var io := d[secLba];
      ghost var before := data;
      data := data + io[secOff..secOff + chunk];
      ReadStep(d, all, pos, before, chunk);
      pos' := pos' + chunk;
    }
  }

  lemma ReadStep(d: Drive, all: seq<nat>, pos: nat, data: seq<byte>, chunk: nat)
    requires (pos + |data|) / 512 < |all| && all[(pos + |data|) / 512] in d && (pos + |data|) % 512 + chunk <= 512
    requires forall k :: 0 <= k < |data| ==> data[k] == ByteAt(d, all, pos + k)
    ensures var off := (pos + |data|) % 512;
            var data' := data + d[all[(pos + |data|) / 512]][off..off + chunk];
            forall k :: 0 <= k < |data'| ==> data'[k] == ByteAt(d, all, pos + k)
  {
    var p0, off := pos + |data|, (pos + |data|) % 512;
    var data' := data + d[all[p0 / 512]][off..off + chunk];
    forall k | |data| <= k < |data'| ensures data'[k] == ByteAt(d, all, pos + k) {
      assert (pos + k) / 512 == p0 / 512 && (pos + k) % 512 == off + (k - |data|);
    }
  }

  function Available(ino: Inode, fdPos: nat, count: nat): (n: nat)
    requires fdPos <= ino.size
    ensures fdPos + n <= ino.size && n <= count && (n < count ==> fdPos + n == ino.size)
  {
    if fdPos + count > ino.size then ino.size - fdPos else count
  }

  /** Lines 424-434: the length of the read, in 32 bits. */
  method Clip(inoSize: nat, fdPos: nat, count: nat) returns (refused: bool, size: nat)
    requires inoSize < MAX_FILE_SIZE && count < WORD_LIMIT && (fdPos <= inoSize || fdPos == 0xffff_ffff)
    ensures size < WORD_LIMIT && (refused <==> fdPos == inoSize && 0 < count < WORD_LIMIT - fdPos)
    ensures !refused && fdPos <= inoSize ==>
              size == if fdPos + count >= WORD_LIMIT || count < inoSize - fdPos then count else inoSize - fdPos
  {
    WrapsBelow(fdPos, count);
    refused, size := false, count;
    if (fdPos + count) % WORD_LIMIT > inoSize {
      size := (inoSize + WORD_LIMIT - fdPos) % WORD_LIMIT;
      if size == 0 { refused := true; }
    }
  }

  lemma SizeBound(ino: Inode, d: Drive, p: Pool)
    requires WellFormed(ino, d, p)
    ensures ino.size < MAX_FILE_SIZE
  {
  }

  lemma Readable(ino: Inode, d: Drive, p: Pool)
    requires WellFormed(ino, d, p)
    ensures forall i :: 0 <= i < |Refs(ino.sectors, d)| && 512 * i < ino.size ==> Refs(ino.sectors, d)[i] in d
  {
    var refs := Refs(ino.sectors, d);
    forall i | 0 <= i < |refs| && 512 * i < ino.size ensures refs[i] in d {
      assert i < BlockCount(ino);
      assert refs[i] != 0;
    }
  }

  /**
   fd_pos is at most the size, or 0xffffffff after an empty write to the empty file; then every read halts.
   A read works exactly when it ends before block 139 (line 450) and the sum at line 428 does not wrap.
   Overrun: the sum wraps, nothing is cut, the assert sees a small block number, and the loop leaves
   all_blocks before it has read count bytes; the model does not follow it there.
   */
  method FileRead(ino: Inode, d: Drive, ghost p: Pool, fdPos: nat, count: nat)
    returns (r: Outcome, data: seq<byte>, fdPos': nat)
    requires WellFormed(ino, d, p) && count < WORD_LIMIT
    requires fdPos <= ino.size || fdPos == 0xffff_ffff
    ensures r.Refused? <==> fdPos == ino.size && 0 < count < WORD_LIMIT - fdPos
    ensures r.Overrun? <==> fdPos <= ino.size && fdPos + count >= WORD_LIMIT && fdPos / 512 < 139
    ensures r.Overrun? ==> (fdPos + count) / 512 >= BLOCKS
    ensures r.Done? <==> !r.Refused? && fdPos <= ino.size && fdPos + count < WORD_LIMIT
                         && (fdPos + Available(ino, fdPos, count)) / 512 < 139
    ensures r.Done? ==> r.count == Available(ino, fdPos, count) && fdPos' == fdPos + r.count
    ensures r.Done? ==> data == Content(ino, d)[fdPos..fdPos + r.count]
  {
    hide WellFormed, Refs, Content;
    SizeBound(ino, d, p);
    data, fdPos' := [], fdPos;
    var refused, size := Clip(ino.size, fdPos, count);
    if refused { r := Refused; return; }
    var start, end := fdPos / 512, (fdPos + size) % WORD_LIMIT / 512;
    WrapsBelow(fdPos, size);
    if !(start < 139 && end < 139) { r := Halted; return; }
    if fdPos + size >= WORD_LIMIT { r := Overrun; return; }
    var all := ReadBlocks(ino, d, p, start, end);
    Readable(ino, d, p);
    data, fdPos' := ReadData(d, all, fdPos, size);
    ReadIsContent(ino, d, all, fdPos, data);
    r := Done(size);
  }

  /** After a write, a read of one byte on the same descriptor gives the last byte written, and then there is nothing. */
  method WriteThenRead(ino: Inode, d: Drive, p: Pool, buf: seq<byte>)
    returns (r: Outcome, back: Outcome, data: seq<byte>, more: Outcome)
    requires WellFormed(ino, d, p) && p.ds in p.used && 0 < |buf| && (ino.size + |buf|) / 512 < 139
    ensures r.Done? <==> p.FreeCount() >= Needed(ino, |buf|)
    ensures r.Done? ==> back == Done(1) && data == [buf[|buf| - 1]] && more.Refused?
  {
    hide WellFormed, Appended, Refs, Content, Needed;
    var ino', d', p', pos, pos', nothing;
    r, ino', d', p', pos := FileWrite(ino, d, p, buf);
    back, data, more := r, [], r;
    if r.Done? {
      AppendedIs(ino, d, p, buf, ino', d', p');
      back, data, pos' := FileRead(ino', d', p', pos, 1);
      more, nothing, pos' := FileRead(ino', d', p', pos', 1);
    }
  }

  lemma AppendedIs(ino: Inode, d: Drive, p: Pool, buf: seq<byte>, ino': Inode, d': Drive, p': Pool)
    requires Appended(ino, d, p, buf, ino', d', p')
    ensures WellFormed(ino', d', p') && ino'.size == ino.size + |buf|
    ensures |Content(ino', d')| == ino'.size && |Content(ino, d)| == ino.size && Content(ino', d') == Content(ino, d) + buf
  {
  }

  lemma ReadIsContent(ino: Inode, d: Drive, all: seq<nat>, pos: nat, data: seq<byte>)
    requires pos + |data| <= ino.size && (pos + |data|) / 512 < |all| <= BLOCKS
    requires forall i :: pos / 512 <= i <= (pos + |data|) / 512 ==> all[i] == Refs(ino.sectors, d)[i]
    requires forall k :: 0 <= k < |data| ==> data[k] == ByteAt(d, all, pos + k)
    ensures data == Content(ino, d)[pos..pos + |data|]
  {
    var refs := Refs(ino.sectors, d);
    forall k | 0 <= k < |data| ensures data[k] == Content(ino, d)[pos + k] {
      assert all[(pos + k) / 512] == refs[(pos + k) / 512];
    }
  }
}
