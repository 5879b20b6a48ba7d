/**
 A mounted partition: all inodes together, who owns which block, and the operations that
 create, write and remove files and directories.
 */
module Volume {
  import opened Sectors
  import opened FileData
  import opened Directory
  import opened Tree

  /**
   The disk, the block bitmap and the inode table; `dirs` are the inodes made as directories.
   How the table is stored in sectors is the subject of module InodeStore.
   */
  datatype Fs = Fs(d: Drive, p: Pool, inodes: map<nat, Inode>, dirs: set<nat>)

  // ---------------------------------------------------------------- one inode and the rest of the disk

  ghost predicate InodeOk(ino: Inode, isDir: bool, d: Drive, p: Pool) {
    if isDir then DirOk(ino, d, p) else WellFormed(ino, d, p)
  }

  function NodeOf(ino: Inode, isDir: bool, d: Drive): Node {
    if isDir then DirNode(Entries(Slots(ino.sectors, d))) else FileNode(Content(ino, d))
  }

  predicate SameArea(p: Pool, p': Pool) {
    p'.Valid() && p'.ds == p.ds && p'.n == p.n
  }

  lemma RefsFramed(sectors: Pointers, d: Drive, d': Drive, s: set<nat>)
    requires OnlyAt(d, d', s) && Owned(sectors, d) !! s
    ensures Refs(sectors, d') == Refs(sectors, d)
  {
    assert sectors[12] != 0 ==> Refs(sectors, d)[TABLE] in Owned(sectors, d);
    TableKept(sectors, d, d');
  }

  lemma OwnedInUse(ino: Inode, isDir: bool, d: Drive, p: Pool)
    requires InodeOk(ino, isDir, d, p)
    ensures Taken(Refs(ino.sectors, d), p.used) && Owned(ino.sectors, d) <= p.used
  {
    if isDir { DirRefsOk(ino.sectors, d, p); }
  }

  lemma FileFramed(ino: Inode, d: Drive, p: Pool, d': Drive, p': Pool, s: set<nat>)
    requires WellFormed(ino, d, p) && OnlyAt(d, d', s) && Owned(ino.sectors, d) !! s
    requires SameArea(p, p') && Owned(ino.sectors, d) <= p'.used
    ensures WellFormed(ino, d', p') && Content(ino, d') == Content(ino, d)
  {
    RefsFramed(ino.sectors, d, d', s);
    var refs := Refs(ino.sectors, d);
    forall k | 0 <= k < ino.size ensures ByteAt(d', refs, k) == ByteAt(d, refs, k) {
      assert refs[k / 512] in Owned(ino.sectors, d);
    }
  }

  lemma SlotsFramed(sectors: Pointers, d: Drive, d': Drive, s: set<nat>)
    requires OnlyAt(d, d', s) && forall b :: 0 <= b < 12 && sectors[b] != 0 ==> sectors[b] !in s
    ensures Slots(sectors, d') == Slots(sectors, d)
  {
    forall j | 0 <= j < PLACES ensures Slot(sectors, d', j) == Slot(sectors, d, j) {
      assert sectors[j / 21] != 0 ==> sectors[j / 21] !in s;
    }
  }

  lemma DirFramed(ino: Inode, d: Drive, p: Pool, d': Drive, p': Pool, s: set<nat>)
    requires DirOk(ino, d, p) && OnlyAt(d, d', s) && Owned(ino.sectors, d) !! s
    requires SameArea(p, p') && Owned(ino.sectors, d) <= p'.used
    ensures DirOk(ino, d', p') && Slots(ino.sectors, d') == Slots(ino.sectors, d)
  {
    forall b | 0 <= b < 12 && ino.sectors[b] != 0 ensures ino.sectors[b] in Owned(ino.sectors, d) {
      assert Refs(ino.sectors, d)[b] == ino.sectors[b];
    }
    SlotsFramed(ino.sectors, d, d', s);
  }

  /** Nothing about an inode changes when only sectors it does not own are written. */
  lemma NodeFramed(ino: Inode, isDir: bool, d: Drive, p: Pool, d': Drive, p': Pool, s: set<nat>)
    requires InodeOk(ino, isDir, d, p) && OnlyAt(d, d', s) && Owned(ino.sectors, d) !! s
    requires SameArea(p, p') && Owned(ino.sectors, d) <= p'.used
    ensures InodeOk(ino, isDir, d', p') && NodeOf(ino, isDir, d') == NodeOf(ino, isDir, d)
    ensures Owned(ino.sectors, d') == Owned(ino.sectors, d)
  {
    RefsFramed(ino.sectors, d, d', s);
    if isDir {
      DirFramed(ino, d, p, d', p', s);
    } else {
      FileFramed(ino, d, p, d', p', s);
    }
  }

  // ---------------------------------------------------------------- ownership

  /** Who owns what: no block has two owners, and exactly the owned blocks are used. */
  ghost predicate Partition(own: map<nat, set<nat>>, used: set<nat>) {
    && (forall m, n :: m in own && n in own && m != n ==> own[m] !! own[n])
    && (forall n :: n in own ==> own[n] <= used)
    && (forall b :: b in used ==> exists n :: n in own && b in own[n])
  }

  lemma PartitionGrows(own: map<nat, set<nat>>, used: set<nat>, n: nat, s: set<nat>)
    requires Partition(own, used)
    requires forall b :: b in s ==> b !in used || (n in own && b in own[n])
    requires n in own ==> own[n] <= s
    ensures Partition(own[n := s], used + s)
  {
    var own' := own[n := s];
    forall b | b in used + s ensures exists m :: m in own' && b in own'[m] {
      if b in s {
        assert b in own'[n];
      } else {
        var m :| m in own && b in own[m];
        assert b in own'[m];
      }
    }
  }

  lemma PartitionShrinks(own: map<nat, set<nat>>, used: set<nat>, n: nat, s: set<nat>)
    requires Partition(own, used) && n in own && s <= own[n]
    ensures Partition(own[n := own[n] - s], used - s)
  {
    var own' := own[n := own[n] - s];
    forall b | b in used - s ensures exists m :: m in own' && b in own'[m] {
      var m :| m in own && b in own[m];
      assert b in own'[m];
    }
  }

  lemma PartitionDrops(own: map<nat, set<nat>>, used: set<nat>, n: nat)
    requires Partition(own, used) && n in own
    ensures Partition(own - {n}, used - own[n])
  {
    var own' := own - {n};
    forall b | b in used - own[n] ensures exists m :: m in own' && b in own'[m] {
      var m :| m in own && b in own[m];
      assert m in own' && b in own'[m];
    }
  }

  // ---------------------------------------------------------------- all inodes together

  function OwnedBy(fs: Fs, n: nat): set<nat>
    requires n in fs.inodes
  {
    Owned(fs.inodes[n].sectors, fs.d)
  }

  function Owners(fs: Fs): map<nat, set<nat>> {
    map n | n in fs.inodes :: OwnedBy(fs, n)
  }

  function NodeAt(fs: Fs, n: nat): Node
    requires n in fs.inodes
  {
    NodeOf(fs.inodes[n], n in fs.dirs, fs.d)
  }

  function View(fs: Fs): Nodes {
    map n | n in fs.inodes :: NodeAt(fs, n)
  }

  ghost predicate InodeOkAt(fs: Fs, n: nat)
    requires n in fs.inodes
  {
    InodeOk(fs.inodes[n], n in fs.dirs, fs.d, fs.p)
  }

  /** The first data block belongs to the root directory, inode 0. */
  predicate RootOk(fs: Fs) {
    0 in fs.inodes && 0 in fs.dirs && fs.dirs <= fs.inodes.Keys && fs.inodes[0].sectors[0] == fs.p.ds
  }

  ghost predicate BlocksOk(fs: Fs) {
    && Area(fs.d, fs.p) && RootOk(fs) && Partition(Owners(fs), fs.p.used)
    && forall n :: n in fs.inodes ==> InodeOkAt(fs, n)
  }

  /** A bit of the block bitmap is set exactly when one inode, and only one, owns the block. */
  lemma BitMeansOneOwner(fs: Fs, b: nat)
    requires BlocksOk(fs)
    ensures b in fs.p.used <==> exists n :: n in fs.inodes && b in OwnedBy(fs, n)
    ensures forall m, n :: m in fs.inodes && n in fs.inodes && b in OwnedBy(fs, m) && b in OwnedBy(fs, n) ==> m == n
  {
    hide InodeOk, NodeOf, Owned;
    var own := Owners(fs);
    assert forall n :: n in fs.inodes ==> own[n] == OwnedBy(fs, n);
    if b in fs.p.used {
      var n :| n in own && b in own[n];
      assert b in OwnedBy(fs, n);
    }
  }

  lemma RootBlockUsed(fs: Fs)
    requires BlocksOk(fs)
    ensures fs.p.ds in fs.p.used
  {
    assert Refs(fs.inodes[0].sectors, fs.d)[0] == fs.p.ds;
    assert fs.p.ds in Owners(fs)[0];
  }

  // ---------------------------------------------------------------- steps on one inode

  /** fs' is fs with inode n replaced or added and the sectors in s rewritten. */
  predicate Replaced(fs: Fs, fs': Fs, n: nat, s: set<nat>) {
    && n in fs'.inodes && fs'.inodes == fs.inodes[n := fs'.inodes[n]]
    && fs'.dirs - {n} == fs.dirs - {n}
    && SameArea(fs.p, fs'.p) && OnlyAt(fs.d, fs'.d, s)
  }

  lemma OtherDirs(fs: Fs, fs': Fs, n: nat, m: nat)
    requires fs'.dirs - {n} == fs.dirs - {n} && m != n
    ensures m in fs'.dirs <==> m in fs.dirs
  {
    assert m in fs'.dirs <==> m in fs'.dirs - {n};
    assert m in fs.dirs <==> m in fs.dirs - {n};
  }

  /** Another inode keeps what it has when the sectors rewritten are not its own and its own stay marked. */
  lemma OtherKept(fs: Fs, fs': Fs, n: nat, s: set<nat>, m: nat)
    requires Replaced(fs, fs', n, s) && m in fs.inodes && m != n && InodeOkAt(fs, m)
    requires OwnedBy(fs, m) !! s && OwnedBy(fs, m) <= fs'.p.used
    ensures InodeOkAt(fs', m) && OwnedBy(fs', m) == OwnedBy(fs, m) && NodeAt(fs', m) == NodeAt(fs, m)
  {
    OtherDirs(fs, fs', n, m);
    NodeFramed(fs.inodes[m], m in fs.dirs, fs.d, fs.p, fs'.d, fs'.p, s);
  }

  /** What is left to show for a step when the other inodes are kept. */
  ghost predicate OthersKept(fs: Fs, fs': Fs, n: nat) {
    && n in fs'.inodes && fs'.inodes.Keys == fs.inodes.Keys + {n}
    && forall m :: m in fs.inodes && m != n ==>
         InodeOkAt(fs', m) && OwnedBy(fs', m) == OwnedBy(fs, m) && NodeAt(fs', m) == NodeAt(fs, m)
  }

  lemma KeptMaps(fs: Fs, fs': Fs, n: nat)
    requires OthersKept(fs, fs', n)
    ensures Owners(fs') == Owners(fs)[n := OwnedBy(fs', n)]
    ensures View(fs') == View(fs)[n := NodeAt(fs', n)]
  {
    hide InodeOk, NodeOf, Owned;
  }

  /** An inode takes free blocks, marks them, and writes only to blocks it then owns. */
  ghost predicate GrowthStep(fs: Fs, fs': Fs, n: nat) {
    && n in fs'.inodes && Replaced(fs, fs', n, OwnedBy(fs', n))
    && InodeOkAt(fs', n) && RootOk(fs')
    && fs'.p.used == fs.p.used + OwnedBy(fs', n)
    && (forall b :: b in OwnedBy(fs', n) ==> b !in fs.p.used || (n in fs.inodes && b in OwnedBy(fs, n)))
    && (n in fs.inodes ==> OwnedBy(fs, n) <= OwnedBy(fs', n))
  }

  lemma GrowthOthers(fs: Fs, fs': Fs, n: nat)
    requires BlocksOk(fs) && GrowthStep(fs, fs', n)
    ensures OthersKept(fs, fs', n)
  {
    hide InodeOk, NodeOf, Owned;
    var own := Owners(fs);
    forall m | m in fs.inodes && m != n
      ensures InodeOkAt(fs', m) && OwnedBy(fs', m) == OwnedBy(fs, m) && NodeAt(fs', m) == NodeAt(fs, m)
    {
      assert own[m] == OwnedBy(fs, m) <= fs.p.used;
      assert n in fs.inodes ==> own[n] == OwnedBy(fs, n) && own[m] !! own[n];
      OtherKept(fs, fs', n, OwnedBy(fs', n), m);
    }
  }

  lemma GrowthKeepsBlocks(fs: Fs, fs': Fs, n: nat)
    requires BlocksOk(fs) && GrowthStep(fs, fs', n)
    ensures BlocksOk(fs')
    ensures View(fs') == View(fs)[n := NodeAt(fs', n)]
  {
    hide InodeOk, NodeOf, Owned;
    GrowthOthers(fs, fs', n);
    KeptMaps(fs, fs', n);
    assert n in fs.inodes ==> Owners(fs)[n] == OwnedBy(fs, n);
    PartitionGrows(Owners(fs), fs.p.used, n, OwnedBy(fs', n));
  }

  /** An inode gives blocks back without writing to the disk. */
  ghost predicate ShrinkStep(fs: Fs, fs': Fs, n: nat, s: set<nat>) {
    && n in fs.inodes && n in fs'.inodes && Replaced(fs, fs', n, {})
    && InodeOkAt(fs', n) && RootOk(fs') && s <= OwnedBy(fs, n)
    && fs'.p.used == fs.p.used - s && OwnedBy(fs', n) == OwnedBy(fs, n) - s
  }

  lemma ShrinkKeepsBlocks(fs: Fs, fs': Fs, n: nat, s: set<nat>)
    requires BlocksOk(fs) && ShrinkStep(fs, fs', n, s)
    ensures BlocksOk(fs')
    ensures View(fs') == View(fs)[n := NodeAt(fs', n)]
  {
    hide InodeOk, NodeOf, Owned;
    var own := Owners(fs);
    forall m | m in fs.inodes && m != n
      ensures InodeOkAt(fs', m) && OwnedBy(fs', m) == OwnedBy(fs, m) && NodeAt(fs', m) == NodeAt(fs, m)
    {
      assert own[m] == OwnedBy(fs, m) <= fs.p.used && own[m] !! own[n];
      OtherKept(fs, fs', n, {}, m);
    }
    KeptMaps(fs, fs', n);
    PartitionShrinks(own, fs.p.used, n, s);
  }

  // ---------------------------------------------------------------- the steps the operations take

  function WithInode(fs: Fs, n: nat, ino: Inode, d: Drive, p: Pool): Fs {
    fs.(inodes := fs.inodes[n := ino], d := d, p := p)
  }

  /** A write is a growth step of the file's inode. */
  lemma WriteGrows(fs: Fs, n: nat, buf: seq<byte>, ino': Inode, d': Drive, p': Pool)
    requires BlocksOk(fs) && n in fs.inodes && n !in fs.dirs
    requires Appended(fs.inodes[n], fs.d, fs.p, buf, ino', d', p')
    ensures GrowthStep(fs, WithInode(fs, n, ino', d', p'), n)
  {
    hide WellFormed, DirOk;
    KeepsOwned(Refs(fs.inodes[n].sectors, fs.d), Refs(ino'.sectors, d'), fs.p);
    WellFormedArea(ino', d', p');
  }

  lemma WellFormedArea(ino: Inode, d: Drive, p: Pool)
    requires WellFormed(ino, d, p)
    ensures Area(d, p)
  {
  }

  lemma KeepsOwned(r0: seq<nat>, r1: seq<nat>, p: Pool)
    requires Keeps(r0, r1, p)
    ensures NonZero(r0) <= NonZero(r1)
    ensures forall b :: b in NonZero(r1) ==> b in NonZero(r0) || b !in p.used
  {
    forall b | b in NonZero(r0) ensures b in NonZero(r1) {
      var i :| 0 <= i < |r0| && r0[i] != 0 && r0[i] == b;
      assert r1[i] == b;
    }
    forall b | b in NonZero(r1) ensures b in NonZero(r0) || b !in p.used {
      var i :| 0 <= i < |r1| && r1[i] != 0 && r1[i] == b;
      assert r0[i] != 0 ==> r0[i] == b;
    }
  }

  /** The blocks of a directory. */
  function PointerSet(sectors: Pointers): (s: set<nat>)
    ensures forall b :: 0 <= b < 12 && sectors[b] != 0 ==> sectors[b] in s
  {
    set b | 0 <= b < 12 && sectors[b] != 0 :: sectors[b]
  }

  lemma DirOwned(sectors: Pointers, d: Drive)
    requires sectors[12] == 0
    ensures Owned(sectors, d) == PointerSet(sectors)
  {
    DirRefs(sectors, d);
    var r := Refs(sectors, d);
    forall x | x in NonZero(r) ensures x in PointerSet(sectors) {
      var i :| 0 <= i < |r| && r[i] != 0 && r[i] == x;
    }
    forall x | x in PointerSet(sectors) ensures x in NonZero(r) {
      var b :| 0 <= b < 12 && sectors[b] != 0 && sectors[b] == x;
      assert r[b] == x;
    }
  }

  lemma PutPointers(ino: Inode, d: Drive, p: Pool, e: Entry, j: nat, ino': Inode, d': Drive, p': Pool)
    requires BlocksAt(ino.sectors, d, p) && EntryPut(ino, d, p, e, j, ino', d', p')
    ensures SameArea(p, p') && p'.used == p.used + PointerSet(ino'.sectors)
    ensures PointerSet(ino.sectors) <= PointerSet(ino'.sectors)
    ensures forall b :: b in PointerSet(ino'.sectors) ==> b in PointerSet(ino.sectors) || b !in p.used
    ensures OnlyAt(d, d', PointerSet(ino'.sectors)) && ino'.sectors[12] == 0
    ensures ino'.sectors[0] == ino.sectors[0]
  {
    hide Slots;
    var c := j / 21;
    forall x | x in PointerSet(ino.sectors) ensures x in PointerSet(ino'.sectors) {
      var b :| 0 <= b < 12 && ino.sectors[b] != 0 && ino.sectors[b] == x;
      assert ino'.sectors[b] == x;
    }
    assert PointerSet(ino.sectors) <= p.used;
  }

  lemma PutOwned(ino: Inode, d: Drive, p: Pool, e: Entry, j: nat, ino': Inode, d': Drive, p': Pool)
    requires BlocksAt(ino.sectors, d, p) && EntryPut(ino, d, p, e, j, ino', d', p')
    ensures SameArea(p, p') && p'.used == p.used + Owned(ino'.sectors, d')
    ensures Owned(ino.sectors, d) <= Owned(ino'.sectors, d')
    ensures forall b :: b in Owned(ino'.sectors, d') ==> b in Owned(ino.sectors, d) || b !in p.used
    ensures OnlyAt(d, d', Owned(ino'.sectors, d'))
    ensures ino'.sectors[0] == ino.sectors[0]
  {
    hide Slots;
    DirOwned(ino.sectors, d);
    PutPointers(ino, d, p, e, j, ino', d', p');
    DirOwned(ino'.sectors, d');
  }

  /** Entering a name in directory m is a growth step of its inode. */
  lemma InsertGrows(fs: Fs, m: nat, e: Entry, j: nat, ino': Inode, d': Drive, p': Pool)
    requires BlocksOk(fs) && m in fs.inodes && m in fs.dirs && BlocksAt(fs.inodes[m].sectors, fs.d, fs.p)
    requires EntryPut(fs.inodes[m], fs.d, fs.p, e, j, ino', d', p') && DirOk(ino', d', p')
    ensures GrowthStep(fs, WithInode(fs, m, ino', d', p'), m)
  {
    hide DirOk, Slots, WellFormed, Owned, BlocksAt, EntryPut, Partition;
    PutOwned(fs.inodes[m], fs.d, fs.p, e, j, ino', d', p');
  }

  lemma CutOwned(ino: Inode, d: Drive, p: Pool, j: nat, ino': Inode, d': Drive, p': Pool)
    requires BlocksAt(ino.sectors, d, p) && EntryCut(ino, d, p, j, ino', d', p') && ino.sectors[j / 21] != 0
    ensures SameArea(p, p') && ino'.sectors[0] == ino.sectors[0]
    ensures if LoneEntry(Slots(ino.sectors, d), j)
            then Owned(ino'.sectors, d') == Owned(ino.sectors, d) - {ino.sectors[j / 21]} && d' == d
                 && p'.used == p.used - {ino.sectors[j / 21]}
            else Owned(ino'.sectors, d') == Owned(ino.sectors, d) && p'.used == p.used
                 && OnlyAt(d, d', Owned(ino'.sectors, d'))
    ensures ino.sectors[j / 21] in Owned(ino.sectors, d) && Owned(ino.sectors, d) <= p.used
  {
    hide Slots, LiveIn;
    DirOwned(ino.sectors, d);
    DirOwned(ino'.sectors, d');
    assert PointerSet(ino.sectors) <= p.used;
    if LoneEntry(Slots(ino.sectors, d), j) {
      PointersMinus(ino.sectors, j / 21);
    }
  }

  /** Taking a name out of directory m is a growth step without growth, or gives one block back. */
  lemma DeleteSteps(fs: Fs, m: nat, j: nat, ino': Inode, d': Drive, p': Pool)
    requires BlocksOk(fs) && m in fs.inodes && m in fs.dirs && BlocksAt(fs.inodes[m].sectors, fs.d, fs.p)
    requires EntryCut(fs.inodes[m], fs.d, fs.p, j, ino', d', p') && DirOk(ino', d', p')
    requires fs.inodes[m].sectors[j / 21] != 0
    ensures var fs' := WithInode(fs, m, ino', d', p');
            GrowthStep(fs, fs', m) || ShrinkStep(fs, fs', m, {fs.inodes[m].sectors[j / 21]})
  {
    hide DirOk, Slots, WellFormed, LoneEntry, Owned, BlocksAt, EntryCut, Partition;
    CutOwned(fs.inodes[m], fs.d, fs.p, j, ino', d', p');
  }

  lemma PointersMinus(sectors: Pointers, c: nat)
    requires PointersDiffer(sectors) && c < 12 && sectors[c] != 0
    ensures PointerSet(sectors[c := 0]) == PointerSet(sectors) - {sectors[c]}
  {
    var after: Pointers := sectors[c := 0];
    forall x | x in PointerSet(sectors) - {sectors[c]} ensures x in PointerSet(after) {
      var b :| 0 <= b < 12 && sectors[b] != 0 && sectors[b] == x;
      assert after[b] == x;
    }
    forall x | x in PointerSet(after) ensures x in PointerSet(sectors) && x != sectors[c] {
      var b :| 0 <= b < 12 && after[b] != 0 && after[b] == x;
      assert sectors[b] == x && b != c;
    }
  }

  // ---------------------------------------------------------------- inode_release

  lemma NonZeroPrefix(refs: seq<nat>, i: nat)
    requires i < |refs|
    ensures NonZero(refs[..i + 1]) == NonZero(refs[..i]) + TableSet(refs[i])
  {
    var a, b := refs[..i], refs[..i + 1];
    forall x | x in NonZero(a) + TableSet(refs[i]) ensures x in NonZero(b) {
      if x in NonZero(a) {
        var k :| 0 <= k < |a| && a[k] != 0 && a[k] == x;
        assert b[k] == x;
      } else {
        assert b[i] == x;
      }
    }
    forall x | x in NonZero(b) ensures x in NonZero(a) + TableSet(refs[i]) {
      var k :| 0 <= k < |b| && b[k] != 0 && b[k] == x;
      if k < i { assert a[k] == x; }
    }
  }

  /** Lines 172-207: the table's sector and then every block found goes back to the bitmap. */
  method ReleaseBlocks(sectors: Pointers, d: Drive, p: Pool) returns (p': Pool)
    requires Area(d, p) && Taken(Refs(sectors, d), p.used) && p.ds !in Owned(sectors, d)
    ensures p' == p.(used := p.used - Owned(sectors, d))
  {
    ghost var refs := Refs(sectors, d);
    p' := p;
    var all, blockCnt := seq(BLOCKS, i => 0), 12;
    if sectors[12] != 0 {
      assert sectors[12] == refs[TABLE];
      all := seq(12, i => 0) + DecWords(d[sectors[12]], 0, 128);
      blockCnt := BLOCKS;
      p' := p.(used := p.used - {sectors[12]});
      assert refs[12..BLOCKS] == DecWords(d[sectors[12]], 0, 128);
    }
    all := sectors[..12] + all[12..];
    assert all == refs[..BLOCKS];
    var blockIdx := 0;
    assert NonZero(all[..0]) == {};
    while blockIdx < blockCnt
      invariant blockIdx <= blockCnt
      invariant p' == p.(used := p.used - TableSet(sectors[12]) - NonZero(all[..blockIdx]))
    {
      NonZeroPrefix(all, blockIdx);
      if all[blockIdx] != 0 {
        p' := p'.(used := p'.used - {all[blockIdx]});
      }
      blockIdx := blockIdx + 1;
    }
    AllReleased(refs, blockCnt);
    assert all[..blockCnt] == refs[..blockCnt];
  }

  lemma AllReleased(refs: seq<nat>, cnt: nat)
    requires |refs| == 141 && cnt <= BLOCKS && forall i :: cnt <= i < BLOCKS ==> refs[i] == 0
    ensures NonZero(refs) == TableSet(refs[TABLE]) + NonZero(refs[..cnt])
  {
    forall x | x in NonZero(refs) ensures x in TableSet(refs[TABLE]) + NonZero(refs[..cnt]) {
      var k :| 0 <= k < |refs| && refs[k] != 0 && refs[k] == x;
      if k < cnt { assert refs[..cnt][k] == x; }
    }
    forall x | x in NonZero(refs[..cnt]) ensures x in NonZero(refs) {
      var k :| 0 <= k < cnt && refs[..cnt][k] != 0 && refs[..cnt][k] == x;
      assert refs[k] == x;
    }
  }

  function WithoutInode(fs: Fs, n: nat): Fs
    requires n in fs.inodes
  {
    fs.(inodes := fs.inodes - {n}, dirs := fs.dirs - {n}, p := fs.p.(used := fs.p.used - OwnedBy(fs, n)))
  }

  lemma ReleasedOther(fs: Fs, n: nat, m: nat)
    requires Area(fs.d, fs.p) && n in fs.inodes && m in fs.inodes && m != n && InodeOkAt(fs, m)
    requires OwnedBy(fs, m) !! OwnedBy(fs, n) && OwnedBy(fs, m) <= fs.p.used
    ensures var fs' := WithoutInode(fs, n);
            InodeOkAt(fs', m) && OwnedBy(fs', m) == OwnedBy(fs, m) && NodeAt(fs', m) == NodeAt(fs, m)
  {
    hide Owned, DirOk, WellFormed, NodeOf;
    var fs' := WithoutInode(fs, n);
    assert m in fs'.dirs <==> m in fs.dirs;
    NodeFramed(fs.inodes[m], m in fs.dirs, fs.d, fs.p, fs'.d, fs'.p, {});
  }

  /** Releasing an inode frees exactly the blocks it owned and touches no other inode. */
  lemma ReleaseKeepsBlocks(fs: Fs, n: nat)
    requires BlocksOk(fs) && n in fs.inodes && n != 0
    ensures BlocksOk(WithoutInode(fs, n)) && View(WithoutInode(fs, n)) == View(fs) - {n}
  {
    hide Owned, InodeOk, NodeOf;
    var fs', own := WithoutInode(fs, n), Owners(fs);
    forall m | m in fs.inodes && m != n
      ensures InodeOkAt(fs', m) && OwnedBy(fs', m) == OwnedBy(fs, m) && NodeAt(fs', m) == NodeAt(fs, m)
    {
      assert own[m] == OwnedBy(fs, m) && own[n] == OwnedBy(fs, n);
      ReleasedOther(fs, n, m);
    }
    PartitionDrops(own, fs.p.used, n);
    assert Owners(fs') == own - {n};
  }
}
