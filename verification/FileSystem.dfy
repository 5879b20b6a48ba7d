/**
 The operations on a mounted partition: write, create, mkdir, unlink and rmdir, from the point
 where the path has been resolved. Each keeps the ownership of blocks and the directory tree
 in order and does to the tree what its name says.
 */
module FileSystem {
  import opened Sectors
  import opened FileData
  import opened Directory
  import opened Tree
  import opened Volume

  /**
   What holds between operations. inode_sync reaches inode numbers below 256 only, so that is
   how many inodes a partition may have in this model.
   */
  ghost predicate Inv(fs: Fs, rank: map<nat, nat>) {
    BlocksOk(fs) && TreeOk(View(fs), rank) && forall n :: n in fs.inodes ==> n < 256
  }

  lemma NodeOkAt(fs: Fs, n: nat)
    requires BlocksOk(fs) && n in fs.inodes
    ensures InodeOk(fs.inodes[n], n in fs.dirs, fs.d, fs.p)
    ensures n in View(fs) && View(fs)[n] == NodeOf(fs.inodes[n], n in fs.dirs, fs.d)
  {
    hide InodeOk, NodeOf, Owned;
    assert InodeOkAt(fs, n);
  }

  // ---------------------------------------------------------------- file_write on a partition

  method Write(fs: Fs, n: nat, buf: seq<byte>, ghost rank: map<nat, nat>)
    returns (r: Outcome, fs': Fs, fdPos: nat)
    requires Inv(fs, rank) && n in fs.inodes && n !in fs.dirs && |buf| < WORD_LIMIT
    ensures r.Overrun? <==> fs.inodes[n].size + |buf| >= WORD_LIMIT
    ensures r.Refused? <==> MAX_FILE_SIZE < fs.inodes[n].size + |buf| < WORD_LIMIT
    ensures r.Done? <==> fs.inodes[n].size + |buf| < MAX_FILE_SIZE && fs.p.FreeCount() >= Needed(fs.inodes[n], |buf|)
    ensures r.Done? ==> r.count == |buf| && Inv(fs', rank) && n in fs'.inodes
    ensures r.Done? ==> n in View(fs) && View(fs)[n].FileNode? && View(fs') == WriteNode(View(fs), n, buf)
    ensures r.Done? ==> AtLastByte(fdPos, fs'.inodes[n].size) && fs'.inodes == fs.inodes[n := fs'.inodes[n]]
    ensures r.Refused? || r.Halted? ==> fs' == fs
  {
    hide WellFormed, DirOk, Content, Owned, TreeOk, Partition, Area, Appended;
    NodeOkAt(fs, n);
    RootBlockUsed(fs);
    var ino', d', p';
    r, ino', d', p', fdPos := FileWrite(fs.inodes[n], fs.d, fs.p, buf);
    fs' := fs;
    if r.Done? {
      fs' := WithInode(fs, n, ino', d', p');
      WriteGrows(fs, n, buf, ino', d', p');
      GrowthKeepsBlocks(fs, fs', n);
      AppendedContent(fs.inodes[n], fs.d, fs.p, buf, ino', d', p');
      WriteKeepsTree(View(fs), rank, n, buf);
    }
  }

  lemma AppendedContent(ino: Inode, d: Drive, p: Pool, buf: seq<byte>, ino': Inode, d': Drive, p': Pool)
    requires Appended(ino, d, p, buf, ino', d', p')
    ensures Content(ino', d') == Content(ino, d) + buf
  {
  }

  // ---------------------------------------------------------------- creating

  /**
   Created or Removed: done. Stopped: an ASSERT or bitmap_scan halts the kernel. Outside: the
   code goes on with an indirect directory table or an inode number of 256 and up, which the
   model does not follow. NotEmpty: rmdir's refusal.
   */
  datatype OpResult = Created(n: nat) | Removed | Stopped | Outside | NotEmpty

  /** All inode numbers that inode_sync can reach are taken. */
  predicate TableFull(fs: Fs) { forall k :: 0 <= k < 256 ==> k in fs.inodes }

  /** Directory m has all the entries its direct blocks can hold. */
  predicate DirFull(t: Nodes, m: nat) { IsDir(t, m) && |t[m].entries| == PLACES }

  /** Entering a name in directory m takes a block. */
  predicate TakesBlock(fs: Fs, m: nat)
    requires m in fs.inodes
  {
    NeedsBlock(fs.inodes[m].sectors, Slots(fs.inodes[m].sectors, fs.d))
  }

  /** inode_bitmap_alloc: the lowest free inode number; 4096 if there is none. */
  method InodeAlloc(inodes: map<nat, Inode>) returns (n: nat)
    ensures n <= 4096 && (n < 4096 ==> n !in inodes)
    ensures forall k :: 0 <= k < n ==> k in inodes
  {
    n := 0;
    while n < 4096 && n in inodes
      invariant n <= 4096 && forall k :: 0 <= k < n ==> k in inodes
    {
      n := n + 1;
    }
  }

  /** Enter e in directory m. */
  method EnterName(fs: Fs, m: nat, e: Entry) returns (r: InsertResult, fs': Fs)
    requires BlocksOk(fs) && m in fs.inodes && m in fs.dirs && Storable(e) && Live(e)
    requires e.name !in Entries(Slots(fs.inodes[m].sectors, fs.d))
    requires forall i :: 2 <= i < PLACES && Live(Slots(fs.inodes[m].sectors, fs.d)[i])
                 ==> Slots(fs.inodes[m].sectors, fs.d)[i].ino != e.ino
    ensures r.Inserted? ==> BlocksOk(fs') && fs'.dirs == fs.dirs && fs'.inodes.Keys == fs.inodes.Keys
    ensures r.Inserted? ==> fs'.inodes == fs.inodes[m := fs'.inodes[m]] && m in View(fs) && View(fs)[m].DirNode?
    ensures r.Inserted? ==> View(fs') == View(fs)[m := DirNode(View(fs)[m].entries[e.name := (e.ino, e.ftype)])]
    ensures r.BeyondDirect? <==> DirFull(View(fs), m)
    ensures r.NoBlock? <==> !DirFull(View(fs), m) && TakesBlock(fs, m) && fs.p.FreeCount() == 0
  {
    hide NeedsBlock, LiveBefore, WellFormed, Content, Owned, Partition, Area, Slots, Entries, SlotsOk, NoIdleBlock, LiveCount, EntryPut;
    NodeOkAt(fs, m);
    var ino', d', p';
    ghost var j;
    r, ino', d', p', j := SyncDirEntry(fs.inodes[m], fs.d, fs.p, e);
    fs' := fs;
    FullDirectory(Slots(fs.inodes[m].sectors, fs.d));
    if !r.BeyondDirect? { FirstFreePlace(fs.inodes[m].sectors, fs.d, j); }
    if r.Inserted? {
      fs' := WithInode(fs, m, ino', d', p');
      InsertKeepsDir(fs.inodes[m], fs.d, fs.p, e, j, ino', d', p');
      InsertGrows(fs, m, e, j, ino', d', p');
      GrowthKeepsBlocks(fs, fs', m);
    }
  }

  /** A file that was never written owns nothing. */
  lemma NewFileGrows(fs: Fs, n: nat)
    requires BlocksOk(fs) && n !in fs.inodes && n !in fs.dirs
    ensures var fs' := WithInode(fs, n, Inode(0, NO_BLOCKS), fs.d, fs.p);
            GrowthStep(fs, fs', n) && NodeAt(fs', n) == FileNode([])
  {
    hide Partition, InodeOkAt, InodeOk;
    var fs' := WithInode(fs, n, Inode(0, NO_BLOCKS), fs.d, fs.p);
    DirRefs(NO_BLOCKS, fs.d);
    assert Owned(NO_BLOCKS, fs.d) == {};
    NewFileOk(fs.d, fs.p);
    assert Content(Inode(0, NO_BLOCKS), fs.d) == [];
    assert InodeOkAt(fs', n) by { NewInodeOkAt(fs', n); }
  }

  lemma NewInodeOkAt(fs: Fs, n: nat)
    requires n in fs.inodes && n !in fs.dirs && WellFormed(fs.inodes[n], fs.d, fs.p)
    ensures InodeOkAt(fs, n)
  {
  }

  lemma NewFileOk(d: Drive, p: Pool)
    requires Area(d, p)
    ensures WellFormed(Inode(0, NO_BLOCKS), d, p)
  {
    DirRefs(NO_BLOCKS, d);
  }

  /** Nothing in directory m, which is as in tree t, refers to an inode outside t. */
  lemma FreshInode(fs: Fs, t: Nodes, m: nat, n: nat)
    requires BlocksOk(fs) && m in fs.inodes && m in fs.dirs
    requires Closed(t) && n !in t && m in t && m in View(fs) && View(fs)[m] == t[m]
    ensures forall i :: 2 <= i < PLACES && Live(Slots(fs.inodes[m].sectors, fs.d)[i])
                 ==> Slots(fs.inodes[m].sectors, fs.d)[i].ino != n
  {
    hide Partition, WellFormed, Slots, Owned;
    NodeOkAt(fs, m);
    var ss := Slots(fs.inodes[m].sectors, fs.d);
    forall i | 2 <= i < PLACES && Live(ss[i]) ensures ss[i].ino != n {
      PlaceIsName(ss, t, m, i);
    }
  }

  lemma PlaceIsName(ss: seq<Entry>, t: Nodes, m: nat, i: nat)
    requires SlotsOk(ss) && 2 <= i < PLACES && Live(ss[i])
    requires m in t && t[m] == DirNode(Entries(ss))
    ensures Names(t, m, ss[i].name, ss[i].ino)
  {
    EntryAt(ss, i);
    DotPlaces(ss, i);
  }

  method AddFile(fs: Fs, n: nat) returns (fs': Fs)
    requires BlocksOk(fs) && n !in fs.inodes && n !in fs.dirs
    ensures BlocksOk(fs') && View(fs') == View(fs)[n := FileNode([])]
    ensures fs'.dirs == fs.dirs && fs'.inodes == fs.inodes[n := Inode(0, NO_BLOCKS)]
  {
    hide InodeOk, Owned, Partition, NodeOf, Area;
    fs' := WithInode(fs, n, Inode(0, NO_BLOCKS), fs.d, fs.p);
    NewFileGrows(fs, n);
    GrowthKeepsBlocks(fs, fs', n);
  }

  /** The inodes of the directory m and of the new n have changed, and no others. */
  predicate OnlyInodes(fs: Fs, fs': Fs, m: nat, n: nat) {
    m in fs'.inodes && n in fs'.inodes && fs'.inodes == fs.inodes[m := fs'.inodes[m]][n := fs'.inodes[n]]
  }

  /** file_create in directory m. */
  method CreateFile(fs: Fs, m: nat, nm: Name, ghost rank: map<nat, nat>)
    returns (r: OpResult, fs': Fs, ghost rank': map<nat, nat>)
    requires Inv(fs, rank) && m in fs.inodes && m in fs.dirs && NameOk(nm)
    requires m in View(fs) && View(fs)[m].DirNode? && nm !in View(fs)[m].entries
    ensures r.Created? || r.Stopped? || r.Outside?
    ensures r.Created? ==> r.n !in fs.inodes && Inv(fs', rank') && OnlyInodes(fs, fs', m, r.n)
    ensures r.Created? ==> View(fs') == AddNode(View(fs), m, nm, r.n, FileNode([]))
    ensures r.Created? ==> fs'.inodes[r.n] == Inode(0, NO_BLOCKS)
    ensures r.Stopped? <==> !TableFull(fs) && !DirFull(View(fs), m) && TakesBlock(fs, m) && fs.p.FreeCount() == 0
    ensures r.Outside? <==> TableFull(fs) || DirFull(View(fs), m)
    ensures !r.Created? ==> fs' == fs
  {
    hide BlocksOk, TreeOk, NodeAt, Slots, Entries;
    rank', fs' := rank, fs;
    var n := InodeAlloc(fs.inodes);
    assert 256 !in fs.inodes;
    if n == 4096 { r := Stopped; return; }
    if n >= 256 { r := Outside; return; }
    InvFacts(fs, rank);
    NewNameOk(fs, View(fs), m, nm, n, FT_REGULAR);
    var ins;
    ins, fs' := EnterName(fs, m, Entry(nm, n, FT_REGULAR));
    if !ins.Inserted? { r := if ins.NoBlock? then Stopped else Outside; fs' := fs; return; }
    fs' := AddFile(fs', n);
    NewNameTree(fs, rank, m, nm, n, FileNode([]));
    rank' := rank[n := rank[m] + 1];
    assert View(fs') == AddNode(View(fs), m, nm, n, FileNode([]));
    r := Created(n);
  }

  lemma NewNameOk(fs: Fs, t: Nodes, m: nat, nm: Name, n: nat, ftype: nat)
    requires BlocksOk(fs) && m in fs.inodes && m in fs.dirs && NameOk(nm)
    requires Closed(t) && n !in t && m in t && t[m].DirNode? && nm !in t[m].entries && m in View(fs) && View(fs)[m] == t[m]
    requires n < 256 && (ftype == FT_REGULAR || ftype == FT_DIRECTORY)
    ensures Storable(Entry(nm, n, ftype)) && Live(Entry(nm, n, ftype))
    ensures nm !in Entries(Slots(fs.inodes[m].sectors, fs.d))
    ensures forall i :: 2 <= i < PLACES && Live(Slots(fs.inodes[m].sectors, fs.d)[i])
                 ==> Slots(fs.inodes[m].sectors, fs.d)[i].ino != n
  {
    hide InodeOk, Owned, Partition, Slots;
    NodeOkAt(fs, m);
    FreshInode(fs, t, m, n);
  }

  /** What the operations need to know of a well-formed partition without looking inside. */
  lemma InvFacts(fs: Fs, rank: map<nat, nat>)
    requires Inv(fs, rank)
    ensures Closed(View(fs)) && View(fs).Keys == fs.inodes.Keys && fs.dirs <= fs.inodes.Keys
    ensures forall n :: n in fs.inodes ==> n < 256
  {
    hide Partition, InodeOkAt, NodeAt;
  }

  lemma NewNameTree(fs: Fs, rank: map<nat, nat>, m: nat, nm: Name, n: nat, node: Node)
    requires TreeOk(View(fs), rank) && IsDir(View(fs), m) && n !in fs.inodes && nm !in View(fs)[m].entries
    requires Addable(node, n, m) && NameOk(nm)
    ensures m in rank && TreeOk(AddNode(View(fs), m, nm, n, node), rank[n := rank[m] + 1])
  {
    hide NodeAt;
    assert Hangs(View(fs), m) && nm != DOT && nm != DOTDOT;
    AddKeepsTree(View(fs), rank, m, nm, n, node);
  }

  // ---------------------------------------------------------------- mkdir

  lemma NewDirOk(d: Drive, p: Pool, lba: nat, n: nat, m: nat)
    requires Area(d, p) && p.IsFree(lba) && n < 256 && m < 256
    ensures DirOk(Inode(2 * ENTRY_SIZE, NO_BLOCKS[0 := lba]), d[lba := DotsSector(n, m)], p.Take({lba}))
    ensures NodeOf(Inode(2 * ENTRY_SIZE, NO_BLOCKS[0 := lba]), true, d[lba := DotsSector(n, m)]) == EmptyDir(n, m)
  {
    hide DotsSector, Slots, SlotsOk;
    NewDirSlots(d, lba, n, m);
    DotsOnlyOk(Slots(NO_BLOCKS[0 := lba], d[lba := DotsSector(n, m)]), n, m);
  }

  lemma OnePointer(lba: nat)
    requires lba != 0
    ensures PointerSet(NO_BLOCKS[0 := lba]) == {lba}
  {
    assert NO_BLOCKS[0 := lba][0] == lba;
  }

  function WithDir(fs: Fs, n: nat, m: nat, lba: nat): Fs {
    Fs(fs.d[lba := DotsSector(n, m)], fs.p.Take({lba}),
       fs.inodes[n := Inode(2 * ENTRY_SIZE, NO_BLOCKS[0 := lba])], fs.dirs + {n})
  }

  lemma NewDirGrows(fs: Fs, n: nat, m: nat, lba: nat)
    requires BlocksOk(fs) && n !in fs.inodes && n < 256 && m < 256 && fs.p.IsFree(lba)
    ensures GrowthStep(fs, WithDir(fs, n, m, lba), n) && NodeAt(WithDir(fs, n, m, lba), n) == EmptyDir(n, m)
  {
    hide DotsSector, Slots, DirOk, WellFormed, Partition, Owned, NodeOf;
    NewDirOk(fs.d, fs.p, lba, n, m);
    DirOwned(NO_BLOCKS[0 := lba], fs.d[lba := DotsSector(n, m)]);
    OnePointer(lba);
  }

  /** Lines 662-697 of sys_mkdir: the new directory's inode and its first block with the dots. */
  method AddDir(fs: Fs, n: nat, m: nat) returns (ok: bool, fs': Fs)
    requires BlocksOk(fs) && n !in fs.inodes && n < 256 && m < 256
    ensures ok <==> fs.p.FreeCount() > 0
    ensures ok ==> BlocksOk(fs') && View(fs') == View(fs)[n := EmptyDir(n, m)]
    ensures ok ==> fs'.dirs == fs.dirs + {n} && fs'.inodes == fs.inodes[n := fs'.inodes[n]]
    ensures ok ==> fs'.p.FreeCount() == fs.p.FreeCount() - 1
    ensures ok ==> forall k :: k in fs.inodes && k in fs.dirs ==> k in fs'.inodes && (TakesBlock(fs', k) <==> TakesBlock(fs, k))
    ensures !ok ==> fs' == fs
  {
    hide NeedsBlock, DotsSector, Slots, DirOk, WellFormed, Partition, Owned, NodeOf;
    fs' := fs;
    var lba, p' := BlockAlloc(fs.p);
    if lba == 0 { ok := false; return; }
    ok := true;
    fs' := WithDir(fs, n, m, lba);
    NewDirGrows(fs, n, m, lba);
    GrowthKeepsBlocks(fs, fs', n);
    forall k | k in fs.inodes && k in fs.dirs ensures TakesBlock(fs', k) <==> TakesBlock(fs, k) {
      PlacesKept(fs, k, lba, DotsSector(n, m));
    }
  }

  /** Writing a free block does not touch the places of a directory. */
  lemma PlacesKept(fs: Fs, k: nat, lba: nat, sec: Sector)
    requires BlocksOk(fs) && k in fs.inodes && k in fs.dirs && fs.p.IsFree(lba) && lba in fs.d
    ensures Slots(fs.inodes[k].sectors, fs.d[lba := sec]) == Slots(fs.inodes[k].sectors, fs.d)
  {
    hide Partition, Owned, Slots, SlotsOk, NoIdleBlock, LiveCount, WellFormed;
    NodeOkAt(fs, k);
    SlotsFramed(fs.inodes[k].sectors, fs.d, fs.d[lba := sec], {lba});
  }

  /** sys_mkdir in directory m. */
  method MakeDir(fs: Fs, m: nat, nm: Name, ghost rank: map<nat, nat>)
    returns (r: OpResult, fs': Fs, ghost rank': map<nat, nat>)
    requires Inv(fs, rank) && m in fs.inodes && m in fs.dirs && NameOk(nm)
    requires m in View(fs) && View(fs)[m].DirNode? && nm !in View(fs)[m].entries
    ensures r.Created? || r.Stopped? || r.Outside?
    ensures r.Created? ==> r.n !in fs.inodes && Inv(fs', rank') && OnlyInodes(fs, fs', m, r.n)
    ensures r.Created? ==> View(fs') == AddNode(View(fs), m, nm, r.n, EmptyDir(r.n, m))
    ensures r.Stopped? <==> !TableFull(fs) && fs.p.FreeCount() < (if TakesBlock(fs, m) && !DirFull(View(fs), m) then 2 else 1)
    ensures r.Outside? <==> TableFull(fs) || (DirFull(View(fs), m) && fs.p.FreeCount() > 0)
    ensures !r.Created? ==> fs' == fs
  {
    hide BlocksOk, TreeOk, NodeAt, Slots, Entries, Closed;
    rank', fs' := rank, fs;
    InvFacts(fs, rank);
    var n := InodeAlloc(fs.inodes);
    assert 256 !in fs.inodes;
    if n == 4096 { r := Stopped; return; }
    if n >= 256 { r := Outside; return; }
    var ok, fs1 := AddDir(fs, n, m);
    if !ok { r := Stopped; return; }
    NewNameOk(fs1, View(fs), m, nm, n, FT_DIRECTORY);
    var ins;
    ins, fs' := EnterName(fs1, m, Entry(nm, n, FT_DIRECTORY));
    if !ins.Inserted? { r := if ins.NoBlock? then Stopped else Outside; fs' := fs; return; }
    NewNameTree(fs, rank, m, nm, n, EmptyDir(n, m));
    rank' := rank[n := rank[m] + 1];
    assert View(fs') == AddNode(View(fs), m, nm, n, EmptyDir(n, m));
    r := Created(n);
  }

  // ---------------------------------------------------------------- removing

  lemma HolderIsUnique(ss: seq<Entry>, n: nat, i: nat, k: nat)
    requires SlotsOk(ss) && HoldsInode(ss, i, n) && HoldsInode(ss, k, n)
    ensures i == k
  {
  }

  lemma NameHasPlace(ss: seq<Entry>, t: Nodes, m: nat, nm: Name, n: nat)
    requires SlotsOk(ss) && m in t && t[m] == DirNode(Entries(ss)) && Names(t, m, nm, n)
    ensures exists i :: 0 <= i < PLACES && HoldsInode(ss, i, n) && ss[i].name == nm
    ensures forall i: nat :: HoldsInode(ss, i, n) ==> ss[i].name == nm
  {
    var i := PlaceOf(ss, nm);
    DotPlaces(ss, i);
    assert HoldsInode(ss, i, n);
    forall k: nat | HoldsInode(ss, k, n) ensures ss[k].name == nm {
      HolderIsUnique(ss, n, i, k);
    }
  }

  /** A place that holds inode n, if there is one, is the place of the one name for it. */
  lemma HolderIsName(ss: seq<Entry>, t: Nodes, m: nat, n: nat, i: nat)
    requires SlotsOk(ss) && m in t && t[m] == DirNode(Entries(ss)) && HoldsInode(ss, i, n)
    ensures Names(t, m, ss[i].name, n) && forall nm :: Names(t, m, nm, n) ==> nm == ss[i].name
  {
    EntryAt(ss, i);
    DotPlaces(ss, i);
    forall nm | Names(t, m, nm, n) ensures nm == ss[i].name {
      NameHasPlace(ss, t, m, nm, n);
    }
  }

  /** delete_dir_entry on directory m: the name of inode n goes, if it has one other than the dots. */
  method DropName(fs: Fs, m: nat, n: nat) returns (found: bool, fs': Fs, ghost nm: Name)
    requires BlocksOk(fs) && m in fs.inodes && m in fs.dirs
    ensures BlocksOk(fs') && fs'.dirs == fs.dirs && fs'.inodes.Keys == fs.inodes.Keys
    ensures m in View(fs) && View(fs)[m].DirNode?
    ensures !found ==> fs' == fs && forall x :: !Names(View(fs), m, x, n)
    ensures found ==> Names(View(fs), m, nm, n) && forall x :: Names(View(fs), m, x, n) ==> x == nm
    ensures found ==> View(fs') == View(fs)[m := DirNode(View(fs)[m].entries - {nm})]
    ensures forall k :: k in fs.inodes && k != m ==> fs'.inodes[k] == fs.inodes[k]
  {
    hide WellFormed, Content, Owned, Partition, Area, Slots, Entries, SlotsOk, NoIdleBlock, LiveSet, EntryCut;
    NodeOkAt(fs, m);
    ghost var ss := Slots(fs.inodes[m].sectors, fs.d);
    SizeOfDir(fs.inodes[m], fs.d, fs.p);
    var ino', d', p';
    ghost var j;
    found, ino', d', p', j := DeleteDirEntry(fs.inodes[m], fs.d, fs.p, n);
    nm, fs' := [], fs;
    if !found {
      forall x | Names(View(fs), m, x, n) ensures false { NameHasPlace(ss, View(fs), m, x, n); }
      return;
    }
    nm := ss[j].name;
    HolderIsName(ss, View(fs), m, n, j);
    DeleteKeepsDir(fs.inodes[m], fs.d, fs.p, j, ino', d', p');
    fs' := WithInode(fs, m, ino', d', p');
    DeleteSteps(fs, m, j, ino', d', p');
    if GrowthStep(fs, fs', m) {
      GrowthKeepsBlocks(fs, fs', m);
    } else {
      ShrinkKeepsBlocks(fs, fs', m, {fs.inodes[m].sectors[j / 21]});
    }
  }

  lemma SizeOfDir(ino: Inode, d: Drive, p: Pool)
    requires DirOk(ino, d, p)
    ensures ino.size >= ENTRY_SIZE
  {
    assert 0 in LiveSet(Slots(ino.sectors, d));
  }

  /** inode_release of an inode that is not the root. */
  method Release(fs: Fs, n: nat) returns (fs': Fs)
    requires BlocksOk(fs) && n in fs.inodes && n != 0
    ensures BlocksOk(fs') && View(fs') == View(fs) - {n}
    ensures fs' == WithoutInode(fs, n)
  {
    hide Partition, Owned, WellFormed, DirOk, NodeOf;
    NodeOkAt(fs, n);
    OwnedInUse(fs.inodes[n], n in fs.dirs, fs.d, fs.p);
    RootBlockIsRoots(fs, n);
    var p' := ReleaseBlocks(fs.inodes[n].sectors, fs.d, fs.p);
    ReleaseKeepsBlocks(fs, n);
    fs' := fs.(inodes := fs.inodes - {n}, dirs := fs.dirs - {n}, p := p');
  }

  lemma RootBlockIsRoots(fs: Fs, n: nat)
    requires BlocksOk(fs) && n in fs.inodes && n != 0
    ensures fs.p.ds !in OwnedBy(fs, n)
  {
    hide InodeOk;
    assert Refs(fs.inodes[0].sectors, fs.d)[0] == fs.p.ds;
    assert fs.p.ds in Owners(fs)[0] && Owners(fs)[0] !! Owners(fs)[n];
  }

  lemma RemovalFacts(fs: Fs, rank: map<nat, nat>, m: nat, n: nat, nm: Name)
    requires Inv(fs, rank) && Names(View(fs), m, nm, n)
    ensures m in fs.inodes && m in fs.dirs && n in fs.inodes && n != 0 && n != m
    ensures n in View(fs) && (View(fs)[n].DirNode? <==> n in fs.dirs)
  {
    hide Partition, Owned, InodeOk, Content, Slots, Entries;
    assert m in View(fs) && View(fs)[m] == NodeAt(fs, m);
    assert n in View(fs) && View(fs)[n] == NodeAt(fs, n);
    if IsDir(View(fs), n) { assert rank[n] == rank[m] + 1; }
  }

  /** sys_unlink, once the path has led to file n, named in directory m, and no one has it open. */
  method Unlink(fs: Fs, m: nat, n: nat, ghost nm: Name, ghost rank: map<nat, nat>) returns (fs': Fs)
    requires Inv(fs, rank) && m in fs.inodes && n in fs.inodes && n !in fs.dirs && Names(View(fs), m, nm, n)
    ensures Inv(fs', rank) && IsDir(View(fs), m) && View(fs') == RemoveNode(View(fs), m, nm, n)
    ensures m in fs'.inodes && fs'.inodes == fs.inodes[m := fs'.inodes[m]] - {n}
  {
    hide BlocksOk, NodeAt, Owned;
    RemovalFacts(fs, rank, m, n, nm);
    var found, fs1;
    ghost var x;
    found, fs1, x := DropName(fs, m, n);
    fs' := Release(fs1, n);
    RemoveKeepsTree(View(fs), rank, m, nm, n);
    assert View(fs') == RemoveNode(View(fs), m, nm, n);
  }

  /** An entry of directory m, the dots included, leads to directory n. */
  predicate Leads(t: Nodes, m: nat, n: nat) {
    IsDir(t, m) && IsDir(t, n) && exists nm :: nm in t[m].entries && t[m].entries[nm] == (n, FT_DIRECTORY)
  }

  predicate Childless(t: Nodes, n: nat) { IsDir(t, n) && t[n].entries.Keys == {DOT, DOTDOT} }

  /** What an entry of a directory can be: ".", "..", or a name. */
  lemma EntryKinds(t: Nodes, rank: map<nat, nat>, m: nat, nm: Name)
    requires TreeOk(t, rank) && IsDir(t, m) && nm in t[m].entries
    ensures var (i, ftype) := t[m].entries[nm];
            && i in t && ftype == TypeOf(t[i]) && (ftype == FT_DIRECTORY ==> Leads(t, m, i))
            && (nm == DOT ==> i == m && IsDir(t, m))
            && (nm == DOTDOT ==> IsDir(t, i) && (i != 0 ==> !Childless(t, i) && i != m))
            && (nm != DOT && nm != DOTDOT ==> Names(t, m, nm, i) && i != m)
  {
    var (i, ftype) := t[m].entries[nm];
    assert Hangs(t, m);
    if nm == DOTDOT {
      if m != 0 {
        var x :| Names(t, ParentOf(t, m), x, m);
        assert x in t[i].entries && rank[m] == rank[i] + 1;
      }
    } else if nm != DOT {
      assert Names(t, m, nm, i);
      if IsDir(t, i) { assert rank[i] == rank[m] + 1; }
    }
  }

  /** A directory with nothing but its dots is led to by its name, or by its own ".". */
  lemma LeadsHow(t: Nodes, rank: map<nat, nat>, m: nat, n: nat)
    requires TreeOk(t, rank) && Leads(t, m, n) && n != 0 && Childless(t, n)
    ensures m != n <==> exists nm :: Names(t, m, nm, n)
  {
    var nm :| nm in t[m].entries && t[m].entries[nm] == (n, FT_DIRECTORY);
    EntryKinds(t, rank, m, nm);
    forall x | Names(t, m, x, n) ensures m != n {
      assert rank[n] == rank[m] + 1;
    }
  }

  /** A directory that goes without its name leaves a name that leads nowhere. */
  lemma LostBreaks(t: Nodes, rank: map<nat, nat>, n: nat)
    requires TreeOk(t, rank) && IsDir(t, n) && n != 0
    ensures !Closed(t - {n})
  {
    assert Hangs(t, n);
    var nm :| Names(t, ParentOf(t, n), nm, n);
    assert rank[n] == rank[ParentOf(t, n)] + 1;
    assert Names(t - {n}, ParentOf(t, n), nm, n);
  }

  /**
   sys_rmdir from what search_file gives: the directory n and the directory m that an entry for it was found in. The
   result of delete_dir_entry is not looked at. After a path that ends in "." m is n itself: there is no name to
   delete, and the directory is released while the one above still names it.
   */
  method RemoveDir(fs: Fs, m: nat, n: nat, ghost rank: map<nat, nat>) returns (r: OpResult, fs': Fs, ghost nm: Name)
    requires Inv(fs, rank) && n != 0 && Leads(View(fs), m, n)
    ensures r.Removed? || r.NotEmpty?
    ensures r.Removed? <==> Childless(View(fs), n)
    ensures r.NotEmpty? ==> fs' == fs
    ensures r.Removed? ==> BlocksOk(fs')
    ensures r.Removed? && m != n ==> Inv(fs', rank) && Names(View(fs), m, nm, n) && forall x :: Names(View(fs), m, x, n) ==> x == nm
    ensures r.Removed? && m != n ==> View(fs') == RemoveNode(View(fs), m, nm, n)
    ensures r.Removed? && m != n ==> m in fs'.inodes && fs'.inodes == fs.inodes[m := fs'.inodes[m]] - {n}
    ensures r.Removed? && m == n ==> n in fs.inodes && fs'.inodes == fs.inodes - {n} && View(fs') == View(fs) - {n}
    ensures r.Removed? && m == n ==> forall rank' :: !Inv(fs', rank')
  {
    hide BlocksOk, NodeAt, Owned, InodeOk, TreeOk, Closed;
    LeadsFacts(fs, rank, m, n);
    EmptinessFacts(fs, n);
    fs', nm := fs, [];
    if !DirIsEmpty(fs.inodes[n]) { r := NotEmpty; return; }
    assert forall b :: 1 <= b < 13 ==> fs.inodes[n].sectors[b] == 0;  // the ASSERTs of dir_remove
    LeadsHow(View(fs), rank, m, n);
    var found, fs1;
    found, fs1, nm := DropName(fs, m, n);
    fs' := Release(fs1, n);
    r := Removed;
    if m != n {
      RemoveKeepsTree(View(fs), rank, m, nm, n);
      assert View(fs') == RemoveNode(View(fs), m, nm, n);
    } else {
      LostBreaks(View(fs), rank, n);
      NotClosed(View(fs'));
    }
  }

  lemma NotClosed(t: Nodes)
    requires !Closed(t)
    ensures forall rank :: !TreeOk(t, rank)
  {
  }

  lemma LeadsFacts(fs: Fs, rank: map<nat, nat>, m: nat, n: nat)
    requires Inv(fs, rank) && Leads(View(fs), m, n)
    ensures m in fs.inodes && m in fs.dirs && n in fs.inodes && n in fs.dirs
  {
    hide Partition, Owned, InodeOk, Content, Slots, Entries, TreeOk;
    assert View(fs)[m] == NodeAt(fs, m) && View(fs)[n] == NodeAt(fs, n);
  }

  lemma EmptinessFacts(fs: Fs, n: nat)
    requires BlocksOk(fs) && n in fs.inodes && n in fs.dirs
    ensures n in View(fs) && View(fs)[n].DirNode?
    ensures DirIsEmpty(fs.inodes[n]) <==> View(fs)[n].entries.Keys == {DOT, DOTDOT}
    ensures DirIsEmpty(fs.inodes[n]) ==> forall b :: 1 <= b < 13 ==> fs.inodes[n].sectors[b] == 0
  {
    hide Partition, Owned, Content, Slots, Entries, WellFormed, LiveSet, BlocksOk;
    NodeOkAt(fs, n);
    EmptyDirHasOneBlock(fs.inodes[n], fs.d, fs.p);
    if View(fs)[n].entries.Keys == {DOT, DOTDOT} {
      TwoNames(Slots(fs.inodes[n].sectors, fs.d));
    }
  }

  lemma TwoNames(ss: seq<Entry>)
    requires SlotsOk(ss) && Entries(ss).Keys == {DOT, DOTDOT}
    ensures LiveSet(ss) == {0, 1}
  {
    forall j | j in LiveSet(ss) ensures j == 0 || j == 1 {
      EntryAt(ss, j);
      assert ss[j].name in Entries(ss).Keys;
      DotPlaces(ss, j);
    }
    assert 0 in LiveSet(ss) && 1 in LiveSet(ss);
  }

  // ---------------------------------------------------------------- format, and any run after it

  /** What partition_format leaves: the root directory in the first of n data blocks. */
  function Formatted(d: Drive, ds: nat, n: nat): Fs {
    Fs(d[ds := DotsSector(0, 0)], Pool(ds, n, {ds}), map[0 := Inode(2 * ENTRY_SIZE, NO_BLOCKS[0 := ds])], {0})
  }

  lemma FormatInv(d: Drive, ds: nat, n: nat)
    requires n > 0 && Area(d, Pool(ds, n, {}))
    ensures Inv(Formatted(d, ds, n), map[0 := 0])
    ensures View(Formatted(d, ds, n)) == map[0 := EmptyDir(0, 0)]
  {
    hide DotsSector, DirOk, Owned, NodeOf;
    var fs := Formatted(d, ds, n);
    var p := Pool(ds, n, {});
    assert p.Take({ds}) == fs.p;
    NewDirOk(d, p, ds, 0, 0);
    DirOwned(fs.inodes[0].sectors, fs.d);
    OnePointer(ds);
    assert Owners(fs) == map[0 := {ds}];
    assert View(fs) == map[0 := EmptyDir(0, 0)];
    assert Dots(View(fs), 0);
  }

  datatype Op = WriteOp(n: nat, buf: seq<byte>) | CreateOp(m: nat, nm: Name) | MkdirOp(m: nat, nm: Name)
              | UnlinkOp(m: nat, nm: Name) | RmdirOp(m: nat, nm: Name)

  /** What an operation did to the tree. */
  datatype Effect = Nothing | Wrote(n: nat, buf: seq<byte>) | Added(m: nat, nm: Name, n: nat, node: Node)
                  | Took(m: nat, nm: Name, n: nat) | Lost(n: nat)

  function Replay(t: Nodes, e: Effect): Nodes {
    match e
    case Nothing => t
    case Wrote(n, buf) => if n in t && t[n].FileNode? then WriteNode(t, n, buf) else t
    case Added(m, nm, n, node) => if IsDir(t, m) then AddNode(t, m, nm, n, node) else t
    case Took(m, nm, n) => if IsDir(t, m) then RemoveNode(t, m, nm, n) else t
    case Lost(n) => t - {n}
  }

  function ReplayAll(t: Nodes, log: seq<Effect>): Nodes {
    if log == [] then t else Replay(ReplayAll(t, log[..|log| - 1]), log[|log| - 1])
  }

  predicate Answers(op: Op, e: Effect) {
    match e
    case Nothing => true
    case Wrote(n, buf) => op == WriteOp(n, buf)
    case Added(m, nm, n, node) => (op == CreateOp(m, nm) && node == FileNode([])) || (op == MkdirOp(m, nm) && node == EmptyDir(n, m))
    case Took(m, nm, _) => op == UnlinkOp(m, nm) || op == RmdirOp(m, nm)
    case Lost(n) => op == RmdirOp(n, DOT)
  }

  /** The inodes that the effect is on are the only ones that differ. */
  predicate Changes(fs: Fs, fs': Fs, e: Effect) {
    match e
    case Nothing => fs'.inodes == fs.inodes
    case Wrote(n, _) => n in fs.inodes && n in fs'.inodes && fs'.inodes == fs.inodes[n := fs'.inodes[n]]
    case Added(m, _, n, node) =>
      && m in fs.inodes && n !in fs.inodes && OnlyInodes(fs, fs', m, n)
      && (node.FileNode? ==> fs'.inodes[n] == Inode(0, NO_BLOCKS))
    case Took(m, nm, n) =>
      && Names(View(fs), m, nm, n)
      && m in fs.inodes && n in fs.inodes && m in fs'.inodes && fs'.inodes == fs.inodes[m := fs'.inodes[m]] - {n}
    case Lost(n) => n in fs.inodes && fs'.inodes == fs.inodes - {n}
  }

  /** rmdir of a path that ends in ".", for a directory that is empty and not the root. */
  predicate Loses(t: Nodes, op: Op) {
    op.RmdirOp? && op.nm == DOT && op.m != 0 && Childless(t, op.m)
  }

  /** What an operation needs to go through. */
  predicate CanDo(fs: Fs, op: Op) {
    if op.WriteOp? then
      && op.n in fs.inodes && op.n !in fs.dirs && fs.inodes[op.n].size + |op.buf| < MAX_FILE_SIZE
      && fs.p.FreeCount() >= Needed(fs.inodes[op.n], |op.buf|)
    else
      && op.m in fs.inodes && op.m in fs.dirs && NameOk(op.nm) && CanName(fs, op)
  }

  predicate CanName(fs: Fs, op: Op)
    requires !op.WriteOp? && op.m in fs.inodes
  {
    var t := View(fs);
    && IsDir(t, op.m)
    && if op.CreateOp? || op.MkdirOp? then
         && op.nm !in t[op.m].entries && !TableFull(fs) && !DirFull(t, op.m)
         && fs.p.FreeCount() >= (if TakesBlock(fs, op.m) then 1 else 0) + (if op.MkdirOp? then 1 else 0)
       else
         && op.nm in t[op.m].entries
         && var n := t[op.m].entries[op.nm].0;
            if op.UnlinkOp? then n in t && t[n].FileNode? else n != 0 && Childless(t, n)
  }

  /** Look a name up in directory m. */
  method Lookup(fs: Fs, m: nat, nm: Name) returns (found: bool, e: Entry)
    requires BlocksOk(fs) && m in fs.inodes && m in fs.dirs && nm != []
    ensures m in View(fs) && View(fs)[m].DirNode?
    ensures found <==> nm in View(fs)[m].entries
    ensures found ==> View(fs)[m].entries[nm] == (e.ino, e.ftype)
  {
    hide WellFormed, Owned, Partition, Slots, Entries, NoIdleBlock, LiveCount, SlotsOk;
    NodeOkAt(fs, m);
    found, e := SearchDirEntry(fs.inodes[m], fs.d, fs.p, nm);
  }

  /** One operation of a run; one that the kernel refuses or does not survive changes nothing here. */
  method Perform(fs: Fs, op: Op, ghost rank: map<nat, nat>)
    returns (fs': Fs, e: Effect, ghost rank': map<nat, nat>)
    requires Inv(fs, rank)
    ensures Answers(op, e) && View(fs') == Replay(View(fs), e) && Changes(fs, fs', e) && BlocksOk(fs')
    ensures CanDo(fs, op) <==> !e.Nothing?
    ensures Loses(View(fs), op) <==> e.Lost?
    ensures if Loses(View(fs), op) then forall any :: !Inv(fs', any) else Inv(fs', rank')
  {
    hide BlocksOk, TreeOk, NodeAt, Owned, AddNode, RemoveNode, WriteNode, EmptyDir;
    fs', e, rank' := fs, Nothing, rank;
    InvFacts(fs, rank);
    if op.WriteOp? {
      if op.n in fs.inodes && op.n !in fs.dirs && |op.buf| < WORD_LIMIT {
        var r, pos;
        r, fs', pos := Write(fs, op.n, op.buf, rank);
        if r.Done? { e := Wrote(op.n, op.buf); } else { fs' := fs; }
      }
    } else if op.m in fs.inodes && op.m in fs.dirs && NameOk(op.nm) {
      if op.CreateOp? || op.MkdirOp? {
        fs', e, rank' := PerformAdd(fs, op, rank);
      } else {
        fs', e := PerformRemove(fs, op, rank);
      }
    }
    if Loses(View(fs), op) { LosesIn(fs, op); }
  }

  lemma LosesIn(fs: Fs, op: Op)
    requires Loses(View(fs), op)
    ensures op.m in fs.inodes && op.m in fs.dirs && NameOk(op.nm)
  {
  }

  method PerformAdd(fs: Fs, op: Op, ghost rank: map<nat, nat>)
    returns (fs': Fs, e: Effect, ghost rank': map<nat, nat>)
    requires Inv(fs, rank) && (op.CreateOp? || op.MkdirOp?)
    requires op.m in fs.inodes && op.m in fs.dirs && NameOk(op.nm)
    ensures Inv(fs', rank') && Answers(op, e) && View(fs') == Replay(View(fs), e) && Changes(fs, fs', e)
    ensures CanDo(fs, op) <==> !e.Nothing?
  {
    hide BlocksOk, TreeOk, NodeAt, Owned, AddNode, RemoveNode, WriteNode;
    fs', e, rank' := fs, Nothing, rank;
    var found, entry := Lookup(fs, op.m, op.nm);
    if found { return; }
    var r;
    if op.CreateOp? {
      r, fs', rank' := CreateFile(fs, op.m, op.nm, rank);
      if r.Created? { e := Added(op.m, op.nm, r.n, FileNode([])); } else { rank' := rank; }
    } else {
      r, fs', rank' := MakeDir(fs, op.m, op.nm, rank);
      if r.Created? { e := Added(op.m, op.nm, r.n, EmptyDir(r.n, op.m)); } else { rank' := rank; }
    }
  }

  lemma EntryFacts(fs: Fs, rank: map<nat, nat>, m: nat, nm: Name)
    requires Inv(fs, rank) && IsDir(View(fs), m) && nm in View(fs)[m].entries
    ensures var t := View(fs);
            var (i, ftype) := t[m].entries[nm];
            && i in t && i in fs.inodes && (ftype == FT_REGULAR || ftype == FT_DIRECTORY)
            && (ftype == FT_REGULAR <==> t[i].FileNode?) && (ftype == FT_REGULAR <==> i !in fs.dirs)
            && (ftype == FT_DIRECTORY ==> Leads(t, m, i))
            && (nm == DOT ==> i == m && ftype == FT_DIRECTORY)
            && (nm == DOTDOT ==> ftype == FT_DIRECTORY && (i != 0 ==> !Childless(t, i) && i != m))
            && (nm != DOT && nm != DOTDOT ==> Names(t, m, nm, i) && i != m)
  {
    hide Partition, Owned, InodeOk, Content, Slots, Entries, TreeOk, Leads, Childless;
    EntryKinds(View(fs), rank, m, nm);
    var i := View(fs)[m].entries[nm].0;
    assert View(fs)[i] == NodeAt(fs, i);
  }

  method PerformRemove(fs: Fs, op: Op, ghost rank: map<nat, nat>) returns (fs': Fs, e: Effect)
    requires Inv(fs, rank) && (op.UnlinkOp? || op.RmdirOp?)
    requires op.m in fs.inodes && op.m in fs.dirs && NameOk(op.nm)
    ensures Answers(op, e) && View(fs') == Replay(View(fs), e) && Changes(fs, fs', e) && BlocksOk(fs')
    ensures CanDo(fs, op) <==> !e.Nothing?
    ensures Loses(View(fs), op) <==> e.Lost?
    ensures if Loses(View(fs), op) then forall any :: !Inv(fs', any) else Inv(fs', rank)
  {
    hide BlocksOk, TreeOk, NodeAt, Owned, AddNode, RemoveNode, WriteNode, EmptyDir;
    fs', e := fs, Nothing;
    var found, entry := Lookup(fs, op.m, op.nm);
    if !found { return; }
    EntryFacts(fs, rank, op.m, op.nm);
    if op.UnlinkOp? {
      if entry.ftype == FT_REGULAR {
        fs' := Unlink(fs, op.m, entry.ino, op.nm, rank);
        e := Took(op.m, op.nm, entry.ino);
      }
    } else if entry.ftype == FT_DIRECTORY && entry.ino != 0 {
      var r;
      ghost var nm;
      r, fs', nm := RemoveDir(fs, op.m, entry.ino, rank);
      if r.Removed? { e := if op.nm == DOT then Lost(entry.ino) else Took(op.m, op.nm, entry.ino); }
    }
  }

  /**
   Any run of operations: as long as none is the rmdir of a path that ends in ".", of an empty directory other than
   the root, ownership and tree stay in order, and the files and directories are those that the effects, in order,
   make of the ones at the start. The first such rmdir ends the run, with a tree that no ranks put in order.
   */
  method Run(fs: Fs, ops: seq<Op>, ghost rank: map<nat, nat>)
    returns (fs': Fs, log: seq<Effect>, lost: bool, ghost rank': map<nat, nat>)
    requires Inv(fs, rank)
    ensures |log| <= |ops| && forall i :: 0 <= i < |log| ==> Answers(ops[i], log[i])
    ensures View(fs') == ReplayAll(View(fs), log) && BlocksOk(fs')
    ensures forall i :: 0 <= i < |log| ==> (Loses(ReplayAll(View(fs), log[..i]), ops[i]) <==> lost && i == |log| - 1)
    ensures if lost then |log| > 0 && forall any :: !Inv(fs', any) else |log| == |ops| && Inv(fs', rank')
  {
    hide BlocksOk, TreeOk, NodeAt, Replay, Answers, Loses, CanDo, Changes;
    fs', log, lost, rank' := fs, [], false, rank;
    while |log| < |ops| && !lost
      invariant |log| <= |ops| && BlocksOk(fs')
      invariant if lost then |log| > 0 && forall any :: !Inv(fs', any) else Inv(fs', rank')
      invariant forall i :: 0 <= i < |log| ==> Answers(ops[i], log[i])
      invariant forall i :: 0 <= i < |log| ==> (Loses(ReplayAll(View(fs), log[..i]), ops[i]) <==> lost && i == |log| - 1)
      invariant View(fs') == ReplayAll(View(fs), log)
      decreases |ops| - |log|
    {
      var e;
      ghost var before := log;
      fs', e, rank' := Perform(fs', ops[|log|], rank');
      log, lost := log + [e], e.Lost?;
      assert log[..|log| - 1] == before;
      assert forall i :: 0 <= i < |before| ==> log[..i] == before[..i];
    }
  }

  // ---------------------------------------------------------------- the partition as an object

  /** An open file: the inode behind the descriptor and fd_pos. */
  datatype OpenFile = OpenFile(n: nat, pos: nat)

  class MountedPartition {
    var fs: Fs
    ghost var rank: map<nat, nat>

    ghost predicate Valid()
      reads this
    {
      Inv(fs, rank)
    }

    ghost function Contents(): Nodes
      reads this
    {
      View(fs)
    }

    /** A freshly formatted partition with n data blocks from sector ds on. */
    constructor (d: Drive, ds: nat, n: nat)
      requires n > 0 && Area(d, Pool(ds, n, {}))
      ensures Valid() && Contents() == map[0 := EmptyDir(0, 0)]
    {
      hide BlocksOk, TreeOk, View, Formatted, EmptyDir;
      FormatInv(d, ds, n);
      fs := Formatted(d, ds, n);
      rank := map[0 := 0];
    }

    method WriteFile(file: OpenFile, buf: seq<byte>) returns (r: Outcome, file': OpenFile)
      requires Valid() && file.n in fs.inodes && file.n !in fs.dirs && |buf| < WORD_LIMIT
      modifies this
      ensures !r.Overrun? ==> Valid()
      ensures r.Overrun? <==> old(fs.inodes[file.n].size) + |buf| >= WORD_LIMIT
      ensures r.Done? <==> old(fs.inodes[file.n].size) + |buf| < MAX_FILE_SIZE
                           && old(fs.p.FreeCount()) >= Needed(old(fs.inodes[file.n]), |buf|)
      ensures r.Refused? <==> MAX_FILE_SIZE < old(fs.inodes[file.n].size) + |buf| < WORD_LIMIT
      ensures r.Done? ==> file.n in old(Contents()) && old(Contents())[file.n].FileNode?
                          && Contents() == WriteNode(old(Contents()), file.n, buf)
      ensures r.Done? ==> file.n in fs.inodes && file'.n == file.n && AtLastByte(file'.pos, fs.inodes[file.n].size)
      ensures r.Refused? || r.Halted? ==> fs == old(fs)
    {
      hide BlocksOk, TreeOk, NodeAt, Needed;
      var fs', pos;
      r, fs', pos := Write(fs, file.n, buf, rank);
      fs := fs';
      file' := if r.Done? then OpenFile(file.n, pos) else file;
    }

    /** A read at any position the descriptor can be at returns that slice of the file. */
    method ReadFile(file: OpenFile, count: nat) returns (r: Outcome, data: seq<byte>, file': OpenFile)
      requires Valid() && file.n in fs.inodes && file.n !in fs.dirs && count < WORD_LIMIT
      requires file.pos <= fs.inodes[file.n].size || file.pos == 0xffff_ffff
      ensures file.n in Contents() && Contents()[file.n].FileNode?
      ensures |Contents()[file.n].bytes| == fs.inodes[file.n].size
      ensures r.Refused? <==> file.pos == fs.inodes[file.n].size && 0 < count < WORD_LIMIT - file.pos
      ensures r.Overrun? <==> file.pos <= fs.inodes[file.n].size && file.pos + count >= WORD_LIMIT && file.pos / 512 < 139
      ensures r.Done? <==> !r.Refused? && file.pos <= fs.inodes[file.n].size && file.pos + count < WORD_LIMIT
                           && (file.pos + Available(fs.inodes[file.n], file.pos, count)) / 512 < 139
      ensures r.Done? ==> r.count == Available(fs.inodes[file.n], file.pos, count)
                          && data == Contents()[file.n].bytes[file.pos..file.pos + r.count]
                          && file' == OpenFile(file.n, file.pos + r.count)
    {
      hide WellFormed, Owned, DirOk, Partition, TreeOk, Refs;
      NodeOkAt(fs, file.n);
      var pos;
      r, data, pos := FileRead(fs.inodes[file.n], fs.d, fs.p, file.pos, count);
      file' := OpenFile(file.n, pos);
    }

    method Apply(op: Op) returns (e: Effect)
      requires Valid()
      modifies this
      ensures Answers(op, e) && Contents() == Replay(old(Contents()), e)
      ensures old(CanDo(fs, op)) <==> !e.Nothing?
      ensures Valid() <==> !old(Loses(View(fs), op))
    {
      hide BlocksOk, TreeOk, NodeAt, Replay, Answers, CanDo, Loses;
      var fs';
      ghost var rank';
      fs', e, rank' := Perform(fs, op, rank);
      fs, rank := fs', rank';
    }
  }
}
