/**
 The calls of the file system through the list of open inodes. A call works on the node that inode_open finds, so it
 works on the inode of the partition as long as every node shows it.
 */
module OpenInodes {
  import opened Sectors
  import opened FileData
  import opened Directory
  import opened Tree
  import opened Volume
  import opened FileSystem
  import opened Persistence
  import S = InodeStore

  /** Every node of a number that is in use shows the inode of that number. */
  predicate Agree(open: seq<S.MemInode>, inodes: map<nat, Inode>) {
    forall x :: x in open && x.no in inodes ==> Shows(x, inodes[x.no])
  }

  predicate Shows(x: S.MemInode, ino: Inode) { x.size == ino.size && x.sectors == ino.sectors }

  /** There is a node for n that shows something else than ino. */
  predicate Stale(open: seq<S.MemInode>, n: nat, ino: Inode) {
    exists x :: x in open && x.no == n && !Shows(x, ino)
  }

  /** A create or a mkdir takes a number for which a node is left over that shows something else. */
  predicate TakesStale(open: seq<S.MemInode>, e: Effect, inodes: map<nat, Inode>) {
    e.Added? && e.n in inodes && Stale(open, e.n, inodes[e.n])
  }

  /** A node left over from a removed inode is that of a directory, which has a first block. */
  predicate LeftOver(open: seq<S.MemInode>, live: set<nat>) {
    forall x :: x in open && x.no !in live ==> x.sectors[0] != 0
  }

  lemma NodesAgree(d: Drive, lba: nat, open: seq<S.MemInode>, inodes: map<nat, Inode>)
    requires S.Coherent(d, lba, open, inodes.Keys) && Kept(d, lba, inodes)
    ensures Agree(open, inodes)
  {
    hide S.Decode, S.Record, S.TableOk, S.WordFields, S.Stored;
    forall x | x in open && x.no in inodes ensures Shows(x, inodes[x.no]) {
      var i :| 0 <= i < |open| && open[i] == x;
      assert S.Fits(d, lba, open[i], inodes.Keys) && KeptAt(d, lba, x.no, inodes[x.no]);
    }
  }

  lemma OpenMeansNode(open: seq<S.MemInode>, opens: map<nat, nat>, n: nat)
    requires S.Counted(open, opens)
    ensures n in opens <==> exists x :: x in open && x.no == n
  {
    if n in opens {
      assert n in S.Numbers(open);
    }
    forall x | x in open && x.no == n ensures n in opens {
      assert n in S.Numbers(open);
    }
  }

  /** A file that is created over a left-over node is always shown wrong by it. */
  lemma FileOverNode(open: seq<S.MemInode>, opens: map<nat, nat>, live: set<nat>, n: nat)
    requires S.Counted(open, opens) && LeftOver(open, live) && n !in live
    ensures Stale(open, n, Inode(0, NO_BLOCKS)) <==> n in opens
  {
    hide S.Counted;
    OpenMeansNode(open, opens, n);
    forall x | x in open && x.no == n ensures !Shows(x, Inode(0, NO_BLOCKS)) {
    }
  }

  lemma StaleSame(open: seq<S.MemInode>, open': seq<S.MemInode>, m: nat, n: nat, ino: Inode)
    requires S.SameOthers(open, open', m) && n != m
    ensures Stale(open, n, ino) <==> Stale(open', n, ino)
  {
  }

  lemma LeftOverSame(open: seq<S.MemInode>, open': seq<S.MemInode>, m: nat, live: set<nat>)
    requires S.SameOthers(open, open', m) && m in live && LeftOver(open, live)
    ensures LeftOver(open', live)
  {
  }

  lemma LeftOverFrom(open: seq<S.MemInode>, open': seq<S.MemInode>, live: set<nat>)
    requires S.ShowsSame(open, open') && LeftOver(open, live)
    ensures LeftOver(open', live)
  {
    forall x | x in open' && x.no !in live ensures x.sectors[0] != 0 {
      var y :| y in open && S.Pure(y) == S.Pure(x);
    }
  }

  /** The list and the table on the disk are in line with the inodes. */
  ghost predicate Ready(table: S.InodeTable, inodes: map<nat, Inode>)
    reads table
  {
    table.Valid() && table.live == inodes.Keys && Kept(table.d, table.lba, inodes) && LeftOver(table.open, table.live)
  }

  lemma ReadyAgrees(table: S.InodeTable, inodes: map<nat, Inode>)
    requires Ready(table, inodes)
    ensures Agree(table.open, inodes)
  {
    hide S.Coherent, Kept, S.Counted;
    NodesAgree(table.d, table.lba, table.open, inodes);
  }

  lemma SyncedKept(d: Drive, d': Drive, lba: nat, inodes: map<nat, Inode>, n: nat, ino: Inode)
    requires Kept(d, lba, inodes) && n < 256 && S.WordFields(OnDisk(n, ino))
    requires S.Synced(d, d', lba, S.MemInode(n, ino.size, 0, false, ino.sectors))
    ensures Kept(d', lba, inodes[n := ino])
  {
    hide Kept, S.WordFields, S.OneRecord, S.Encode;
    Rewrites(d, d', lba, inodes, n, ino);
  }

  lemma Words(n: nat, ino: Inode)
    requires S.WordFields(OnDisk(n, ino))
    ensures IsWord(ino.size) && forall i :: 0 <= i < 13 ==> IsWord(ino.sectors[i])
  {
  }

  /** A call opens inode m, changes it, syncs it and closes it. */
  method Touch(table: S.InodeTable, m: nat, ino: Inode, ghost inodes: map<nat, Inode>)
    requires m in inodes && m < 256 && S.WordFields(OnDisk(m, ino)) && Ready(table, inodes)
    modifies table
    ensures table.opens == old(table.opens) && S.SameOthers(old(table.open), table.open, m)
    ensures Ready(table, inodes[m := ino])
  {
    hide Kept, S.Sound, S.Fits, S.OneRecord, S.WordFields, LeftOver, S.Encode;
    Words(m, ino);
    ghost var open0, opens0 := table.open, table.opens;
    CountsPositive(table, m);
    var i := table.Open(m);
    table.Update(m, ino.size, ino.sectors);
    SyncedKept(old(table.d), table.d, table.lba, inodes, m, ino);
    table.Close(m);
    BackAgain(opens0, m);
    LeftOverSame(open0, table.open, m, table.live);
    assert inodes[m := ino].Keys == inodes.Keys;
  }

  lemma CountsPositive(table: S.InodeTable, m: nat)
    requires table.Valid()
    ensures m in table.opens ==> table.opens[m] >= 1
  {
    hide S.Coherent;
    if m in table.opens {
      assert m in S.Numbers(table.open);
    }
  }

  lemma BackAgain(opens: map<nat, nat>, m: nat)
    requires m in opens ==> opens[m] >= 1
    ensures S.OneLess(S.OneMore(opens, m), m) == opens
  {
    var k := if m in opens then opens[m] else 0;
    assert m !in opens ==> opens[m := 1] - {m} == opens;
  }

  /** Calls, and the opening and closing that goes on between them: dir_open, dir_close, descriptors, and leaks. */
  datatype Call = Opens(n: nat) | Closes(n: nat) | Does(op: Op)

  /** A write needs a descriptor, and unlink refuses a file that has one. */
  ghost predicate Barred(fs: Fs, opens: map<nat, nat>, op: Op) {
    || (op.WriteOp? && op.n !in opens)
    || (op.UnlinkOp? && IsDir(View(fs), op.m) && op.nm in View(fs)[op.m].entries && View(fs)[op.m].entries[op.nm].0 in opens)
  }

  /** A call that is barred does nothing, and is no rmdir. */
  lemma BarredDoes(fs: Fs, op: Op, open: seq<S.MemInode>)
    requires op.WriteOp? || op.UnlinkOp?
    ensures Answers(op, Nothing) && View(fs) == Replay(View(fs), Nothing) && Changes(fs, fs, Nothing)
    ensures !Loses(View(fs), op) && !TakesStale(open, Nothing, fs.inodes)
  {
  }

  /** A file that is created is open; nothing else changes what is open. */
  function OpensAfter(opens: map<nat, nat>, e: Effect): map<nat, nat> {
    if e.Added? && e.node.FileNode? then S.OneMore(opens, e.n) else opens
  }

  lemma OnlyTwo(fs: Fs, fs': Fs, m: nat, n: nat)
    requires OnlyInodes(fs, fs', m, n)
    ensures m in fs'.inodes && n in fs'.inodes && fs'.inodes == fs.inodes[m := fs'.inodes[m]][n := fs'.inodes[n]]
  {
  }

  lemma DirHasBlock(fs: Fs, rank: map<nat, nat>, n: nat)
    requires Inv(fs, rank) && IsDir(View(fs), n)
    ensures n in fs.inodes && fs.inodes[n].sectors[0] != 0
  {
    hide TreeOk, Partition, Owned, Slots, Entries, SlotsOk, NoIdleBlock, LiveCount, WellFormed, Content;
    NodeOkAt(fs, n);
  }

  /** A call that goes through is on a file with a descriptor, or removes a directory or a file without one. */
  lemma AllowedEffect(fs: Fs, rank: map<nat, nat>, opens: map<nat, nat>, op: Op, e: Effect, fs': Fs)
    requires Inv(fs, rank) && Answers(op, e) && Changes(fs, fs', e) && (CanDo(fs, op) <==> !e.Nothing?)
    requires CanDo(fs, op) ==> !Barred(fs, opens, op)
    requires e.Lost? ==> Loses(View(fs), op)
    ensures e.Wrote? ==> e.n in opens
    ensures (e.Took? || e.Lost?) && e.n in fs.inodes ==> fs.inodes[e.n].sectors[0] != 0 || e.n !in opens
  {
    hide BlocksOk, TreeOk, NodeAt;
    if (e.Took? && op.RmdirOp?) || e.Lost? { DirHasBlock(fs, rank, e.n); }
  }

  /** The node that is written is the one that every later open finds. */
  method SaveWrite(table: S.InodeTable, n: nat, ino: Inode, ghost inodes: map<nat, Inode>)
    requires n in inodes && n < 256 && n in table.opens && S.WordFields(OnDisk(n, ino)) && Ready(table, inodes)
    modifies table
    ensures table.opens == old(table.opens)
    ensures Ready(table, inodes[n := ino])
  {
    hide Kept, S.Sound, S.OneRecord, S.WordFields, LeftOver, S.Encode, S.SameOthers;
    Words(n, ino);
    table.Update(n, ino.size, ino.sectors);
    SyncedKept(old(table.d), table.d, table.lba, inodes, n, ino);
    LeftOverSame(old(table.open), table.open, n, table.live);
    assert inodes[n := ino].Keys == inodes.Keys;
  }

  lemma AddedLeftOver(open: seq<S.MemInode>, open': seq<S.MemInode>, live: set<nat>, n: nat)
    requires LeftOver(open, live) && forall x :: x in open' ==> x in open || x.no == n
    ensures LeftOver(open', live + {n})
  {
  }

  lemma StaleDisagrees(open: seq<S.MemInode>, open': seq<S.MemInode>, n: nat, inodes: map<nat, Inode>)
    requires n in inodes && Stale(open, n, inodes[n]) && forall x :: x in open ==> x in open'
    ensures !Agree(open', inodes)
  {
  }

  /** file_create: the new node stands in front of one that is left over. */
  method SaveFile(table: S.InodeTable, n: nat, ghost inodes: map<nat, Inode>)
    requires n !in inodes && n < 256 && Ready(table, inodes)
    modifies table
    ensures table.opens == S.OneMore(old(table.opens), n)
    ensures Stale(old(table.open), n, Inode(0, NO_BLOCKS)) ==>
              !Agree(table.open, inodes[n := Inode(0, NO_BLOCKS)]) && !Ready(table, inodes[n := Inode(0, NO_BLOCKS)])
    ensures !Stale(old(table.open), n, Inode(0, NO_BLOCKS)) ==> Ready(table, inodes[n := Inode(0, NO_BLOCKS)])
  {
    hide Kept, S.Coherent, S.OneRecord, S.WordFields, LeftOver, S.Encode, Stale, Agree;
    ghost var ino := Inode(0, NO_BLOCKS);
    ghost var inodes' := inodes[n := ino];
    FileOverNode(table.open, table.opens, table.live, n);
    table.Create(n);
    assert NO_BLOCKS == S.NoSectors();
    BlankFits(n);
    SyncedKept(old(table.d), table.d, table.lba, inodes, n, ino);
    AddedLeftOver(old(table.open), table.open, old(table.live), n);
    if Stale(old(table.open), n, ino) { StaleDisagrees(old(table.open), table.open, n, inodes'); }
  }

  lemma BlankFits(n: nat)
    requires n < 256
    ensures S.WordFields(OnDisk(n, Inode(0, NO_BLOCKS)))
  {
  }

  /** sys_mkdir: a node that is left over stands for the new directory. */
  method SaveDir(table: S.InodeTable, n: nat, ino: Inode, ghost inodes: map<nat, Inode>)
    requires n !in inodes && n < 256 && S.WordFields(OnDisk(n, ino)) && Ready(table, inodes)
    modifies table
    ensures table.opens == old(table.opens)
    ensures Stale(old(table.open), n, ino) ==> !Agree(table.open, inodes[n := ino]) && !Ready(table, inodes[n := ino])
    ensures !Stale(old(table.open), n, ino) ==> Ready(table, inodes[n := ino])
  {
    hide Kept, S.Sound, S.OneRecord, S.WordFields, LeftOver, S.Encode, Agree;
    Words(n, ino);
    table.StoreOnly(n, ino.size, ino.sectors);
    SyncedKept(old(table.d), table.d, table.lba, inodes, n, ino);
    AddedLeftOver(old(table.open), table.open, old(table.live), n);
    if Stale(old(table.open), n, ino) { StaleDisagrees(old(table.open), table.open, n, inodes[n := ino]); }
  }

  lemma WipedLeftOver(open: seq<S.MemInode>, live: set<nat>, inodes: map<nat, Inode>, n: nat)
    requires LeftOver(open, live) && live == inodes.Keys && n in inodes && Agree(open, inodes)
    requires inodes[n].sectors[0] != 0 || forall x :: x in open ==> x.no != n
    ensures LeftOver(open, live - {n})
  {
  }

  /** inode_delete: a node that is open stays behind. */
  method SaveRemoval(table: S.InodeTable, n: nat, ghost inodes: map<nat, Inode>)
    requires n in inodes && (inodes[n].sectors[0] != 0 || n !in table.opens) && Ready(table, inodes)
    modifies table
    ensures table.opens == old(table.opens)
    ensures Ready(table, inodes - {n})
  {
    hide Kept, S.Coherent, S.OneRecord, LeftOver, Agree, S.Counted;
    ReadyAgrees(table, inodes);
    OpenMeansNode(table.open, table.opens, n);
    WipedLeftOver(table.open, table.live, inodes, n);
    table.Delete(n);
    Wipes(old(table.d), table.d, table.lba, inodes, n, seq(S.INODE_SIZE, k => 0));
  }

  lemma NothingStale(open: seq<S.MemInode>, inodes: map<nat, Inode>)
    ensures !TakesStale(open, Nothing, inodes)
  {
  }

  /** The call that ends a run, in a partition with tree t and with these nodes. */
  predicate Breaks(t: Nodes, call: Call, open: seq<S.MemInode>, e: Effect, after: Fs) {
    call.Does? && (Loses(t, call.op) || TakesStale(open, e, after.inodes))
  }

  lemma BreaksExactly(t: Nodes, call: Call, open: seq<S.MemInode>, e: Effect, after: Fs)
    requires (e.Lost? <==> call.Does? && Loses(t, call.op)) && (!call.Does? ==> e.Nothing?)
    ensures Breaks(t, call, open, e, after) <==> e.Lost? || TakesStale(open, e, after.inodes)
  {
  }

  lemma NoReplay(t: Nodes)
    ensures ReplayAll(t, []) == t
  {
  }

  lemma ReplayMore(t: Nodes, log: seq<Effect>, e: Effect)
    ensures ReplayAll(t, log + [e]) == Replay(ReplayAll(t, log), e)
  {
    assert (log + [e])[..|log|] == log;
  }

  class OpenPartition {
    const table: S.InodeTable
    var fs: Fs
    ghost var rank: map<nat, nat>

    ghost predicate Valid()
      reads this, table
    {
      Inv(fs, rank) && Ready(table, fs.inodes)
    }

    constructor (fs: Fs, table: S.InodeTable, ghost rank: map<nat, nat>)
      requires table.live == fs.inodes.Keys && table.open == []
      requires Inv(fs, rank) && table.Valid() && Kept(table.d, table.lba, fs.inodes)
      ensures this.fs == fs && this.table == table && Valid()
    {
      hide Inv, S.Sound, Kept;
      this.fs, this.table, this.rank := fs, table, rank;
    }

    /** inode_open: the node shows the inode. */
    method Open(n: nat) returns (x: S.MemInode)
      requires n in fs.inodes && Valid()
      modifies table`open, table`opens
      ensures x.no == n && Shows(x, fs.inodes[n])
      ensures table.opens == S.OneMore(old(table.opens), n)
      ensures S.SameOthers(old(table.open), table.open, n)
      ensures Valid()
    {
      hide Inv, Kept, S.Sound, S.Fits, LeftOver;
      var i := table.Open(n);
      x := table.open[i];
      LeftOverSame(old(table.open), table.open, n, table.live);
      ReadyAgrees(table, fs.inodes);
    }

    method Close(n: nat)
      requires n in table.opens && Valid()
      modifies table`open, table`opens
      ensures table.opens == S.OneLess(old(table.opens), n)
      ensures S.SameOthers(old(table.open), table.open, n)
      ensures Valid()
    {
      hide Inv, Kept, S.Sound, S.SameOthers;
      table.Close(n);
      LeftOverFrom(old(table.open), table.open, table.live);
    }

    /** Is there a node for n in the list? */
    method IsOpen(n: nat) returns (b: bool)
      requires Valid()
      ensures b <==> n in table.opens
    {
      hide Inv, Kept, LeftOver, S.Coherent, S.Counted;
      OpenMeansNode(table.open, table.opens, n);
      var i := table.Find(n);
      b := i < |table.open|;
    }

    /**
     One call. Its effect is that of `Perform`. The nodes go on showing the inodes of the partition exactly when it
     takes no number for which a node is left over that shows something else.
     */
    method Do(op: Op) returns (e: Effect)
      requires Valid()
      modifies this, table
      ensures Answers(op, e) && View(fs) == Replay(old(View(fs)), e) && Changes(old(fs), fs, e)
      ensures table.opens == OpensAfter(old(table.opens), e)
      ensures e.Nothing? <==> !old(CanDo(fs, op)) || old(Barred(fs, table.opens, op))
      ensures e.Lost? <==> old(Loses(View(fs), op))
      ensures e.Lost? ==> forall any :: !Inv(fs, any)
      ensures !e.Lost? ==> (Agree(table.open, fs.inodes) <==> !TakesStale(old(table.open), e, fs.inodes))
      ensures !e.Lost? ==> (Valid() <==> Agree(table.open, fs.inodes))
    {
      hide Inv, Ready, CanDo, Loses, Replay, Answers, Changes, Agree, TakesStale, NodeAt;
      e := Nothing;
      var barred := IsBarred(op);
      if barred {
        BarredDoes(fs, op, table.open);
        ReadyAgrees(table, fs.inodes);
        return;
      }
      var fs';
      ghost var rank';
      fs', e, rank' := Perform(fs, op, rank);
      AllowedEffect(fs, rank, table.opens, op, e, fs');
      Save(fs', e, rank');
    }

    /** Only a write or an unlink can be barred. */
    method IsBarred(op: Op) returns (b: bool)
      requires Valid()
      ensures b ==> op.WriteOp? || op.UnlinkOp?
      ensures CanDo(fs, op) ==> (b <==> Barred(fs, table.opens, op))
    {
      hide Ready, BlocksOk, TreeOk, NodeAt;
      b := false;
      if op.WriteOp? {
        b := IsOpen(op.n);
        b := !b;
      } else if op.UnlinkOp? && op.m in fs.inodes && op.m in fs.dirs && op.nm != [] {
        var found, entry := Lookup(fs, op.m, op.nm);
        if found { b := IsOpen(entry.ino); }
      }
    }

    /** The end of a call: what it changed goes to the nodes and to the disk. */
    method Save(fs': Fs, e: Effect, ghost rank': map<nat, nat>)
      requires Valid() && Changes(fs, fs', e) && (e.Lost? || Inv(fs', rank'))
      requires e.Wrote? ==> e.n in table.opens
      requires (e.Took? || e.Lost?) && e.n in fs.inodes ==> fs.inodes[e.n].sectors[0] != 0 || e.n !in table.opens
      modifies this, table
      ensures fs == fs' && table.opens == OpensAfter(old(table.opens), e)
      ensures !e.Lost? ==> (Agree(table.open, fs.inodes) <==> !TakesStale(old(table.open), e, fs.inodes))
      ensures !e.Lost? ==> (Valid() <==> Agree(table.open, fs.inodes))
    {
      hide Inv, Ready, Agree, Stale, S.WordFields, OnlyInodes;
      ghost var inodes := fs.inodes;
      match e {
        case Nothing =>
        case Wrote(n, _) =>
          FieldsFit(fs', rank', n);
          SaveWrite(table, n, fs'.inodes[n], inodes);
        case Added(m, _, n, node) =>
          OnlyTwo(fs, fs', m, n);
          FieldsFit(fs', rank', m);
          FieldsFit(fs', rank', n);
          Touch(table, m, fs'.inodes[m], inodes);
          StaleSame(old(table.open), table.open, m, n, fs'.inodes[n]);
          if node.FileNode? {
            SaveFile(table, n, inodes[m := fs'.inodes[m]]);
          } else {
            SaveDir(table, n, fs'.inodes[n], inodes[m := fs'.inodes[m]]);
          }
        case Took(m, _, n) =>
          FieldsFit(fs', rank', m);
          Touch(table, m, fs'.inodes[m], inodes);
          SaveRemoval(table, n, inodes[m := fs'.inodes[m]]);
        case Lost(n) =>
          SaveRemoval(table, n, inodes);
      }
      fs, rank := fs', rank';
      if !e.Lost? && Ready(table, fs.inodes) { ReadyAgrees(table, fs.inodes); }
    }

    /** One call of a run; an open or a close is of an inode that is there to be opened or closed. */
    method Make(call: Call) returns (e: Effect)
      requires Valid()
      modifies this, table
      ensures View(fs) == Replay(old(View(fs)), e)
      ensures call.Does? ==> Answers(call.op, e)
      ensures !call.Does? ==> e.Nothing?
      ensures e.Lost? <==> call.Does? && old(Loses(View(fs), call.op))
      ensures e.Lost? ==> forall any :: !Inv(fs, any)
      ensures !e.Lost? ==> (Agree(table.open, fs.inodes) <==> !TakesStale(old(table.open), e, fs.inodes))
      ensures !e.Lost? ==> (Valid() <==> Agree(table.open, fs.inodes))
    {
      hide Inv, Ready, Loses, Answers, Agree, TakesStale, NodeAt, CanDo, Barred, Changes;
      e := Nothing;
      match call {
        case Opens(n) =>
          if n in fs.inodes { var x := Open(n); }
        case Closes(n) =>
          var b := IsOpen(n);
          if b { Close(n); }
        case Does(op) => e := Do(op);
      }
      if !call.Does? {
        NothingStale(old(table.open), fs.inodes);
        ReadyAgrees(table, fs.inodes);
      }
    }

    /**
     Any run of calls with any opening and closing between them: the nodes of the list show the inodes that the
     effects make of the partition, up to the first call that takes a number with a left-over node that shows something
     else, or that is the rmdir of a path that ends in "."; that call ends the run.
     */
    method Run(calls: seq<Call>)
      returns (log: seq<Effect>, good: bool, ghost nodes: seq<seq<S.MemInode>>, ghost after: seq<Fs>)
      requires Valid()
      modifies this, table
      ensures |log| <= |calls| && |nodes| == |after| == |log| && View(fs) == ReplayAll(old(View(fs)), log)
      ensures forall i :: 0 <= i < |log| ==> if calls[i].Does? then Answers(calls[i].op, log[i]) else log[i].Nothing?
      ensures forall i :: 0 <= i < |log| ==>
                (Breaks(ReplayAll(old(View(fs)), log[..i]), calls[i], nodes[i], log[i], after[i]) <==> !good && i == |log| - 1)
      ensures good ==> |log| == |calls| && Valid() && Agree(table.open, fs.inodes)
      ensures !good ==> |log| > 0 && forall any :: !(Inv(fs, any) && Agree(table.open, fs.inodes))
    {
      hide Inv, Ready, Loses, Answers, Agree, TakesStale, View, Replay, ReplayAll, Breaks;
      ghost var t0 := View(fs);
      assert View(fs) == ReplayAll(t0, []) by { NoReplay(t0); }
      log, good, nodes, after := [], true, [], [];
      ReadyAgrees(table, fs.inodes);
      while |log| < |calls| && good
        invariant |log| <= |calls| && |nodes| == |after| == |log| && View(fs) == ReplayAll(old(View(fs)), log)
        invariant forall i :: 0 <= i < |log| ==> if calls[i].Does? then Answers(calls[i].op, log[i]) else log[i].Nothing?
        invariant forall i :: 0 <= i < |log| ==>
                    (Breaks(ReplayAll(old(View(fs)), log[..i]), calls[i], nodes[i], log[i], after[i]) <==> !good && i == |log| - 1)
        invariant good ==> Valid() && Agree(table.open, fs.inodes)
        invariant !good ==> |log| > 0 && forall any :: !(Inv(fs, any) && Agree(table.open, fs.inodes))
        decreases |calls| - |log|
      {
        ghost var before := log;
        var open0, call := table.open, calls[|log|];
        var e := Make(call);
        good := !e.Lost? && !TakesStale(open0, e, fs.inodes);
        log, nodes, after := log + [e], nodes + [open0], after + [fs];
        ReplayMore(t0, before, e);
        assert log[..|before|] == before;
        BreaksExactly(ReplayAll(t0, before), call, open0, e, fs);
        assert forall i :: 0 <= i < |before| ==> log[..i] == before[..i];
      }
    }
  }

  /**
   Opening a file of directory n leaves the node of n in the list, since sys_open of an existing file never closes the
   parent directory. After rmdir of n the next file with that number is shown wrong.
   */
  method LeakThenCreate(p: OpenPartition, m: nat, nm: Name, n: nat, m2: nat, nm2: Name) returns (e: Effect, e2: Effect)
    requires n in p.fs.inodes && Names(View(p.fs), m, nm, n) && Childless(View(p.fs), n) && p.Valid()
    modifies p, p.table
    ensures e2.Added? && e2.n == n ==> !Agree(p.table.open, p.fs.inodes)
  {
    hide Inv, Ready, Agree, Names, Childless, Loses, CanDo, Barred, NodeAt, Changes, Replay, TakesStale;
    var x := p.Open(n);
    e := p.Do(RmdirOp(m, nm));
    e2 := Nothing;
    if !e.Lost? {
      NotAdded(e, p.fs.inodes);
      ghost var fs1, open1 := p.fs, p.table.open;
      OverNode(p.table, fs1.inodes, n);
      e2 := p.Do(CreateOp(m2, nm2));
      if e2.Added? && e2.n == n { TakenOver(fs1, p.fs, e2, open1); }
    }
  }

  lemma NotAdded(e: Effect, inodes: map<nat, Inode>)
    requires !e.Added?
    ensures forall open :: !TakesStale(open, e, inodes)
  {
  }

  lemma OverNode(table: S.InodeTable, inodes: map<nat, Inode>, n: nat)
    requires Ready(table, inodes)
    ensures n in table.opens && n !in inodes ==> Stale(table.open, n, Inode(0, NO_BLOCKS))
  {
    hide Kept, S.Coherent, S.Counted, LeftOver;
    if n !in inodes { FileOverNode(table.open, table.opens, table.live, n); }
  }

  lemma TakenOver(fs: Fs, fs': Fs, e: Effect, open: seq<S.MemInode>)
    requires e.Added? && Changes(fs, fs', e) && e.node.FileNode?
    requires e.n !in fs.inodes ==> Stale(open, e.n, Inode(0, NO_BLOCKS))
    ensures TakesStale(open, e, fs'.inodes)
  {
    hide Stale;
  }
}
