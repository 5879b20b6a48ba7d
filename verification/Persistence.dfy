/**
 The inode table on the disk against the inodes of the mounted partition: every call ends with inode_sync of what
 it changed and with inode_delete of what it removed. The sectors of the table are no data blocks, so the table is a
 drive of its own here.
 */
module Persistence {
  import opened Sectors
  import opened FileData
  import opened Directory
  import opened Tree
  import opened Volume
  import opened FileSystem
  import S = InodeStore

  /** An inode as the table has it. */
  function OnDisk(n: nat, ino: Inode): S.MemInode { S.MemInode(n, ino.size, 0, false, ino.sectors) }

  predicate KeptAt(d: Drive, lba: nat, n: nat, ino: Inode)
    requires S.TableOk(d, lba)
  {
    n < 256 && S.Decode(S.Record(d, lba, n)) == OnDisk(n, ino)
  }

  /** The table has every inode of the partition. */
  predicate Kept(d: Drive, lba: nat, inodes: map<nat, Inode>) {
    S.TableOk(d, lba) && forall n :: n in inodes ==> KeptAt(d, lba, n, inodes[n])
  }

  /** What mounting reads from the table for the inodes whose bits are set. */
  function Loaded(d: Drive, lba: nat, used: set<nat>): map<nat, Inode>
    requires S.TableOk(d, lba) && forall n :: n in used ==> n < 256
  {
    map n | n in used :: var m := S.Decode(S.Record(d, lba, n)); Inode(m.size, m.sectors)
  }

  lemma LoadedIsKept(d: Drive, lba: nat, inodes: map<nat, Inode>)
    requires Kept(d, lba, inodes)
    ensures forall n :: n in inodes ==> n < 256
    ensures Loaded(d, lba, inodes.Keys) == inodes
  {
    hide S.Decode, S.Record, S.TableOk;
    assert forall n :: n in inodes ==> KeptAt(d, lba, n, inodes[n]);
  }

  /** The fields of an inode fit the words of its record. */
  lemma FieldsFit(fs: Fs, rank: map<nat, nat>, n: nat)
    requires Inv(fs, rank) && n in fs.inodes
    ensures n < 256 && S.WordFields(OnDisk(n, fs.inodes[n]))
  {
    hide TreeOk, Partition, NodeOf, Slots, SlotsOk, NoIdleBlock, Owned;
    NodeOkAt(fs, n);
    var ino := fs.inodes[n];
    if n in fs.dirs {
      PlacesBound(Slots(ino.sectors, fs.d));
    } else {
      PointersFit(ino.sectors, fs.d, fs.p);
    }
  }

  lemma PointersFit(sectors: Pointers, d: Drive, p: Pool)
    requires Area(d, p) && Taken(Refs(sectors, d), p.used)
    ensures forall i :: 0 <= i < 13 ==> IsWord(sectors[i])
  {
    forall i | 0 <= i < 13 ensures IsWord(sectors[i]) {
      assert Refs(sectors, d)[if i < 12 then i else TABLE] == sectors[i];
    }
  }

  lemma PlacesBound(ss: seq<Entry>)
    requires |ss| == PLACES
    ensures LiveCount(ss) <= PLACES
  {
    LiveListCount(ss, PLACES);
    FullList(ss, PLACES);
    assert LiveIn(ss, 0, PLACES) == LiveSet(ss);
  }

  lemma Rewrites(d: Drive, d': Drive, lba: nat, inodes: map<nat, Inode>, n: nat, ino: Inode)
    requires Kept(d, lba, inodes) && n < 256 && S.WordFields(OnDisk(n, ino))
    requires S.OneRecord(d, d', lba, n, S.Encode(OnDisk(n, ino)))
    ensures Kept(d', lba, inodes[n := ino])
  {
    hide S.Decode, S.Encode, S.Record, S.TableOk, S.WordFields;
    S.DecodeEncode(OnDisk(n, ino));
    var inodes' := inodes[n := ino];
    forall k | k in inodes' ensures KeptAt(d', lba, k, inodes'[k]) {
      if k != n { assert KeptAt(d, lba, k, inodes[k]); }
    }
  }

  lemma Wipes(d: Drive, d': Drive, lba: nat, inodes: map<nat, Inode>, n: nat, bytes: seq<byte>)
    requires Kept(d, lba, inodes) && S.OneRecord(d, d', lba, n, bytes)
    ensures Kept(d', lba, inodes - {n})
  {
    hide S.Decode, S.Record, S.TableOk;
    forall k | k in inodes - {n} ensures KeptAt(d', lba, k, inodes[k]) {
      assert KeptAt(d, lba, k, inodes[k]);
    }
  }

  /** inode_sync of inode n. */
  method SyncInode(d: Drive, lba: nat, n: nat, ino: Inode, ghost inodes: map<nat, Inode>) returns (d': Drive)
    requires Kept(d, lba, inodes) && n < 256 && S.WordFields(OnDisk(n, ino))
    ensures Kept(d', lba, inodes[n := ino])
  {
    hide S.Decode, S.Encode, S.Record, S.WordFields, S.Overwritten, KeptAt, S.OneRecord;
    d' := S.InodeSync(d, lba, OnDisk(n, ino));
    S.OverwrittenOne(d, lba, n, S.Encode(OnDisk(n, ino)));
    Rewrites(d, d', lba, inodes, n, ino);
  }

  /** The syncs and wipes of the calls. */
  method SaveEffect(d: Drive, lba: nat, fs: Fs, fs': Fs, e: Effect, ghost rank: map<nat, nat>, ghost rank': map<nat, nat>)
    returns (d': Drive)
    requires Kept(d, lba, fs.inodes) && Changes(fs, fs', e) && Inv(fs, rank) && (e.Lost? || Inv(fs', rank'))
    ensures Kept(d', lba, fs'.inodes)
  {
    hide Inv, Kept, S.WordFields, S.Overwritten, S.OneRecord;
    d' := d;
    match e {
      case Nothing =>
      case Wrote(n, _) =>
        FieldsFit(fs', rank', n);
        d' := SyncInode(d, lba, n, fs'.inodes[n], fs.inodes);
      case Added(m, _, n, _) =>
        FieldsFit(fs', rank', m);
        FieldsFit(fs', rank', n);
        d' := SyncInode(d, lba, m, fs'.inodes[m], fs.inodes);
        d' := SyncInode(d', lba, n, fs'.inodes[n], fs.inodes[m := fs'.inodes[m]]);
      case Took(m, _, n) =>
        FieldsFit(fs', rank', m);
        InvFacts(fs, rank);
        d' := SyncInode(d, lba, m, fs'.inodes[m], fs.inodes);
        d' := WipeInode(d', lba, n, fs.inodes[m := fs'.inodes[m]]);
      case Lost(n) =>
        InvFacts(fs, rank);
        d' := WipeInode(d, lba, n, fs.inodes);
    }
  }

  /** inode_delete of inode n. */
  method WipeInode(d: Drive, lba: nat, n: nat, ghost inodes: map<nat, Inode>) returns (d': Drive)
    requires Kept(d, lba, inodes) && n < 256
    ensures Kept(d', lba, inodes - {n})
  {
    hide S.Record, S.Overwritten, KeptAt, S.OneRecord;
    var blank: seq<byte> := seq(S.INODE_SIZE, k => 0);
    d' := S.Overwrite(d, lba, n, blank);
    S.OverwrittenOne(d, lba, n, blank);
    Wipes(d, d', lba, inodes, n, blank);
  }

  /**
   After any run of operations the table on the disk has every inode as the partition has it, so mounting the disk
   again gives the same files and directories. An rmdir of a path that ends in "." ends the run, as in `Run`.
   */
  method RunStored(fs: Fs, ops: seq<Op>, d: Drive, lba: nat, ghost rank: map<nat, nat>)
    returns (fs': Fs, log: seq<Effect>, lost: bool, d': Drive, ghost rank': map<nat, nat>)
    requires Inv(fs, rank) && Kept(d, lba, fs.inodes)
    ensures |log| <= |ops| && View(fs') == ReplayAll(View(fs), log)
    ensures forall i :: 0 <= i < |log| ==> Answers(ops[i], log[i])
    ensures forall i :: 0 <= i < |log| ==> (Loses(ReplayAll(View(fs), log[..i]), ops[i]) <==> lost && i == |log| - 1)
    ensures if lost then |log| > 0 && forall any :: !Inv(fs', any) else |log| == |ops| && Inv(fs', rank')
    ensures S.TableOk(d', lba) && (forall n :: n in fs'.inodes ==> n < 256)
    ensures View(fs'.(inodes := Loaded(d', lba, fs'.inodes.Keys))) == ReplayAll(View(fs), log)
  {
    hide BlocksOk, TreeOk, NodeAt, Replay, Answers, Kept, Changes, Loaded, Loses, CanDo;
    fs', log, lost, d', rank' := fs, [], false, d, rank;
    while |log| < |ops| && !lost
      invariant |log| <= |ops| && Kept(d', lba, fs'.inodes)
      invariant if lost then |log| > 0 && forall any :: !Inv(fs', any) else Inv(fs', rank')
      invariant forall i :: 0 <= i < |log| ==> Answers(ops[i], log[i])
      invariant forall i :: 0 <= i < |log| ==> (Loses(ReplayAll(View(fs), log[..i]), ops[i]) <==> lost && i == |log| - 1)
      invariant View(fs') == ReplayAll(View(fs), log)
      decreases |ops| - |log|
    {
      ghost var before, rank0 := log, rank';
      var next, e;
      next, e, rank' := Perform(fs', ops[|log|], rank');
      d' := SaveEffect(d', lba, fs', next, e, rank0, rank');
      fs', log, lost := next, log + [e], e.Lost?;
      assert log[..|log| - 1] == before;
      assert forall i :: 0 <= i < |before| ==> log[..i] == before[..i];
    }
    TableThere(d', lba, fs'.inodes);
    LoadedIsKept(d', lba, fs'.inodes);
  }

  lemma TableThere(d: Drive, lba: nat, inodes: map<nat, Inode>)
    requires Kept(d, lba, inodes)
    ensures S.TableOk(d, lba)
  {
  }

  lemma FormatKept(lba: nat, d: Drive, ds: nat, n: nat)
    requires IsWord(ds)
    ensures S.TableOk(S.BlankTable(lba), lba)
    ensures Kept(S.Overwritten(S.BlankTable(lba), lba, 0, S.Encode(S.RootInode(ds))), lba, Formatted(d, ds, n).inodes)
  {
    hide S.Encode, S.Record, S.Decode, S.Overwritten;
    S.OverwrittenOne(S.BlankTable(lba), lba, 0, S.Encode(S.RootInode(ds)));
    S.DecodeEncode(S.RootInode(ds));
    assert OnDisk(0, Formatted(d, ds, n).inodes[0]) == S.RootInode(ds);
  }
}
