/**
 The inode table on disk, 76 bytes an inode so that some straddle two sectors, and the list
 of open inodes in memory.
 */
module InodeStore {
  import opened Sectors
  import opened FileData

  const INODE_SIZE: nat := 76
  const MAX_INODES: nat := 4096
  const TABLE_SECTORS: nat := 608  // 4096 * 76 / 512

  /** struct inode; the list links are the position in the open list. */
  datatype MemInode = MemInode(no: nat, size: nat, openCnts: nat, writeDeny: bool, sectors: Pointers)

  // ---------------------------------------------------------------- records in the table

  predicate TableOk(d: Drive, lba: nat) {
    forall s :: lba <= s < lba + TABLE_SECTORS ==> s in d
  }

  /** Byte i of the table that starts at sector lba. */
  function TableByte(d: Drive, lba: nat, i: nat): byte
    requires TableOk(d, lba) && i < MAX_INODES * INODE_SIZE
  {
    d[lba + i / 512][i % 512]
  }

  /** The 76 bytes of inode n. */
  function Record(d: Drive, lba: nat, n: nat): (r: seq<byte>)
    requires TableOk(d, lba) && n < MAX_INODES
    ensures |r| == INODE_SIZE
    ensures forall k :: 0 <= k < INODE_SIZE ==> r[k] == TableByte(d, lba, INODE_SIZE * n + k)
  {
    seq<byte>(INODE_SIZE, k requires 0 <= k < INODE_SIZE => TableByte(d, lba, INODE_SIZE * n + k))
  }

  predicate WordFields(m: MemInode) {
    IsWord(m.no) && IsWord(m.size) && forall i :: 0 <= i < 13 ==> IsWord(m.sectors[i])
  }

  /** The words of an inode as it is stored: the fields that live only in memory are cleared. */
  function PureWords(m: MemInode): (ws: seq<nat>)
    ensures |ws| == 19
  {
    [m.no, m.size, 0, 0] + m.sectors + [0, 0]
  }

  function Encode(m: MemInode): (s: seq<byte>)
    ensures |s| == INODE_SIZE
  {
    EncWords(PureWords(m))
  }

  function Decode(s: seq<byte>): MemInode
    requires |s| == INODE_SIZE
  {
    MemInode(DecWord(s, 0), DecWord(s, 4), DecWord(s, 8), DecWord(s, 12) != 0, DecWords(s, 16, 13))
  }

  function Pure(m: MemInode): MemInode {
    m.(openCnts := 0, writeDeny := false)
  }

  /** Storing and loading an inode loses only what the kernel means to lose. */
  lemma DecodeEncode(m: MemInode)
    requires WordFields(m)
    ensures Decode(Encode(m)) == Pure(m)
  {
    hide DecWord, DecWords, EncWords;
    var ws, s := PureWords(m), Encode(m);
    assert s[0..0 + 4 * |ws|] == s;
    forall k | 0 <= k < 19 ensures DecWord(s, 4 * k) == ws[k] {
      WordRoundTrip(s, 0, ws, k);
    }
    assert DecWord(s, 4 * 0) == m.no && DecWord(s, 4 * 1) == m.size && DecWord(s, 4 * 2) == 0 && DecWord(s, 4 * 3) == 0;
    forall k | 0 <= k < 13 ensures DecWords(s, 16, 13)[k] == m.sectors[k] {
      DecWordsAt(s, 16, 13, k);
      assert DecWord(s, 4 * (4 + k)) == ws[4 + k];
    }
  }

  // ---------------------------------------------------------------- inode_locate

  datatype Position = Position(twoSec: bool, sec: nat, off: nat)

  function Locate(lba: nat, n: nat): (p: Position)
    requires n < MAX_INODES
    ensures p.off < 512 && lba <= p.sec && p.sec + (if p.twoSec then 1 else 0) < lba + TABLE_SECTORS
    ensures 512 * (p.sec - lba) + p.off == INODE_SIZE * n
    ensures p.twoSec <==> p.off + INODE_SIZE > 512
  {
    var off := n * INODE_SIZE;
    Position(512 - off % 512 < INODE_SIZE, lba + off / 512, off % 512)
  }

  /** The sectors an inode touches, read into one buffer. */
  function ReadAt(d: Drive, p: Position): (s: seq<byte>)
    requires p.sec in d && (p.twoSec ==> p.sec + 1 in d)
    ensures |s| == if p.twoSec then 1024 else 512
  {
    var first: seq<byte> := d[p.sec];
    if p.twoSec then first + d[p.sec + 1] else first
  }

  function WriteAt(d: Drive, p: Position, s: seq<byte>): Drive
    requires |s| == if p.twoSec then 1024 else 512
  {
    if p.twoSec then d[p.sec := s[..512]][p.sec + 1 := s[512..]] else d[p.sec := s]
  }

  function Overwritten(d: Drive, lba: nat, n: nat, bytes: seq<byte>): Drive
    requires TableOk(d, lba) && n < MAX_INODES && |bytes| == INODE_SIZE
  {
    var p := Locate(lba, n);
    WriteAt(d, p, Splice(ReadAt(d, p), p.off, bytes))
  }

  /** Read, splice in 76 bytes, write back: what inode_sync and inode_delete do to the table. */
  method Overwrite(d: Drive, lba: nat, n: nat, bytes: seq<byte>) returns (d': Drive)
    requires TableOk(d, lba) && n < MAX_INODES && |bytes| == INODE_SIZE
    ensures d' == Overwritten(d, lba, n, bytes)
    ensures d'.Keys == d.Keys && TableOk(d', lba)
    ensures forall s :: s in d && !(lba <= s < lba + TABLE_SECTORS) ==> d'[s] == d[s]
    ensures forall i :: 0 <= i < MAX_INODES * INODE_SIZE ==>
              TableByte(d', lba, i) == if INODE_SIZE * n <= i < INODE_SIZE * n + INODE_SIZE then bytes[i - INODE_SIZE * n]
                                       else TableByte(d, lba, i)
  {
    var p := Locate(lba, n);
    var buf := ReadAt(d, p);
    buf := Splice(buf, p.off, bytes);
    d' := WriteAt(d, p, buf);
    forall i | 0 <= i < MAX_INODES * INODE_SIZE
      ensures TableByte(d', lba, i) == if INODE_SIZE * n <= i < INODE_SIZE * n + INODE_SIZE then bytes[i - INODE_SIZE * n]
                                       else TableByte(d, lba, i)
    {
      OverwriteByte(d, lba, n, bytes, i);
    }
  }

  lemma OverwriteByte(d: Drive, lba: nat, n: nat, bytes: seq<byte>, i: nat)
    requires TableOk(d, lba) && n < MAX_INODES && |bytes| == INODE_SIZE && i < MAX_INODES * INODE_SIZE
    ensures var p := Locate(lba, n);
            var d' := WriteAt(d, p, Splice(ReadAt(d, p), p.off, bytes));
            TableOk(d', lba) &&
            TableByte(d', lba, i) == if INODE_SIZE * n <= i < INODE_SIZE * n + INODE_SIZE then bytes[i - INODE_SIZE * n]
                                     else TableByte(d, lba, i)
  {
    var p := Locate(lba, n);
    var rel := p.sec - lba;
    var d' := WriteAt(d, p, Splice(ReadAt(d, p), p.off, bytes));
    if i / 512 == rel {
      assert i == 512 * rel + i % 512;
    } else if p.twoSec && i / 512 == rel + 1 {
      assert i == 512 * rel + 512 + i % 512;
    }
  }

  /** Overwriting one record leaves every other record alone. */
  lemma OverwrittenRecords(d: Drive, lba: nat, n: nat, bytes: seq<byte>, k: nat)
    requires TableOk(d, lba) && n < MAX_INODES && |bytes| == INODE_SIZE && k < MAX_INODES
    ensures TableOk(Overwritten(d, lba, n, bytes), lba)
    ensures Record(Overwritten(d, lba, n, bytes), lba, k) == if k == n then bytes else Record(d, lba, k)
  {
    hide TableByte, Locate, ReadAt, WriteAt;
    var d' := Overwritten(d, lba, n, bytes);
    OverwriteByte(d, lba, n, bytes, 0);
    var r, want := Record(d', lba, k), if k == n then bytes else Record(d, lba, k);
    forall j | 0 <= j < INODE_SIZE ensures r[j] == want[j] {
      OverwriteByte(d, lba, n, bytes, INODE_SIZE * k + j);
    }
  }

  // ---------------------------------------------------------------- inode_sync, and reading an inode back

  /** inode_sync stores the inode number in 8 bits before it looks for the place. */
  function SyncSlot(m: MemInode): nat { m.no % 256 }

  method InodeSync(d: Drive, lba: nat, m: MemInode) returns (d': Drive)
    requires TableOk(d, lba)
    ensures d' == Overwritten(d, lba, SyncSlot(m), Encode(m)) && TableOk(d', lba) && d'.Keys == d.Keys
    ensures forall s :: s in d && !(lba <= s < lba + TABLE_SECTORS) ==> d'[s] == d[s]
    ensures forall k :: 0 <= k < MAX_INODES ==>
              Record(d', lba, k) == if k == SyncSlot(m) then Encode(m) else Record(d, lba, k)
  {
    hide TableByte, Encode;
    d' := Overwrite(d, lba, SyncSlot(m), Encode(m));
    forall k | 0 <= k < MAX_INODES
      ensures Record(d', lba, k) == if k == SyncSlot(m) then Encode(m) else Record(d, lba, k)
    {
      OverwrittenRecords(d, lba, SyncSlot(m), Encode(m), k);
    }
  }

  /** Lines 97-118 of inode_open: the inode as the table has it. */
  method Fetch(d: Drive, lba: nat, n: nat) returns (m: MemInode)
    requires TableOk(d, lba) && n < MAX_INODES
    ensures m == Decode(Record(d, lba, n))
  {
    hide Decode;
    var p := Locate(lba, n);
    var buf := ReadAt(d, p);
    var bytes := buf[p.off..p.off + INODE_SIZE];
    forall k | 0 <= k < INODE_SIZE ensures bytes[k] == Record(d, lba, n)[k] {
      FetchByte(d, lba, n, k);
    }
    assert bytes == Record(d, lba, n);
    m := Decode(bytes);
  }

  lemma FetchByte(d: Drive, lba: nat, n: nat, k: nat)
    requires TableOk(d, lba) && n < MAX_INODES && k < INODE_SIZE
    ensures ReadAt(d, Locate(lba, n))[Locate(lba, n).off + k] == TableByte(d, lba, INODE_SIZE * n + k)
  {
    var p := Locate(lba, n);
    var i := INODE_SIZE * n + k;
    if p.off + k < 512 {
      assert i / 512 == p.sec - lba && i % 512 == p.off + k;
    } else {
      assert i / 512 == p.sec - lba + 1 && i % 512 == p.off + k - 512;
    }
  }

  /** What a sync followed by an open from disk gives. */
  function SyncThenOpen(d: Drive, lba: nat, m: MemInode): MemInode
    requires TableOk(d, lba) && m.no < MAX_INODES && TableOk(Overwritten(d, lba, SyncSlot(m), Encode(m)), lba)
  {
    Decode(Record(Overwritten(d, lba, SyncSlot(m), Encode(m)), lba, m.no))
  }

  /** Below 256 a sync is read back as it was written, whatever else is on the disk. */
  lemma SyncReadBack(d: Drive, lba: nat, m: MemInode)
    requires TableOk(d, lba) && WordFields(m) && m.no < 256
    ensures TableOk(Overwritten(d, lba, SyncSlot(m), Encode(m)), lba) && SyncThenOpen(d, lba, m) == Pure(m)
  {
    hide Decode, Encode, TableByte;
    OverwrittenRecords(d, lba, SyncSlot(m), Encode(m), m.no);
    DecodeEncode(m);
  }

  /** From 256 on a sync leaves the inode's own record as it was and destroys another one. */
  lemma SyncMisses(d: Drive, lba: nat, m: MemInode)
    requires TableOk(d, lba) && WordFields(m) && 256 <= m.no < MAX_INODES
    ensures TableOk(Overwritten(d, lba, SyncSlot(m), Encode(m)), lba)
    ensures SyncThenOpen(d, lba, m) == Decode(Record(d, lba, m.no))
    ensures Decode(Record(Overwritten(d, lba, SyncSlot(m), Encode(m)), lba, m.no - 256 * (m.no / 256))) == Pure(m)
  {
    hide Decode, Encode, TableByte;
    OverwrittenRecords(d, lba, SyncSlot(m), Encode(m), m.no);
    OverwrittenRecords(d, lba, SyncSlot(m), Encode(m), m.no % 256);
    DecodeEncode(m);
  }

  function Blank(lba: nat, n: nat): (d: Drive)
    ensures forall s :: lba <= s < lba + n ==> s in d && d[s] == ZeroSector()
  {
    if n == 0 then map[] else Blank(lba, n - 1)[lba + n - 1 := ZeroSector()]
  }

  function BlankTable(lba: nat): Drive { Blank(lba, TABLE_SECTORS) }

  /** So a sync can be relied on exactly for inode numbers below 256. */
  lemma SyncReliable(lba: nat, m: MemInode)
    requires WordFields(m) && m.no < MAX_INODES
    ensures m.no < 256 <==> forall d | TableOk(d, lba) ::
              TableOk(Overwritten(d, lba, SyncSlot(m), Encode(m)), lba) && SyncThenOpen(d, lba, m) == Pure(m)
  {
    hide Decode, Encode, TableByte, Record, Overwritten;
    if m.no < 256 {
      forall d | TableOk(d, lba)
        ensures TableOk(Overwritten(d, lba, SyncSlot(m), Encode(m)), lba) && SyncThenOpen(d, lba, m) == Pure(m)
      {
        SyncReadBack(d, lba, m);
      }
    } else {
      var d := BlankTable(lba);
      SyncMisses(d, lba, m);
      BlankRecord(lba, m.no);
    }
  }

  lemma BlankRecord(lba: nat, n: nat)
    requires n < MAX_INODES
    ensures Decode(Record(BlankTable(lba), lba, n)).no == 0
  {
    hide Blank;
    var r := Record(BlankTable(lba), lba, n);
    forall k | 0 <= k < INODE_SIZE ensures r[k] == 0 {
      assert TableByte(BlankTable(lba), lba, INODE_SIZE * n + k) == 0;
    }
  }

  // ---------------------------------------------------------------- the list of open inodes

  predicate OneEach(open: seq<MemInode>) {
    forall i, j :: 0 <= i < j < |open| ==> open[i].no != open[j].no
  }

  function Numbers(open: seq<MemInode>): set<nat> {
    set i | 0 <= i < |open| :: open[i].no
  }

  /** i_open_cnts is the number of opens minus closes, and exactly what is open is in the list, once. */
  predicate Counted(open: seq<MemInode>, opens: map<nat, nat>) {
    && OneEach(open)
    && opens.Keys == Numbers(open)
    && forall i :: 0 <= i < |open| ==> open[i].no in opens && open[i].openCnts == opens[open[i].no] >= 1
  }

  /** The stored record of a live inode carries its number and nothing that belongs in memory. */
  predicate Stored(d: Drive, lba: nat, n: nat) {
    TableOk(d, lba) && n < 256 && var r := Decode(Record(d, lba, n)); r.no == n && r == Pure(r)
  }

  /** An open inode that is live is, but for its memory-only fields, what the disk has. */
  predicate Fits(d: Drive, lba: nat, m: MemInode, live: set<nat>) {
    WordFields(m) && (m.no in live ==> TableOk(d, lba) && m.no < 256 && Pure(m) == Decode(Record(d, lba, m.no)))
  }

  predicate Coherent(d: Drive, lba: nat, open: seq<MemInode>, live: set<nat>) {
    && TableOk(d, lba)
    && (forall n :: n in live ==> Stored(d, lba, n))
    && (forall i :: 0 <= i < |open| ==> Fits(d, lba, open[i], live))
  }

  predicate Sound(d: Drive, lba: nat, open: seq<MemInode>, live: set<nat>, opens: map<nat, nat>) {
    Coherent(d, lba, open, live) && Counted(open, opens)
  }

  /** Record n now holds bytes, and no other record has changed. */
  predicate OneRecord(d: Drive, d': Drive, lba: nat, n: nat, bytes: seq<byte>) {
    && TableOk(d, lba) && TableOk(d', lba)
    && forall k :: 0 <= k < MAX_INODES ==> Record(d', lba, k) == if k == n then bytes else Record(d, lba, k)
  }

  predicate Synced(d: Drive, d': Drive, lba: nat, m: MemInode) {
    OneRecord(d, d', lba, m.no, Encode(m))
  }

  function NoSectors(): Pointers { [0, 0, 0, 0, 0, 0, 0, 0, 0, 0, 0, 0, 0] }

  lemma DecodedWords(s: seq<byte>)
    requires |s| == INODE_SIZE
    ensures WordFields(Decode(s))
  {
    forall k | 0 <= k < 13 ensures IsWord(DecWords(s, 16, 13)[k]) {
      DecWordsAt(s, 16, 13, k);
    }
  }

  lemma FitsKept(d: Drive, d': Drive, lba: nat, n: nat, bytes: seq<byte>, m: MemInode, live: set<nat>, live': set<nat>)
    requires Fits(d, lba, m, live) && OneRecord(d, d', lba, n, bytes) && m.no != n && live' <= live + {n}
    ensures Fits(d', lba, m, live')
  {
    hide Record, Decode, WordFields, TableOk;
  }

  lemma StoredKept(d: Drive, d': Drive, lba: nat, n: nat, bytes: seq<byte>, k: nat)
    requires Stored(d, lba, k) && OneRecord(d, d', lba, n, bytes) && k != n
    ensures Stored(d', lba, k)
  {
    hide Decode, TableOk, Record;
  }

  lemma StoredAnew(d: Drive, d': Drive, lba: nat, m: MemInode, live: set<nat>)
    requires OneRecord(d, d', lba, m.no, Encode(m)) && WordFields(m) && m.no < 256
    ensures Stored(d', lba, m.no) && Fits(d', lba, m, live)
  {
    hide Decode, Encode, Record, WordFields, TableOk;
    DecodeEncode(m);
  }

  /** Syncing an open inode brings the disk into line with it and leaves the others in line. */
  lemma SyncKeeps(d: Drive, d': Drive, lba: nat, open: seq<MemInode>, live: set<nat>, i: nat, m: MemInode)
    requires Coherent(d, lba, open, live) && OneEach(open) && i < |open| && m.no == open[i].no < 256
    requires OneRecord(d, d', lba, m.no, Encode(m)) && WordFields(m)
    ensures Coherent(d', lba, open[i := m], live + {m.no})
  {
    hide Fits, Stored, WordFields, Encode;
    var open', live' := open[i := m], live + {m.no};
    StoredAnew(d, d', lba, m, live');
    forall j | 0 <= j < |open'| ensures Fits(d', lba, open'[j], live') {
      if j != i { FitsKept(d, d', lba, m.no, Encode(m), open[j], live, live'); }
    }
    forall n | n in live' ensures Stored(d', lba, n) {
      if n != m.no { StoredKept(d, d', lba, m.no, Encode(m), n); }
    }
  }

  lemma WipeKeeps(d: Drive, d': Drive, lba: nat, open: seq<MemInode>, live: set<nat>, n: nat, bytes: seq<byte>)
    requires Coherent(d, lba, open, live) && OneRecord(d, d', lba, n, bytes)
    ensures Coherent(d', lba, open, live - {n})
  {
    hide Stored, WordFields, Record, Decode;
    forall j | 0 <= j < |open| ensures Fits(d', lba, open[j], live - {n}) {
      if open[j].no != n { FitsKept(d, d', lba, n, bytes, open[j], live, live - {n}); }
    }
    forall k | k in live - {n} ensures Stored(d', lba, k) {
      StoredKept(d, d', lba, n, bytes, k);
    }
  }

  /** The count of one open inode changes, by an open or by a close that is not the last. */
  lemma Recounted(open: seq<MemInode>, opens: map<nat, nat>, i: nat, m: MemInode)
    requires Counted(open, opens) && i < |open| && m.no == open[i].no && m.openCnts >= 1
    ensures Counted(open[i := m], opens[m.no := m.openCnts])
  {
    var open' := open[i := m];
    assert Numbers(open') == Numbers(open) by {
      forall n | n in Numbers(open) ensures n in Numbers(open') {
        var j :| 0 <= j < |open| && open[j].no == n;
        assert open'[j].no == n;
      }
    }
  }

  lemma NumbersMore(open: seq<MemInode>, m: MemInode)
    ensures Numbers([m] + open) == Numbers(open) + {m.no}
  {
    var open' := [m] + open;
    assert open'[0] == m;
    forall n | n in Numbers(open) ensures n in Numbers(open') {
      var j :| 0 <= j < |open| && open[j].no == n;
      assert open'[j + 1].no == n;
    }
  }

  lemma Pushed(open: seq<MemInode>, opens: map<nat, nat>, m: MemInode)
    requires Counted(open, opens) && m.no !in opens && m.openCnts == 1
    ensures Counted([m] + open, opens[m.no := 1])
  {
    NumbersMore(open, m);
    hide Numbers;
    var open' := [m] + open;
    assert forall j :: 0 < j < |open'| ==> open'[j] == open[j - 1];
  }

  lemma Removed(open: seq<MemInode>, opens: map<nat, nat>, i: nat)
    requires Counted(open, opens) && i < |open|
    ensures Counted(open[..i] + open[i + 1..], opens - {open[i].no})
  {
    var open' := open[..i] + open[i + 1..];
    NumbersWithout(open, i);
    assert forall j :: 0 <= j < |open'| ==> open'[j] == open[if j < i then j else j + 1];
    hide Numbers;
    assert OneEach(open');
    forall j | 0 <= j < |open'| ensures open'[j].no in opens - {open[i].no} {
      var k := if j < i then j else j + 1;
      assert open[k].no in opens && open[k].no != open[i].no;
    }
  }

  lemma NumbersWithout(open: seq<MemInode>, i: nat)
    requires OneEach(open) && i < |open|
    ensures Numbers(open[..i] + open[i + 1..]) == Numbers(open) - {open[i].no}
  {
    var open' := open[..i] + open[i + 1..];
    forall n | n in Numbers(open) && n != open[i].no ensures n in Numbers(open') {
      var j :| 0 <= j < |open| && open[j].no == n;
      assert open'[if j < i then j else j - 1].no == n;
    }
    forall n | n in Numbers(open') ensures n in Numbers(open) && n != open[i].no {
      var j :| 0 <= j < |open'| && open'[j].no == n;
      assert open[if j < i then j else j + 1].no == n;
    }
  }

  lemma Listed(open: seq<MemInode>, opens: map<nat, nat>, n: nat, i: nat)
    requires Counted(open, opens) && i <= |open| && (i < |open| ==> open[i].no == n)
    requires forall j :: 0 <= j < i ==> open[j].no != n
    ensures n in opens <==> i < |open|
    ensures i < |open| ==> open[i].openCnts == opens[n] >= 1
  {
    assert i == |open| ==> n !in Numbers(open);
  }

  /** A change of memory-only fields leaves the list in line with the disk. */
  lemma MemoryOnly(d: Drive, lba: nat, open: seq<MemInode>, live: set<nat>, i: nat, m: MemInode)
    requires Coherent(d, lba, open, live) && i < |open| && Pure(m) == Pure(open[i])
    ensures Coherent(d, lba, open[i := m], live)
  {
    hide Stored, Record, Decode;
  }

  lemma LeavesKeep(d: Drive, lba: nat, open: seq<MemInode>, live: set<nat>, i: nat)
    requires Coherent(d, lba, open, live) && i < |open|
    ensures Coherent(d, lba, open[..i] + open[i + 1..], live)
  {
    hide Stored, Fits;
    var open' := open[..i] + open[i + 1..];
    assert forall j :: 0 <= j < |open'| ==> open'[j] == open[if j < i then j else j + 1];
  }

  lemma EntersKeep(d: Drive, lba: nat, open: seq<MemInode>, live: set<nat>, m: MemInode)
    requires Coherent(d, lba, open, live) && Fits(d, lba, m, live)
    ensures Coherent(d, lba, [m] + open, live)
  {
    hide Stored, Fits;
  }

  /** Nodes of other numbers are as they were. */
  ghost predicate SameOthers(open: seq<MemInode>, open': seq<MemInode>, n: nat) {
    forall x: MemInode :: x.no != n ==> (x in open' <==> x in open)
  }

  /** Every node shows what a node showed before. */
  predicate ShowsSame(open: seq<MemInode>, open': seq<MemInode>) {
    forall x :: x in open' ==> exists y :: y in open && Pure(y) == Pure(x)
  }

  lemma ReplacedShows(open: seq<MemInode>, i: nat, m: MemInode)
    requires i < |open| && Pure(m) == Pure(open[i])
    ensures ShowsSame(open, open[i := m])
  {
    var open' := open[i := m];
    forall x | x in open' ensures exists y :: y in open && Pure(y) == Pure(x) {
      var j :| 0 <= j < |open'| && open'[j] == x;
      assert open[j] in open && Pure(open[j]) == Pure(x);
    }
  }

  lemma ReplacedOthers(open: seq<MemInode>, i: nat, m: MemInode)
    requires i < |open| && m.no == open[i].no
    ensures SameOthers(open, open[i := m], m.no)
  {
    var open' := open[i := m];
    forall x: MemInode | x.no != m.no ensures x in open' <==> x in open {
      if x in open { var j :| 0 <= j < |open| && open[j] == x; assert open'[j] == x; }
      if x in open' { var j :| 0 <= j < |open'| && open'[j] == x; assert open[j] == x; }
    }
  }

  lemma DroppedOthers(open: seq<MemInode>, i: nat)
    requires i < |open|
    ensures SameOthers(open, open[..i] + open[i + 1..], open[i].no) && ShowsSame(open, open[..i] + open[i + 1..])
  {
    assert open == open[..i] + [open[i]] + open[i + 1..];
    var open' := open[..i] + open[i + 1..];
    forall x | x in open' ensures exists y :: y in open && Pure(y) == Pure(x) {
      assert x in open && Pure(x) == Pure(x);
    }
  }

  function OneMore(opens: map<nat, nat>, n: nat): map<nat, nat> {
    opens[n := (if n in opens then opens[n] else 0) + 1]
  }

  function OneLess(opens: map<nat, nat>, n: nat): map<nat, nat>
    requires n in opens
  {
    if opens[n] <= 1 then opens - {n} else opens[n := opens[n] - 1]
  }

  class InodeTable {
    const lba: nat
    var d: Drive
    var open: seq<MemInode>  // open_inodes, front first
    ghost var live: set<nat>
    ghost var opens: map<nat, nat>

    ghost predicate Valid()
      reads this
    {
      Sound(d, lba, open, live, opens)
    }

    /** A mounted partition: nothing is open. */
    constructor (d: Drive, lba: nat, ghost live: set<nat>)
      requires TableOk(d, lba) && forall n :: n in live ==> Stored(d, lba, n)
      ensures Valid() && this.d == d && this.lba == lba && this.live == live && open == [] && opens == map[]
    {
      this.d, this.lba, this.live, open, opens := d, lba, live, [], map[];
    }

    method Find(n: nat) returns (i: nat)
      ensures i <= |open| && (i < |open| ==> open[i].no == n) && forall j :: 0 <= j < i ==> open[j].no != n
    {
      i := 0;
      while i < |open|
        invariant i <= |open| && forall j :: 0 <= j < i ==> open[j].no != n
      {
        if open[i].no == n { return; }
        i := i + 1;
      }
    }

    /** inode_open; the place of the inode in the list stands for the pointer. */
    method Open(n: nat) returns (i: nat)
      requires Valid() && n in live
      modifies this`open, this`opens
      ensures Valid() && opens == OneMore(old(opens), n)
      ensures i < |open| && open[i].no == n && Fits(d, lba, open[i], {n}) && SameOthers(old(open), open, n)
    {
      hide Coherent, Counted, Record, Decode, WordFields;
      LiveStored(d, lba, open, live, n);
      i := Find(n);
      Listed(open, opens, n, i);
      if i < |open| {
        var m := open[i].(openCnts := open[i].openCnts + 1);
        MemoryOnly(d, lba, open, live, i, m);
        Recounted(open, opens, i, m);
        ReplacedOthers(open, i, m);
        open, opens := open[i := m], opens[n := m.openCnts];
      } else {
        var m := Fetch(d, lba, n);
        DecodedWords(Record(d, lba, n));
        m := m.(openCnts := 1);
        FetchedFits(d, lba, m, live);
        EntersKeep(d, lba, open, live, m);
        Pushed(open, opens, m);
        open, opens := [m] + open, opens[n := 1];
        i := 0;
      }
      OpenFits(d, lba, open, live, i);
    }

    /** inode_close. */
    method Close(n: nat)
      requires Valid() && n in opens
      modifies this`open, this`opens
      ensures Valid()
      ensures opens == OneLess(old(opens), n)
      ensures SameOthers(old(open), open, n) && ShowsSame(old(open), open)
    {
      hide Coherent, Counted;
      var i := Find(n);
      Listed(open, opens, n, i);
      if open[i].openCnts == 1 {
        Removed(open, opens, i);
        LeavesKeep(d, lba, open, live, i);
        DroppedOthers(open, i);
        open, opens := open[..i] + open[i + 1..], opens - {n};
      } else {
        var m := open[i].(openCnts := open[i].openCnts - 1);
        ReplacedShows(open, i, m);
        MemoryOnly(d, lba, open, live, i, m);
        Recounted(open, opens, i, m);
        ReplacedOthers(open, i, m);
        open, opens := open[i := m], opens[n := m.openCnts];
      }
    }

    /** An operation that changes an open inode and ends, as they all do, with inode_sync. */
    method Update(n: nat, size: nat, sectors: Pointers)
      requires Valid() && n in opens && n in live
      requires IsWord(size) && forall i :: 0 <= i < 13 ==> IsWord(sectors[i])
      modifies this`open, this`d
      ensures Valid() && Synced(old(d), d, lba, MemInode(n, size, 0, false, sectors)) && SameOthers(old(open), open, n)
    {
      hide Coherent, Counted, Encode, Record, OneRecord, OneEach, Decode, TableOk;
      LiveStored(d, lba, open, live, n);
      OneEachOf(open, opens);
      var i := Find(n);
      Listed(open, opens, n, i);
      var m := open[i].(size := size, sectors := sectors);
      var d' := Sync(m);
      SyncKeeps(d, d', lba, open, live, i, m);
      Recounted(open, opens, i, m);
      SameEncoding(m);
      ReplacedOthers(open, i, m);
      open, d := open[i := m], d';
      assert live + {n} == live && opens[n := m.openCnts] == opens;
    }

    /**
     * file_create: a new inode is stored and a node for it is pushed on the list.  The number is free in the inode
     * bitmap, but a node of its former owner may still be open; then the list has two nodes for it.
     */
    method Create(n: nat)
      requires Valid() && n < 256 && n !in live
      modifies this
      ensures live == old(live) + {n} && opens == OneMore(old(opens), n)
      ensures open == [NewInode(n)] + old(open) && Synced(old(d), d, lba, MemInode(n, 0, 0, false, NoSectors()))
      ensures Valid() <==> n !in old(opens)
    {
      hide Coherent, Counted, Encode, Record, OneRecord;
      TableHeld(d, lba, open, live);
      var m := NewInode(n);
      var d' := Sync(m);
      SameEncoding(m);
      if n !in opens { CreateKeeps(d, d', lba, open, live, opens, m); } else { CreateBreaks(open, opens, m); }
      open, d, live := [m] + open, d', live + {n};
      opens := opens[n := (if n in opens then opens[n] else 0) + 1];
    }

    /** sys_mkdir: a new inode is stored, and no node is made for it. */
    method StoreOnly(n: nat, size: nat, sectors: Pointers)
      requires Valid() && n < 256 && n !in live
      requires IsWord(size) && forall i :: 0 <= i < 13 ==> IsWord(sectors[i])
      modifies this`d, this`live
      ensures live == old(live) + {n} && Synced(old(d), d, lba, MemInode(n, size, 0, false, sectors))
      ensures Valid() <==> forall i :: 0 <= i < |open| && open[i].no == n ==> open[i].size == size && open[i].sectors == sectors
    {
      hide Encode, Record, OneRecord, Decode, TableOk;
      TableHeld(d, lba, open, live);
      var m := MemInode(n, size, 0, false, sectors);
      var d' := Sync(m);
      StoreOnlyExact(d, d', lba, open, live, m);
      d, live := d', live + {n};
    }

    /** inode_delete: the record is wiped. */
    method Delete(n: nat)
      requires Valid() && n in live
      modifies this`d, this`live
      ensures Valid() && live == old(live) - {n} && OneRecord(old(d), d, lba, n, seq(INODE_SIZE, k => 0))
    {
      hide Coherent, Counted, Record, TableByte, OneRecord, Overwritten;
      LiveStored(d, lba, open, live, n);
      var blank: seq<byte> := seq(INODE_SIZE, k => 0);
      var d' := Overwrite(d, lba, n, blank);
      OverwrittenOne(d, lba, n, blank);
      WipeKeeps(d, d', lba, open, live, n, blank);
      d, live := d', live - {n};
    }

    method Sync(m: MemInode) returns (d': Drive)
      requires TableOk(d, lba) && m.no < 256
      ensures OneRecord(d, d', lba, m.no, Encode(m))
    {
      hide Encode, Record, OneRecord, Overwritten;
      d' := InodeSync(d, lba, m);
      OverwrittenOne(d, lba, m.no, Encode(m));
    }
  }

  function NewInode(n: nat): MemInode { MemInode(n, 0, 1, false, NoSectors()) }

  lemma CreateKeeps(d: Drive, d': Drive, lba: nat, open: seq<MemInode>, live: set<nat>, opens: map<nat, nat>, m: MemInode)
    requires Sound(d, lba, open, live, opens) && m.no !in opens && m.no !in live && m.no < 256
    requires m.openCnts == 1 && WordFields(m) && OneRecord(d, d', lba, m.no, Encode(m))
    ensures Sound(d', lba, [m] + open, live + {m.no}, opens[m.no := 1])
  {
    hide Coherent, Counted, Encode, OneRecord, WordFields;
    Pushed(open, opens, m);
    NewFits(d, lba, m, live);
    EntersKeep(d, lba, open, live, m);
    var open' := [m] + open;
    OneEachOf(open', opens[m.no := 1]);
    SyncKeeps(d, d', lba, open', live, 0, m);
    assert open'[0 := m] == open';
  }

  lemma NewFits(d: Drive, lba: nat, m: MemInode, live: set<nat>)
    requires WordFields(m) && m.no !in live
    ensures Fits(d, lba, m, live)
  {
  }

  /** A second node for a number that has one. */
  lemma CreateBreaks(open: seq<MemInode>, opens: map<nat, nat>, m: MemInode)
    requires Counted(open, opens) && m.no in opens
    ensures !OneEach([m] + open) && exists j :: 0 < j < |[m] + open| && ([m] + open)[j].no == m.no
    ensures forall c :: !Counted([m] + open, c)
  {
    var j :| 0 <= j < |open| && open[j].no == m.no;
    var open' := [m] + open;
    assert open'[0] == m && open'[j + 1] == open[j];
  }

  /** The nodes left of a former owner of the number have to be what is stored now. */
  lemma StoreOnlyExact(d: Drive, d': Drive, lba: nat, open: seq<MemInode>, live: set<nat>, m: MemInode)
    requires Coherent(d, lba, open, live) && m.no !in live && m.no < 256 && WordFields(m)
    requires OneRecord(d, d', lba, m.no, Encode(m))
    ensures Coherent(d', lba, open, live + {m.no}) <==>
            forall i :: 0 <= i < |open| && open[i].no == m.no ==> open[i].size == m.size && open[i].sectors == m.sectors
  {
    hide Encode, Record, Decode, WordFields;
    var live' := live + {m.no};
    DecodeEncode(m);
    StoredAnew(d, d', lba, m, live');
    forall n | n in live' ensures Stored(d', lba, n) {
      if n != m.no { StoredKept(d, d', lba, m.no, Encode(m), n); }
    }
    forall i | 0 <= i < |open|
      ensures Fits(d', lba, open[i], live') <==>
              (open[i].no == m.no ==> open[i].size == m.size && open[i].sectors == m.sectors)
    {
      if open[i].no != m.no { FitsKept(d, d', lba, m.no, Encode(m), open[i], live, live'); }
    }
  }

  /** rmdir of a directory that is open, and then file_create: the code ends with two nodes for one number. */
  method ReuseByCreate(t: InodeTable, n: nat)
    requires t.Valid() && n in t.live && n < 256
    modifies t
    ensures !t.Valid() && |t.open| >= 2 && t.open[0].no == n && exists j :: 0 < j < |t.open| && t.open[j].no == n
  {
    hide Sound;
    var i := t.Open(n);
    t.Delete(n);
    ghost var before := t.open;
    t.Create(n);
    assert t.open[i + 1] == before[i];
  }

  /** The record of a live inode, as an open node shows it. */
  lemma NodeShows(d: Drive, lba: nat, m: MemInode)
    requires Fits(d, lba, m, {m.no})
    ensures TableOk(d, lba) && m.no < 256
    ensures m.size == Decode(Record(d, lba, m.no)).size && m.sectors == Decode(Record(d, lba, m.no)).sectors
  {
    hide Record, Decode, WordFields, TableOk;
  }

  lemma TwiceWritten(d: Drive, d1: Drive, d2: Drive, lba: nat, n: nat, x: seq<byte>, y: seq<byte>)
    requires OneRecord(d, d1, lba, n, x) && OneRecord(d1, d2, lba, n, y)
    ensures OneRecord(d, d2, lba, n, y)
  {
    hide Record, TableOk;
  }

  lemma OnlyNode(open: seq<MemInode>, opens: map<nat, nat>, i: nat, j: nat)
    requires Counted(open, opens) && i < |open| && j < |open| && open[i].no == open[j].no
    ensures i == j
  {
  }

  /** rmdir of a directory that is open, and then sys_mkdir: whoever opens the new one gets the node of the old one. */
  method ReuseByMkdir(t: InodeTable, n: nat, size: nat, sectors: Pointers) returns (i: nat)
    requires t.Valid() && n in t.live && n < 256 && IsWord(size) && forall k :: 0 <= k < 13 ==> IsWord(sectors[k])
    modifies t
    ensures i < |t.open| && t.open[i].no == n && TableOk(old(t.d), t.lba)
    ensures t.open[i].size == Decode(Record(old(t.d), t.lba, n)).size
    ensures t.open[i].sectors == Decode(Record(old(t.d), t.lba, n)).sectors
    ensures t.Valid() <==> t.open[i].size == size && t.open[i].sectors == sectors
    ensures Synced(old(t.d), t.d, t.lba, MemInode(n, size, 0, false, sectors))
  {
    hide Coherent, Counted, Record, Decode, Fits, TableOk, OneRecord, Encode;
    i := t.Open(n);
    NodeShows(t.d, t.lba, t.open[i]);
    ghost var blank: seq<byte> := seq(INODE_SIZE, k => 0);
    t.Delete(n);
    forall j | 0 <= j < |t.open| && t.open[j].no == n ensures j == i {
      OnlyNode(t.open, t.opens, i, j);
    }
    ghost var d1 := t.d;
    t.StoreOnly(n, size, sectors);
    TwiceWritten(old(t.d), d1, t.d, t.lba, n, blank, Encode(MemInode(n, size, 0, false, sectors)));
  }

  /** What partition_format writes for the root directory. */
  function RootInode(ds: nat): MemInode {
    MemInode(0, 48, 0, false, [ds, 0, 0, 0, 0, 0, 0, 0, 0, 0, 0, 0, 0])
  }

  /** A formatted table has the root inode, so that an InodeTable can be made for it. */
  lemma FormatStoresRoot(lba: nat, ds: nat)
    requires IsWord(ds)
    ensures TableOk(BlankTable(lba), lba)
    ensures Stored(Overwritten(BlankTable(lba), lba, 0, Encode(RootInode(ds))), lba, 0)
  {
    hide Encode, Record, Decode, Overwritten, Stored;
    OverwrittenOne(BlankTable(lba), lba, 0, Encode(RootInode(ds)));
    StoredAnew(BlankTable(lba), Overwritten(BlankTable(lba), lba, 0, Encode(RootInode(ds))), lba, RootInode(ds), {0});
  }

  lemma OverwrittenOne(d: Drive, lba: nat, n: nat, bytes: seq<byte>)
    requires TableOk(d, lba) && n < MAX_INODES && |bytes| == INODE_SIZE
    ensures OneRecord(d, Overwritten(d, lba, n, bytes), lba, n, bytes)
  {
    hide Record, Overwritten;
    OverwrittenRecords(d, lba, n, bytes, n);
    forall k | 0 <= k < MAX_INODES
      ensures Record(Overwritten(d, lba, n, bytes), lba, k) == if k == n then bytes else Record(d, lba, k)
    {
      OverwrittenRecords(d, lba, n, bytes, k);
    }
  }

  lemma LiveStored(d: Drive, lba: nat, open: seq<MemInode>, live: set<nat>, n: nat)
    requires Coherent(d, lba, open, live) && n in live
    ensures Stored(d, lba, n)
  {
    hide Stored;
  }

  lemma TableHeld(d: Drive, lba: nat, open: seq<MemInode>, live: set<nat>)
    requires Coherent(d, lba, open, live)
    ensures TableOk(d, lba)
  {
  }

  lemma OneEachOf(open: seq<MemInode>, opens: map<nat, nat>)
    requires Counted(open, opens)
    ensures OneEach(open)
  {
  }

  lemma OpenFits(d: Drive, lba: nat, open: seq<MemInode>, live: set<nat>, i: nat)
    requires Coherent(d, lba, open, live) && i < |open| && open[i].no in live
    ensures Fits(d, lba, open[i], {open[i].no})
  {
    hide Stored, Record, Decode;
  }

  lemma FetchedFits(d: Drive, lba: nat, m: MemInode, live: set<nat>)
    requires Stored(d, lba, m.no) && m == Decode(Record(d, lba, m.no)).(openCnts := 1)
    ensures Fits(d, lba, m, live)
  {
    hide Record, Decode;
    DecodedWords(Record(d, lba, m.no));
  }

  /** The number of openers is not part of the record. */
  lemma SameEncoding(m: MemInode)
    ensures Encode(m) == Encode(Pure(m))
  {
  }
}
