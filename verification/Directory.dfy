/**
 Directories: 24-byte entries, 21 to a sector, in at most 12 direct blocks.

 The 252 places of a directory are numbered across its blocks (place 21 * b + k is entry k of
 block b; a missing block counts as 21 empty places). Every operation is an edit of one place
 of that sequence, `Slots`, and the map from names to inodes is read off it.
 */
module Directory {
  import opened Sectors
  import opened FileData

  const PER_SECTOR: nat := 21   // 512 / 24
  const PLACES: nat := 252      // 12 * 21
  const ENTRY_SIZE: nat := 24

  const FT_UNKNOWN: nat := 0
  const FT_REGULAR: nat := 1
  const FT_DIRECTORY: nat := 2

  type Name = seq<byte>

  const DOT: Name := [46]
  const DOTDOT: Name := [46, 46]

  datatype Entry = Entry(name: Name, ino: nat, ftype: nat)

  const EMPTY := Entry([], 0, 0)

  predicate Live(e: Entry) { e.ftype != FT_UNKNOWN }

  // ---------------------------------------------------------------- entries in a sector

  /** The bytes before the first NUL. */
  function CString(s: seq<byte>): (r: Name)
    ensures |r| <= |s|
  {
    if s == [] || s[0] == 0 then [] else [s[0]] + CString(s[1..])
  }

  predicate NoNul(s: seq<byte>) { forall i :: 0 <= i < |s| ==> s[i] != 0 }

  lemma {:induction false} CStringOfPadded(name: Name, pad: seq<byte>)
    requires NoNul(name) && (pad == [] || pad[0] == 0)
    ensures CString(name + pad) == name
  {
    if name == [] {
      assert name + pad == pad;
    } else {
      assert (name + pad)[1..] == name[1..] + pad;
      CStringOfPadded(name[1..], pad);
    }
  }

  /** An entry that fits its 24 bytes and whose name is terminated inside them. */
  predicate Storable(e: Entry) {
    0 < |e.name| < 16 && NoNul(e.name) && IsWord(e.ino) && IsWord(e.ftype)
  }

  function EncEntry(e: Entry): (s: seq<byte>)
    requires |e.name| <= 16
    ensures |s| == 24
  {
    e.name + seq(16 - |e.name|, i => 0) + EncWords([e.ino, e.ftype])
  }

  function DecEntry(sec: Sector, k: nat): Entry
    requires k < PER_SECTOR
  {
    Entry(CString(sec[24 * k..24 * k + 16]), DecWord(sec, 24 * k + 16), DecWord(sec, 24 * k + 20))
  }

  lemma EncEntryParts(e: Entry)
    requires |e.name| <= 16
    ensures EncEntry(e)[..16] == e.name + seq(16 - |e.name|, i => 0)
    ensures EncEntry(e)[16..] == EncWords([e.ino, e.ftype])
  {
  }

  lemma EntryStored(sec: Sector, k: nat, e: Entry)
    requires k < PER_SECTOR && Storable(e)
    ensures DecEntry(Splice(sec, 24 * k, EncEntry(e)), k) == e
  {
    EncEntryParts(e);
    EntryDecoded(Splice(sec, 24 * k, EncEntry(e)), k, e, EncEntry(e));
  }

  lemma EntryDecoded(s: Sector, k: nat, e: Entry, enc: seq<byte>)
    requires k < PER_SECTOR && Storable(e) && |enc| == 24
    requires forall i :: 0 <= i < 24 ==> s[24 * k + i] == enc[i]
    requires enc[..16] == e.name + seq(16 - |e.name|, i => 0)
    requires enc[16..] == EncWords([e.ino, e.ftype])
    ensures DecEntry(s, k) == e
  {
    assert s[24 * k..24 * k + 16] == enc[..16];
    CStringOfPadded(e.name, seq(16 - |e.name|, i => 0));
    var ws := [e.ino, e.ftype];
    assert s[24 * k + 16..24 * k + 16 + 4 * |ws|] == enc[16..];
    WordRoundTrip(s, 24 * k + 16, ws, 0);
    WordRoundTrip(s, 24 * k + 16, ws, 1);
  }

  lemma EntryUntouched(sec: Sector, k: nat, bytes: seq<byte>, m: nat)
    requires k < PER_SECTOR && m < PER_SECTOR && m != k && |bytes| == 24
    ensures DecEntry(Splice(sec, 24 * k, bytes), m) == DecEntry(sec, m)
  {
    assert Splice(sec, 24 * k, bytes)[24 * m..24 * m + 16] == sec[24 * m..24 * m + 16];
  }

  lemma EntryCleared(sec: Sector, k: nat)
    requires k < PER_SECTOR
    ensures DecEntry(Splice(sec, 24 * k, seq(24, i => 0)), k) == EMPTY
  {
    var s := Splice(sec, 24 * k, seq(24, i => 0));
    assert s[24 * k] == 0;
  }

  lemma ZeroSectorEmpty(k: nat)
    requires k < PER_SECTOR
    ensures DecEntry(ZeroSector(), k) == EMPTY
  {
    assert ZeroSector()[24 * k] == 0;
  }

  // ---------------------------------------------------------------- places of a directory

  function Slot(sectors: Pointers, d: Drive, j: nat): Entry
    requires j < PLACES
  {
    var b := sectors[j / 21];
    if b != 0 && b in d then DecEntry(d[b], j % 21) else EMPTY
  }

  function Slots(sectors: Pointers, d: Drive): (ss: seq<Entry>)
    ensures |ss| == PLACES
    ensures forall j {:trigger ss[j]} :: 0 <= j < PLACES ==> ss[j] == Slot(sectors, d, j)
  {
    seq(PLACES, j requires 0 <= j < PLACES => Slot(sectors, d, j))
  }

  function LiveSet(ss: seq<Entry>): set<nat> {
    set j: nat | j < |ss| && Live(ss[j])
  }

  function LiveCount(ss: seq<Entry>): nat {
    |LiveSet(ss)|
  }

  predicate NamesDiffer(ss: seq<Entry>) {
    forall i, j :: 0 <= i < j < |ss| && Live(ss[i]) && Live(ss[j]) ==> ss[i].name != ss[j].name
  }

  /** No inode is entered twice, "." and ".." apart. */
  predicate InodesDiffer(ss: seq<Entry>) {
    forall i, j :: 2 <= i < j < |ss| && Live(ss[i]) && Live(ss[j]) ==> ss[i].ino != ss[j].ino
  }

  predicate SlotsOk(ss: seq<Entry>) {
    && |ss| == PLACES
    && Live(ss[0]) && ss[0].name == DOT && Live(ss[1]) && ss[1].name == DOTDOT
    && (forall j :: 0 <= j < |ss| && Live(ss[j]) ==> Storable(ss[j]))
    && (forall j :: 0 <= j < |ss| && !Live(ss[j]) ==> ss[j] == EMPTY)
    && NamesDiffer(ss) && InodesDiffer(ss)
  }

  ghost predicate HasLive(ss: seq<Entry>, b: nat) {
    exists j :: 21 * b <= j < 21 * b + 21 && j < |ss| && Live(ss[j])
  }

  predicate PointersDiffer(sectors: Pointers) {
    forall a, b :: 0 <= a < b < 12 && sectors[a] != 0 ==> sectors[a] != sectors[b]
  }

  /** The blocks of a directory: no indirect table, a first block, all of them marked as used. */
  predicate BlocksAt(sectors: Pointers, d: Drive, p: Pool) {
    && Area(d, p) && sectors[12] == 0 && sectors[0] != 0 && PointersDiffer(sectors)
    && forall b :: 0 <= b < 12 && sectors[b] != 0 ==> sectors[b] in p.used
  }

  /** Every block but the first holds a live entry. */
  ghost predicate NoIdleBlock(sectors: Pointers, ss: seq<Entry>) {
    forall b :: 1 <= b < 12 && sectors[b] != 0 ==> HasLive(ss, b)
  }

  ghost predicate DirOk(ino: Inode, d: Drive, p: Pool) {
    && BlocksAt(ino.sectors, d, p)
    && SlotsOk(Slots(ino.sectors, d)) && NoIdleBlock(ino.sectors, Slots(ino.sectors, d))
    && ino.size == ENTRY_SIZE * LiveCount(Slots(ino.sectors, d))
  }

  /** The directory as a map: name to inode number and type. */
  function Entries(ss: seq<Entry>): map<Name, (nat, nat)> {
    if ss == [] then map[]
    else
      var m, e := Entries(ss[..|ss| - 1]), ss[|ss| - 1];
      if Live(e) then m[e.name := (e.ino, e.ftype)] else m
  }

  /** Every name of the map stands at some live place. */
  lemma {:induction false} PlaceOf(ss: seq<Entry>, n: Name) returns (j: nat)
    requires n in Entries(ss)
    ensures j < |ss| && Live(ss[j]) && ss[j].name == n && Entries(ss)[n] == (ss[j].ino, ss[j].ftype)
  {
    var e := ss[|ss| - 1];
    if Live(e) && e.name == n {
      j := |ss| - 1;
    } else {
      j := PlaceOf(ss[..|ss| - 1], n);
    }
  }

  /** Every live place is in the map. */
  lemma {:induction false} EntryAt(ss: seq<Entry>, j: nat)
    requires NamesDiffer(ss) && j < |ss| && Live(ss[j])
    ensures ss[j].name in Entries(ss) && Entries(ss)[ss[j].name] == (ss[j].ino, ss[j].ftype)
  {
    if j < |ss| - 1 {
      var t := ss[..|ss| - 1];
      assert NamesDiffer(t) by {
        forall a, b | 0 <= a < b < |t| && Live(t[a]) && Live(t[b]) ensures t[a].name != t[b].name {
          assert t[a] == ss[a] && t[b] == ss[b];
        }
      }
      EntryAt(t, j);
      assert t[j] == ss[j];
    }
  }

  /** Two place sequences with the same live entries, wherever they stand, are the same map. */
  lemma SameEntries(ss: seq<Entry>, m: map<Name, (nat, nat)>)
    requires NamesDiffer(ss)
    requires forall j :: 0 <= j < |ss| && Live(ss[j]) ==> ss[j].name in m && m[ss[j].name] == (ss[j].ino, ss[j].ftype)
    requires forall n :: n in m ==> exists j :: 0 <= j < |ss| && Live(ss[j]) && ss[j].name == n
    ensures Entries(ss) == m
  {
    forall n | n in Entries(ss) ensures n in m && m[n] == Entries(ss)[n] {
      var j := PlaceOf(ss, n);
    }
    forall n | n in m ensures n in Entries(ss) {
      var j :| 0 <= j < |ss| && Live(ss[j]) && ss[j].name == n;
      EntryAt(ss, j);
    }
  }

  // ---------------------------------------------------------------- editing one place

  lemma InsertSlots(ss: seq<Entry>, j: nat, e: Entry)
    requires SlotsOk(ss) && j < PLACES && !Live(ss[j]) && Live(e) && Storable(e)
    requires e.name !in Entries(ss) && forall i :: 2 <= i < PLACES && Live(ss[i]) ==> ss[i].ino != e.ino
    ensures SlotsOk(ss[j := e]) && LiveCount(ss[j := e]) == LiveCount(ss) + 1
  {
    var ss' := ss[j := e];
    assert LiveSet(ss') == LiveSet(ss) + {j};
    forall i | 0 <= i < PLACES && Live(ss[i]) ensures ss[i].name != e.name {
      EntryAt(ss, i);
    }
  }

  lemma InsertEntry(ss: seq<Entry>, j: nat, e: Entry)
    requires j < |ss| && NamesDiffer(ss) && NamesDiffer(ss[j := e]) && !Live(ss[j]) && Live(e)
    ensures Entries(ss[j := e]) == Entries(ss)[e.name := (e.ino, e.ftype)]
  {
    var ss', m := ss[j := e], Entries(ss)[e.name := (e.ino, e.ftype)];
    forall i | 0 <= i < |ss'| && Live(ss'[i])
      ensures ss'[i].name in m && m[ss'[i].name] == (ss'[i].ino, ss'[i].ftype)
    {
      if i != j {
        EntryAt(ss, i);
        assert ss'[i].name != ss'[j].name;
      }
    }
    forall n | n in m
      ensures exists i :: 0 <= i < |ss'| && Live(ss'[i]) && ss'[i].name == n
    {
      if n == e.name {
        assert Live(ss'[j]) && ss'[j].name == n;
      } else {
        var i := PlaceOf(ss, n);
        assert ss'[i] == ss[i];
      }
    }
    SameEntries(ss', m);
  }

  lemma DeleteSlots(ss: seq<Entry>, j: nat)
    requires SlotsOk(ss) && 2 <= j < PLACES && Live(ss[j])
    ensures SlotsOk(ss[j := EMPTY]) && LiveCount(ss[j := EMPTY]) == LiveCount(ss) - 1
  {
    assert LiveSet(ss[j := EMPTY]) == LiveSet(ss) - {j};
  }

  lemma DeleteEntry(ss: seq<Entry>, j: nat)
    requires j < |ss| && NamesDiffer(ss) && NamesDiffer(ss[j := EMPTY]) && Live(ss[j])
    ensures Entries(ss[j := EMPTY]) == Entries(ss) - {ss[j].name}
  {
    var ss', m := ss[j := EMPTY], Entries(ss) - {ss[j].name};
    forall i | 0 <= i < |ss'| && Live(ss'[i])
      ensures ss'[i].name in m && m[ss'[i].name] == (ss'[i].ino, ss'[i].ftype)
    {
      EntryAt(ss, i);
    }
    forall n | n in m
      ensures exists i :: 0 <= i < |ss'| && Live(ss'[i]) && ss'[i].name == n
    {
      var i := PlaceOf(ss, n);
      assert ss'[i] == ss[i];
    }
    SameEntries(ss', m);
  }

  // ---------------------------------------------------------------- search_dir_entry

  /** The direct blocks, then nothing: all_blocks of a directory without an indirect table. */
  function DirBlocks(sectors: Pointers): (all: seq<nat>)
    ensures |all| == BLOCKS
    ensures forall i :: 0 <= i < BLOCKS ==> all[i] == if i < 12 then sectors[i] else 0
  {
    seq(BLOCKS, i requires 0 <= i < BLOCKS => if i < 12 then sectors[i] else 0)
  }

  lemma SlotInBlock(sectors: Pointers, d: Drive, b: nat, k: nat)
    requires b < 12 && k < PER_SECTOR
    ensures Slots(sectors, d)[21 * b + k]
         == if sectors[b] != 0 && sectors[b] in d then DecEntry(d[sectors[b]], k) else EMPTY
  {
    assert (21 * b + k) / 21 == b && (21 * b + k) % 21 == k;
  }

  /** The places below n, all of them different from name. */
  predicate NotBefore(ss: seq<Entry>, n: nat, name: Name) {
    forall j :: 0 <= j < n && j < |ss| ==> ss[j].name != name
  }

  method SearchSector(sec: Sector, name: Name, ghost ss: seq<Entry>, ghost b: nat) returns (found: bool, e: Entry)
    requires |ss| == PLACES && b < 12 && forall k :: 0 <= k < PER_SECTOR ==> ss[21 * b + k] == DecEntry(sec, k)
    requires NotBefore(ss, 21 * b, name)
    ensures found ==> e.name == name && exists j :: 0 <= j < PLACES && ss[j] == e
    ensures !found ==> NotBefore(ss, 21 * (b + 1), name)
  {
    found, e := false, EMPTY;
    var k := 0;
    while k < PER_SECTOR
      invariant k <= PER_SECTOR
      invariant NotBefore(ss, 21 * b + k, name)
    {
      e := DecEntry(sec, k);
      assert ss[21 * b + k] == e;
      if e.name == name { return true, e; }
      k := k + 1;
    }
  }

  method SearchDirEntry(ino: Inode, d: Drive, ghost p: Pool, name: Name) returns (found: bool, e: Entry)
    requires BlocksAt(ino.sectors, d, p) && SlotsOk(Slots(ino.sectors, d)) && name != []
    ensures found <==> name in Entries(Slots(ino.sectors, d))
    ensures found ==> e.name == name && Entries(Slots(ino.sectors, d))[name] == (e.ino, e.ftype)
  {
    ghost var ss := Slots(ino.sectors, d);
    var all, blockIdx := DirBlocks(ino.sectors), 0;
    found, e := false, EMPTY;
    while blockIdx < BLOCKS
      invariant blockIdx <= BLOCKS
      invariant NotBefore(ss, 21 * blockIdx, name)
    {
      if all[blockIdx] != 0 {
        DirSector(ino.sectors, d, p, blockIdx);
        found, e := SearchSector(d[all[blockIdx]], name, ss, blockIdx);
        if found {
          FoundEntry(ss, e);
          return;
        }
      } else if blockIdx < 12 {
        MissingBlock(ino.sectors, d, blockIdx, name);
      }
      blockIdx := blockIdx + 1;
    }
    if name in Entries(ss) {
      var j := PlaceOf(ss, name);
    }
  }

  lemma DirSector(sectors: Pointers, d: Drive, p: Pool, b: nat)
    requires BlocksAt(sectors, d, p) && b < 12 && sectors[b] != 0
    ensures sectors[b] in d
    ensures forall k :: 0 <= k < PER_SECTOR ==> Slots(sectors, d)[21 * b + k] == DecEntry(d[sectors[b]], k)
  {
    forall k | 0 <= k < PER_SECTOR
      ensures Slots(sectors, d)[21 * b + k] == DecEntry(d[sectors[b]], k)
    {
      SlotInBlock(sectors, d, b, k);
    }
  }

  lemma MissingBlock(sectors: Pointers, d: Drive, b: nat, name: Name)
    requires b < 12 && sectors[b] == 0 && name != []
    ensures NotBefore(Slots(sectors, d), 21 * b, name) ==> NotBefore(Slots(sectors, d), 21 * (b + 1), name)
  {
    var ss := Slots(sectors, d);
    forall j | 21 * b <= j < 21 * (b + 1) ensures ss[j].name != name {
      SlotInBlock(sectors, d, b, j - 21 * b);
    }
  }

  lemma FoundEntry(ss: seq<Entry>, e: Entry)
    requires SlotsOk(ss) && e.name != [] && exists j :: 0 <= j < PLACES && ss[j] == e
    ensures e.name in Entries(ss) && Entries(ss)[e.name] == (e.ino, e.ftype)
  {
    var j :| 0 <= j < PLACES && ss[j] == e;
    assert Live(ss[j]);
    EntryAt(ss, j);
  }

  // ---------------------------------------------------------------- edits of the blocks

  /** Without an indirect table the references do not depend on the disk. */
  lemma DirRefs(sectors: Pointers, d: Drive)
    requires sectors[12] == 0
    ensures Refs(sectors, d) == DirBlocks(sectors) + [0]
  {
  }

  /** The blocks of a directory are references like those of a file. */
  lemma DirRefsOk(sectors: Pointers, d: Drive, p: Pool)
    requires BlocksAt(sectors, d, p)
    ensures Distinct(Refs(sectors, d)) && Taken(Refs(sectors, d), p.used)
  {
    DirRefs(sectors, d);
  }

  /** Rewriting one entry of block b edits one place. */
  lemma SlotWritten(sectors: Pointers, d: Drive, b: nat, k: nat, bytes: seq<byte>, e: Entry)
    requires PointersDiffer(sectors) && b < 12 && sectors[b] != 0 && sectors[b] in d && k < PER_SECTOR && |bytes| == 24
    requires DecEntry(Splice(d[sectors[b]], 24 * k, bytes), k) == e
    ensures Slots(sectors, d[sectors[b] := Splice(d[sectors[b]], 24 * k, bytes)]) == Slots(sectors, d)[21 * b + k := e]
  {
    var sec := Splice(d[sectors[b]], 24 * k, bytes);
    var ss, ss' := Slots(sectors, d), Slots(sectors, d[sectors[b] := sec]);
    forall j | 0 <= j < PLACES ensures ss'[j] == ss[21 * b + k := e][j] {
      if j / 21 == b {
        if j % 21 != k { EntryUntouched(d[sectors[b]], k, bytes, j % 21); }
      } else {
        assert sectors[j / 21] == 0 || sectors[j / 21] != sectors[b];
      }
    }
  }

  /** A new block b that holds just e in its first entry edits one place. */
  lemma BlockAdded(sectors: Pointers, d: Drive, b: nat, lba: nat, e: Entry)
    requires b < 12 && sectors[b] == 0 && lba != 0 && lba in d && Storable(e)
    requires forall a :: 0 <= a < 12 ==> sectors[a] != lba
    ensures Slots(sectors[b := lba], d[lba := Splice(ZeroSector(), 0, EncEntry(e))]) == Slots(sectors, d)[21 * b := e]
  {
    var sec := Splice(ZeroSector(), 24 * 0, EncEntry(e));
    var ss, ss' := Slots(sectors, d), Slots(sectors[b := lba], d[lba := sec]);
    EntryStored(ZeroSector(), 0, e);
    forall j | 0 <= j < PLACES ensures ss'[j] == ss[21 * b := e][j] {
      if j / 21 == b {
        if j % 21 != 0 {
          EntryUntouched(ZeroSector(), 0, EncEntry(e), j % 21);
          ZeroSectorEmpty(j % 21);
        }
      } else {
        assert sectors[j / 21] != lba;
      }
    }
  }

  /** Dropping a block whose only live entry stands at place j edits one place. */
  lemma BlockDropped(sectors: Pointers, d: Drive, b: nat, j: nat)
    requires b < 12 && 21 * b <= j < 21 * b + 21
    requires forall i :: 21 * b <= i < 21 * b + 21 && i != j ==> Slots(sectors, d)[i] == EMPTY
    ensures Slots(sectors[b := 0], d) == Slots(sectors, d)[j := EMPTY]
  {
    var ss, ss' := Slots(sectors, d), Slots(sectors[b := 0], d);
    forall i | 0 <= i < PLACES ensures ss'[i] == ss[j := EMPTY][i] {
      if i / 21 == b { assert 21 * b <= i < 21 * b + 21; }
    }
  }

  // ---------------------------------------------------------------- sync_dir_entry

  /** BeyondDirect: all 252 places are taken and the code turns to the indirect table. */
  datatype InsertResult = Inserted | NoBlock | BeyondDirect

  predicate LiveBefore(ss: seq<Entry>, n: nat) {
    forall j :: 0 <= j < n && j < |ss| ==> Live(ss[j])
  }

  /** The first entry of the sector whose type is FT_UNKNOWN. */
  method FreeInSector(sec: Sector, ghost ss: seq<Entry>, ghost b: nat) returns (k: nat)
    requires |ss| == PLACES && b < 12 && forall k :: 0 <= k < PER_SECTOR ==> ss[21 * b + k] == DecEntry(sec, k)
    requires LiveBefore(ss, 21 * b)
    ensures k <= PER_SECTOR && LiveBefore(ss, 21 * b + k)
    ensures k < PER_SECTOR ==> !Live(ss[21 * b + k])
  {
    k := 0;
    while k < PER_SECTOR
      invariant k <= PER_SECTOR && LiveBefore(ss, 21 * b + k)
    {
      var e := DecEntry(sec, k);
      assert ss[21 * b + k] == e;
      if e.ftype == FT_UNKNOWN { return; }
      k := k + 1;
    }
  }

  /** What inserting e at place j makes of the directory's blocks, the bitmap and the disk. */
  ghost predicate EntryPut(ino: Inode, d: Drive, p: Pool, e: Entry, j: nat, ino': Inode, d': Drive, p': Pool) {
    && j < PLACES
    && Slots(ino'.sectors, d') == Slots(ino.sectors, d)[j := e]
    && ino'.size == ino.size + ENTRY_SIZE
    && ino'.sectors[12] == 0
    && (if ino.sectors[j / 21] != 0 then ino'.sectors == ino.sectors && p' == p
        else p.IsFree(ino'.sectors[j / 21]) && ino'.sectors == ino.sectors[j / 21 := ino'.sectors[j / 21]]
             && p' == p.Take({ino'.sectors[j / 21]}))
    && OnlyAt(d, d', {ino'.sectors[j / 21]})
  }

  /** Every place before a block that is not there is taken. */
  predicate NeedsBlock(sectors: Pointers, ss: seq<Entry>) {
    exists b :: 0 <= b < 12 && sectors[b] == 0 && LiveBefore(ss, 21 * b)
  }

  /** The first free place is in a block that is not there. */
  lemma FirstFreePlace(sectors: Pointers, d: Drive, j: nat)
    requires j < PLACES && !Live(Slots(sectors, d)[j]) && LiveBefore(Slots(sectors, d), j)
    ensures sectors[j / 21] == 0 <==> NeedsBlock(sectors, Slots(sectors, d))
  {
    hide Slots, DecEntry;
    var ss := Slots(sectors, d);
    if sectors[j / 21] == 0 {
      assert LiveBefore(ss, 21 * (j / 21));
    }
    forall b | 0 <= b < 12 && sectors[b] == 0 && LiveBefore(ss, 21 * b) ensures j / 21 == b {
      SlotInBlock(sectors, d, b, 0);
      assert !Live(ss[21 * b]);
    }
  }

  method SyncDirEntry(ino: Inode, d: Drive, p: Pool, e: Entry)
    returns (r: InsertResult, ino': Inode, d': Drive, p': Pool, ghost j: nat)
    requires BlocksAt(ino.sectors, d, p) && Storable(e)
    ensures r.BeyondDirect? <==> LiveBefore(Slots(ino.sectors, d), PLACES)
    ensures !r.BeyondDirect? ==> j < PLACES && !Live(Slots(ino.sectors, d)[j]) && LiveBefore(Slots(ino.sectors, d), j)
    ensures !r.BeyondDirect? ==> (r.NoBlock? <==> ino.sectors[j / 21] == 0 && p.FreeCount() == 0)
    ensures r.Inserted? ==> EntryPut(ino, d, p, e, j, ino', d', p')
  {
    hide DecEntry, EncEntry, Slots;
    ghost var ss := Slots(ino.sectors, d);
    ino', d', p', j := ino, d, p, 0;
    var blockIdx := 0;
    while blockIdx < 12
      invariant blockIdx <= 12 && LiveBefore(ss, 21 * blockIdx)
      invariant ino' == ino && d' == d && p' == p
    {
      if ino.sectors[blockIdx] == 0 {
        j := 21 * blockIdx;
        SlotInBlock(ino.sectors, d, blockIdx, 0);
        r, ino', d', p' := AddBlock(ino, d, p, e, blockIdx);
        return;
      }
      DirSector(ino.sectors, d, p, blockIdx);
      var io := d[ino.sectors[blockIdx]];
      var k := FreeInSector(io, ss, blockIdx);
      if k < PER_SECTOR {
        j := 21 * blockIdx + k;
        EntryStored(io, k, e);
        SlotWritten(ino.sectors, d, blockIdx, k, EncEntry(e), e);
        d' := d[ino.sectors[blockIdx] := Splice(io, 24 * k, EncEntry(e))];
        ino' := ino.(size := ino.size + ENTRY_SIZE);
        r := Inserted;
        return;
      }
      blockIdx := blockIdx + 1;
    }
    r := BeyondDirect;
  }

  /** Lines 138-186, for a direct block. */
  method AddBlock(ino: Inode, d: Drive, p: Pool, e: Entry, b: nat)
    returns (r: InsertResult, ino': Inode, d': Drive, p': Pool)
    requires BlocksAt(ino.sectors, d, p) && Storable(e) && b < 12 && ino.sectors[b] == 0
    ensures !r.BeyondDirect? && (r.NoBlock? <==> p.FreeCount() == 0)
    ensures r.Inserted? ==> EntryPut(ino, d, p, e, 21 * b, ino', d', p')
  {
    ino', d' := ino, d;
    var lba;
    lba, p' := BlockAlloc(p);
    if lba == 0 { r := NoBlock; return; }
    BlockAdded(ino.sectors, d, b, lba, e);
    d' := d[lba := Splice(ZeroSector(), 0, EncEntry(e))];
    ino' := Inode(ino.size + ENTRY_SIZE, ino.sectors[b := lba]);
    r := Inserted;
  }

  /** Inserting a new name keeps the directory well formed and adds exactly that name to its map. */
  lemma InsertKeepsDir(ino: Inode, d: Drive, p: Pool, e: Entry, j: nat, ino': Inode, d': Drive, p': Pool)
    requires DirOk(ino, d, p) && Storable(e) && Live(e) && EntryPut(ino, d, p, e, j, ino', d', p')
    requires !Live(Slots(ino.sectors, d)[j]) && e.name !in Entries(Slots(ino.sectors, d))
    requires forall i :: 2 <= i < PLACES && Live(Slots(ino.sectors, d)[i]) ==> Slots(ino.sectors, d)[i].ino != e.ino
    ensures DirOk(ino', d', p')
    ensures Entries(Slots(ino'.sectors, d')) == Entries(Slots(ino.sectors, d))[e.name := (e.ino, e.ftype)]
  {
    var ss := Slots(ino.sectors, d);
    InsertSlots(ss, j, e);
    InsertEntry(ss, j, e);
    PutBlocks(ino, d, p, e, j, ino', d', p');
    InsertNoIdle(ino.sectors, ss, ino'.sectors, j, e);
  }

  lemma PutBlocks(ino: Inode, d: Drive, p: Pool, e: Entry, j: nat, ino': Inode, d': Drive, p': Pool)
    requires BlocksAt(ino.sectors, d, p) && EntryPut(ino, d, p, e, j, ino', d', p')
    ensures BlocksAt(ino'.sectors, d', p')
    ensures forall b :: 0 <= b < 12 && b != j / 21 ==> ino'.sectors[b] == ino.sectors[b]
  {
  }

  lemma InsertNoIdle(sectors: Pointers, ss: seq<Entry>, sectors': Pointers, j: nat, e: Entry)
    requires |ss| == PLACES && j < PLACES && Live(e) && NoIdleBlock(sectors, ss)
    requires forall b :: 0 <= b < 12 && b != j / 21 ==> sectors'[b] == sectors[b]
    ensures NoIdleBlock(sectors', ss[j := e])
  {
    var ss' := ss[j := e];
    forall b | 1 <= b < 12 && sectors'[b] != 0 ensures HasLive(ss', b) {
      if b == j / 21 {
        assert 21 * b <= j < 21 * b + 21 && Live(ss'[j]);
      } else {
        var i :| 21 * b <= i < 21 * b + 21 && i < |ss| && Live(ss[i]);
        assert Live(ss'[i]);
      }
    }
  }

  // ---------------------------------------------------------------- delete_dir_entry

  function LiveIn(ss: seq<Entry>, lo: nat, hi: nat): set<nat> {
    set i: nat | lo <= i < hi && i < |ss| && Live(ss[i])
  }

  /** First place of block b that is neither "." nor "..". */
  function FirstOf(b: nat): nat { if b == 0 then 2 else 21 * b }

  /** The one name lookup by inode number that the kernel does: a live place other than the dots. */
  predicate HoldsInode(ss: seq<Entry>, j: nat, n: nat) {
    2 <= j < |ss| && Live(ss[j]) && ss[j].ino == n
  }

  /** Lines 243-258: count the entries of a sector and look for inode n among them. */
  method CountSector(sec: Sector, n: nat, ghost ss: seq<Entry>, ghost b: nat)
    returns (found: int, cnt: nat, isFirst: bool)
    requires SlotsOk(ss) && b < 12 && forall k :: 0 <= k < PER_SECTOR ==> ss[21 * b + k] == DecEntry(sec, k)
    ensures -1 <= found < PER_SECTOR && cnt == |LiveIn(ss, FirstOf(b), 21 * b + 21)|
    ensures found == -1 ==> forall j :: 21 * b <= j < 21 * b + 21 ==> !HoldsInode(ss, j, n)
    ensures found >= 0 ==> HoldsInode(ss, 21 * b + found, n)
    ensures isFirst <==> b == 0
  {
    found, cnt, isFirst := -1, 0, false;
    var k := 0;
    assert LiveIn(ss, FirstOf(b), 21 * b) == {};
    while k < PER_SECTOR
      invariant k <= PER_SECTOR && -1 <= found < k
      invariant cnt == |LiveIn(ss, FirstOf(b), 21 * b + k)|
      invariant found == -1 ==> forall j :: 21 * b <= j < 21 * b + k ==> !HoldsInode(ss, j, n)
      invariant found >= 0 ==> HoldsInode(ss, 21 * b + found, n)
      invariant isFirst <==> b == 0 && k > 0
    {
      var e := DecEntry(sec, k);
      ghost var j := 21 * b + k;
      assert ss[j] == e;
      CountStep(ss, FirstOf(b), j);
      if e.ftype != FT_UNKNOWN {
        DotPlaces(ss, j);
        if e.name == DOT {
          isFirst := true;
        } else if e.name != DOTDOT {
          cnt := cnt + 1;
          if e.ino == n {
            assert found == -1 by { OneHolder(ss, n, 21 * b + found, j); }  // the ASSERT of line 251
            found := k;
          }
        }
      }
      k := k + 1;
    }
  }

  lemma OneHolder(ss: seq<Entry>, n: nat, i: int, j: nat)
    requires SlotsOk(ss) && HoldsInode(ss, j, n)
    ensures 0 <= i < j ==> !HoldsInode(ss, i, n)
  {
  }

  lemma DotPlaces(ss: seq<Entry>, j: nat)
    requires SlotsOk(ss) && j < PLACES && Live(ss[j])
    ensures (ss[j].name == DOT <==> j == 0) && (ss[j].name == DOTDOT <==> j == 1)
  {
    if j > 0 { assert ss[0].name != ss[j].name; }
    if j > 1 { assert ss[1].name != ss[j].name; }
  }

  lemma CountStep(ss: seq<Entry>, lo: nat, j: nat)
    requires j < |ss|
    ensures |LiveIn(ss, lo, j + 1)| == |LiveIn(ss, lo, j)| + (if Live(ss[j]) && j >= lo then 1 else 0)
  {
    if Live(ss[j]) && j >= lo {
      assert LiveIn(ss, lo, j + 1) == LiveIn(ss, lo, j) + {j};
    } else {
      assert LiveIn(ss, lo, j + 1) == LiveIn(ss, lo, j);
    }
  }

  /** Place j is the only live one of a block other than the first. */
  predicate LoneEntry(ss: seq<Entry>, j: nat) {
    j / 21 != 0 && |LiveIn(ss, 21 * (j / 21), 21 * (j / 21) + 21)| == 1
  }

  /** What deleting place j makes of the directory's blocks, the bitmap and the disk. */
  ghost predicate EntryCut(ino: Inode, d: Drive, p: Pool, j: nat, ino': Inode, d': Drive, p': Pool) {
    && j < PLACES
    && Slots(ino'.sectors, d') == Slots(ino.sectors, d)[j := EMPTY]
    && ino'.size + ENTRY_SIZE == ino.size
    && (if LoneEntry(Slots(ino.sectors, d), j)
        then ino'.sectors == ino.sectors[j / 21 := 0] && p' == p.(used := p.used - {ino.sectors[j / 21]}) && d' == d
        else ino'.sectors == ino.sectors && p' == p && OnlyAt(d, d', {ino.sectors[j / 21]}))
  }

  /** Lines 229-263: the block and entry that hold inode n. */
  method FindHolder(sectors: Pointers, d: Drive, ghost p: Pool, n: nat)
    returns (found: bool, b: nat, k: nat, cnt: nat, isFirst: bool)
    requires BlocksAt(sectors, d, p) && SlotsOk(Slots(sectors, d))
    ensures !found ==> forall i :: 0 <= i < PLACES ==> !HoldsInode(Slots(sectors, d), i, n)
    ensures found ==> b < 12 && k < PER_SECTOR && sectors[b] != 0 && HoldsInode(Slots(sectors, d), 21 * b + k, n)
    ensures found ==> cnt == |LiveIn(Slots(sectors, d), FirstOf(b), 21 * b + 21)| && (isFirst <==> b == 0)
  {
    hide SlotsOk, LiveIn, BlocksAt;
    ghost var ss := Slots(sectors, d);
    found, b, k, cnt, isFirst := false, 0, 0, 0, false;
    var all := DirBlocks(sectors);
    while b < BLOCKS
      invariant b <= BLOCKS
      invariant forall i :: 0 <= i < PLACES && i < 21 * b ==> !HoldsInode(ss, i, n)
    {
      if all[b] != 0 {
        DirSector(sectors, d, p, b);
        var at;
        at, cnt, isFirst := CountSector(d[all[b]], n, ss, b);
        if at != -1 {
          found, k := true, at;
          return;
        }
      } else if b < 12 {
        EmptyBlock(sectors, d, b);
      }
      b := b + 1;
    }
  }

  method DeleteDirEntry(ino: Inode, d: Drive, p: Pool, n: nat)
    returns (found: bool, ino': Inode, d': Drive, p': Pool, ghost j: nat)
    requires BlocksAt(ino.sectors, d, p) && SlotsOk(Slots(ino.sectors, d)) && ino.size >= ENTRY_SIZE
    ensures !found ==> forall i :: 0 <= i < PLACES ==> !HoldsInode(Slots(ino.sectors, d), i, n)
    ensures found ==> HoldsInode(Slots(ino.sectors, d), j, n) && EntryCut(ino, d, p, j, ino', d', p')
    ensures found ==> ino.sectors[j / 21] != 0
    ensures !found ==> ino' == ino && d' == d && p' == p
  {
    ino', d', p', j := ino, d, p, 0;
    var b, k, cnt, isFirst;
    found, b, k, cnt, isFirst := FindHolder(ino.sectors, d, p, n);
    if found {
      j := 21 * b + k;
      ino', d', p' := CutEntry(ino, d, p, b, k, cnt, isFirst, j);
    }
  }

  lemma EmptyBlock(sectors: Pointers, d: Drive, b: nat)
    requires b < 12 && sectors[b] == 0
    ensures forall i :: 21 * b <= i < 21 * b + 21 ==> !Live(Slots(sectors, d)[i])
  {
    forall i | 21 * b <= i < 21 * b + 21 ensures !Live(Slots(sectors, d)[i]) {
      SlotInBlock(sectors, d, b, i - 21 * b);
    }
  }

  /** Lines 264-307: clear entry k of block b, or give the whole block back. */
  method CutEntry(ino: Inode, d: Drive, p: Pool, b: nat, k: nat, cnt: nat, isFirst: bool, ghost j: nat)
    returns (ino': Inode, d': Drive, p': Pool)
    requires j == 21 * b + k
    requires BlocksAt(ino.sectors, d, p) && SlotsOk(Slots(ino.sectors, d)) && ino.size >= ENTRY_SIZE
    requires b < 12 && k < PER_SECTOR && ino.sectors[b] != 0 && Live(Slots(ino.sectors, d)[j])
    requires cnt == |LiveIn(Slots(ino.sectors, d), FirstOf(b), 21 * b + 21)| && (isFirst <==> b == 0)
    ensures EntryCut(ino, d, p, j, ino', d', p') && j / 21 == b
  {
    ino', d', p' := ino.(size := ino.size - ENTRY_SIZE), d, p;
    if cnt == 1 && !isFirst {
      p' := p.(used := p.used - {ino.sectors[b]});
      ino' := ino'.(sectors := ino.sectors[b := 0]);
      DroppedIsCut(ino, d, p, b, j);
    } else {
      d' := ClearEntry(ino.sectors, d, p, b, k);
      ClearedIsCut(ino, d, p, b, j, d');
    }
  }

  method ClearEntry(sectors: Pointers, d: Drive, ghost p: Pool, b: nat, k: nat) returns (d': Drive)
    requires BlocksAt(sectors, d, p) && b < 12 && k < PER_SECTOR && sectors[b] != 0
    ensures Slots(sectors, d') == Slots(sectors, d)[21 * b + k := EMPTY] && OnlyAt(d, d', {sectors[b]})
  {
    DirSector(sectors, d, p, b);
    EntryCleared(d[sectors[b]], k);
    SlotWritten(sectors, d, b, k, seq(24, i => 0), EMPTY);
    d' := d[sectors[b] := Splice(d[sectors[b]], 24 * k, seq(24, i => 0))];
  }

  lemma DroppedIsCut(ino: Inode, d: Drive, p: Pool, b: nat, j: nat)
    requires SlotsOk(Slots(ino.sectors, d)) && ino.size >= ENTRY_SIZE
    requires 1 <= b < 12 && j / 21 == b && Live(Slots(ino.sectors, d)[j])
    requires |LiveIn(Slots(ino.sectors, d), 21 * b, 21 * b + 21)| == 1
    ensures EntryCut(ino, d, p, j, Inode(ino.size - ENTRY_SIZE, ino.sectors[b := 0]), d,
                     p.(used := p.used - {ino.sectors[b]}))
  {
    LoneInBlock(Slots(ino.sectors, d), b, j);
    BlockDropped(ino.sectors, d, b, j);
  }

  lemma ClearedIsCut(ino: Inode, d: Drive, p: Pool, b: nat, j: nat, d': Drive)
    requires ino.size >= ENTRY_SIZE && b < 12 && 21 * b <= j < 21 * b + 21
    requires b == 0 || |LiveIn(Slots(ino.sectors, d), 21 * b, 21 * b + 21)| != 1
    requires Slots(ino.sectors, d') == Slots(ino.sectors, d)[j := EMPTY] && OnlyAt(d, d', {ino.sectors[b]})
    ensures EntryCut(ino, d, p, j, ino.(size := ino.size - ENTRY_SIZE), d', p)
  {
    assert j / 21 == b;
  }

  lemma OnlyMember(s: set<nat>, x: nat)
    requires |s| == 1 && x in s
    ensures s == {x}
  {
    assert |s - {x}| == 0;
    assert s - {x} == {};
  }

  lemma LoneInBlock(ss: seq<Entry>, b: nat, j: nat)
    requires SlotsOk(ss) && b < 12 && 21 * b <= j < 21 * b + 21 && Live(ss[j])
    requires |LiveIn(ss, 21 * b, 21 * b + 21)| == 1
    ensures forall i :: 21 * b <= i < 21 * b + 21 && i != j ==> ss[i] == EMPTY
  {
    OnlyMember(LiveIn(ss, 21 * b, 21 * b + 21), j);
    forall i | 21 * b <= i < 21 * b + 21 && i != j ensures ss[i] == EMPTY {
      assert i !in LiveIn(ss, 21 * b, 21 * b + 21);
    }
  }

  /** Deleting keeps the directory well formed and takes exactly one name out of its map. */
  lemma DeleteKeepsDir(ino: Inode, d: Drive, p: Pool, j: nat, ino': Inode, d': Drive, p': Pool)
    requires DirOk(ino, d, p) && 2 <= j < PLACES && Live(Slots(ino.sectors, d)[j])
    requires EntryCut(ino, d, p, j, ino', d', p') && ino.sectors[j / 21] != 0
    ensures DirOk(ino', d', p')
    ensures Entries(Slots(ino'.sectors, d')) == Entries(Slots(ino.sectors, d)) - {Slots(ino.sectors, d)[j].name}
  {
    var ss := Slots(ino.sectors, d);
    DeleteSlots(ss, j);
    DeleteEntry(ss, j);
    CutBlocks(ino, d, p, j, ino', d', p');
    DeleteNoIdle(ino.sectors, ss, ino'.sectors, j);
  }

  lemma CutBlocks(ino: Inode, d: Drive, p: Pool, j: nat, ino': Inode, d': Drive, p': Pool)
    requires BlocksAt(ino.sectors, d, p) && EntryCut(ino, d, p, j, ino', d', p') && ino.sectors[j / 21] != 0
    ensures BlocksAt(ino'.sectors, d', p')
    ensures ino'.sectors == (if LoneEntry(Slots(ino.sectors, d), j) then ino.sectors[j / 21 := 0] else ino.sectors)
  {
  }

  lemma DeleteNoIdle(sectors: Pointers, ss: seq<Entry>, sectors': Pointers, j: nat)
    requires |ss| == PLACES && j < PLACES && Live(ss[j]) && NoIdleBlock(sectors, ss)
    requires sectors' == (if LoneEntry(ss, j) then sectors[j / 21 := 0] else sectors)
    ensures NoIdleBlock(sectors', ss[j := EMPTY])
  {
    var ss', c := ss[j := EMPTY], j / 21;
    forall b | 1 <= b < 12 && sectors'[b] != 0 ensures HasLive(ss', b) {
      if b == c {
        OtherMember(LiveIn(ss, 21 * c, 21 * c + 21), j);
        var i :| i in LiveIn(ss, 21 * c, 21 * c + 21) && i != j;
        assert Live(ss'[i]);
      } else {
        var i :| 21 * b <= i < 21 * b + 21 && i < |ss| && Live(ss[i]);
        assert Live(ss'[i]);
      }
    }
  }

  lemma OtherMember(s: set<nat>, x: nat)
    requires x in s && |s| != 1
    ensures exists y :: y in s && y != x
  {
    assert |s - {x}| == |s| - 1 != 0;
    var y :| y in s - {x};
  }

  // ---------------------------------------------------------------- dir_is_empty and dir_remove

  predicate DirIsEmpty(ino: Inode) { ino.size == ENTRY_SIZE * 2 }

  lemma TwoLive(live: set<nat>)
    requires 0 in live && 1 in live
    ensures |live| == 2 <==> live == {0, 1}
  {
    assert |live - {0}| == |live| - 1;
    assert |live - {0} - {1}| == |live| - 2;
    assert live == {0, 1} + (live - {0} - {1});
  }

  /** A block without a live entry is not there. */
  lemma IdleBlockGone(sectors: Pointers, ss: seq<Entry>, b: nat)
    requires |ss| == PLACES && NoIdleBlock(sectors, ss) && LiveSet(ss) == {0, 1} && 1 <= b < 12
    ensures sectors[b] == 0
  {
    forall i | 21 * b <= i < 21 * b + 21 && i < |ss| ensures !Live(ss[i]) {
      assert i !in LiveSet(ss);
    }
  }

  lemma OnlyDots(ss: seq<Entry>)
    requires SlotsOk(ss) && LiveSet(ss) == {0, 1}
    ensures Entries(ss).Keys == {DOT, DOTDOT}
  {
    EntryAt(ss, 0);
    EntryAt(ss, 1);
    forall n | n in Entries(ss) ensures n in {DOT, DOTDOT} {
      var j := PlaceOf(ss, n);
      assert j in LiveSet(ss);
    }
  }

  /**
   A directory whose size says it is empty has no name but "." and "..", and only its first
   block: the loop of ASSERTs at the head of dir_remove passes.
   */
  lemma EmptyDirHasOneBlock(ino: Inode, d: Drive, p: Pool)
    requires DirOk(ino, d, p)
    ensures DirIsEmpty(ino) <==> LiveSet(Slots(ino.sectors, d)) == {0, 1}
    ensures DirIsEmpty(ino) ==> forall b :: 1 <= b < 13 ==> ino.sectors[b] == 0
    ensures DirIsEmpty(ino) ==> Entries(Slots(ino.sectors, d)).Keys == {DOT, DOTDOT}
  {
    var ss := Slots(ino.sectors, d);
    assert 0 in LiveSet(ss) && 1 in LiveSet(ss);
    TwoLive(LiveSet(ss));
    if DirIsEmpty(ino) {
      forall b | 1 <= b < 12 ensures ino.sectors[b] == 0 {
        IdleBlockGone(ino.sectors, ss, b);
      }
      OnlyDots(ss);
    }
  }

  // ---------------------------------------------------------------- dir_read

  /** The live entries among the first n places, in order. */
  function LiveList(ss: seq<Entry>, n: nat): seq<Entry>
    requires n <= |ss|
  {
    if n == 0 then [] else LiveList(ss, n - 1) + (if Live(ss[n - 1]) then [ss[n - 1]] else [])
  }

  lemma {:induction false} LiveListCount(ss: seq<Entry>, n: nat)
    requires n <= |ss|
    ensures |LiveList(ss, n)| == |LiveIn(ss, 0, n)|
  {
    if n == 0 {
      assert LiveIn(ss, 0, 0) == {};
    } else {
      LiveListCount(ss, n - 1);
      CountStep(ss, 0, n - 1);
    }
  }

  lemma {:induction false} LiveListPrefix(ss: seq<Entry>, m: nat, n: nat)
    requires m <= n <= |ss|
    ensures LiveList(ss, m) <= LiveList(ss, n)
  {
    if m < n { LiveListPrefix(ss, m, n - 1); }
  }

  lemma LiveListOfBlock(sectors: Pointers, d: Drive, b: nat)
    requires b < 12 && sectors[b] == 0
    ensures LiveList(Slots(sectors, d), 21 * b + 21) == LiveList(Slots(sectors, d), 21 * b)
  {
    EmptyBlock(sectors, d, b);
    NoneLive(Slots(sectors, d), 21 * b, 21 * b + 21);
  }

  lemma {:induction false} NoneLive(ss: seq<Entry>, m: nat, n: nat)
    requires m <= n <= |ss| && forall i :: m <= i < n ==> !Live(ss[i])
    ensures LiveList(ss, n) == LiveList(ss, m)
  {
    if m < n { NoneLive(ss, m, n - 1); }
  }

  datatype ReadResult = NoMore | More(entry: Entry)

  /** Lines 349-365: go through one sector, passing over the entries returned before. */
  method ReadSector(sec: Sector, dirPos: nat, cur: nat, ghost ss: seq<Entry>, ghost b: nat)
    returns (r: ReadResult, cur': nat)
    requires |ss| == PLACES && b < 12 && forall k :: 0 <= k < PER_SECTOR ==> ss[21 * b + k] == DecEntry(sec, k)
    requires dirPos % ENTRY_SIZE == 0 && cur == ENTRY_SIZE * |LiveList(ss, 21 * b)| <= dirPos
    ensures r.NoMore? ==> cur' == ENTRY_SIZE * |LiveList(ss, 21 * b + 21)| <= dirPos
    ensures r.More? ==> dirPos / ENTRY_SIZE < |LiveList(ss, PLACES)| && r.entry == LiveList(ss, PLACES)[dirPos / ENTRY_SIZE]
  {
    r, cur' := NoMore, cur;
    var k := 0;
    while k < PER_SECTOR
      invariant k <= PER_SECTOR
      invariant cur' == ENTRY_SIZE * |LiveList(ss, 21 * b + k)| <= dirPos
    {
      var e := DecEntry(sec, k);
      assert ss[21 * b + k] == e;
      if e.ftype != FT_UNKNOWN {
        if cur' < dirPos {
          cur' := cur' + ENTRY_SIZE;
        } else {
          LiveListPrefix(ss, 21 * b + k + 1, PLACES);
          r := More(e);
          return;
        }
      }
      k := k + 1;
    }
  }

  method DirRead(ino: Inode, d: Drive, ghost p: Pool, dirPos: nat) returns (r: ReadResult, dirPos': nat)
    requires DirOk(ino, d, p) && dirPos % ENTRY_SIZE == 0
    ensures |LiveList(Slots(ino.sectors, d), PLACES)| * ENTRY_SIZE == ino.size
    ensures dirPos >= ino.size ==> r.NoMore? && dirPos' == dirPos
    ensures dirPos < ino.size ==>
              r == More(LiveList(Slots(ino.sectors, d), PLACES)[dirPos / ENTRY_SIZE]) && dirPos' == dirPos + ENTRY_SIZE
  {
    ghost var ss := Slots(ino.sectors, d);
    SizeIsLiveList(ino, d, p);
    var all, blockIdx, cur := DirBlocks(ino.sectors), 0, 0;
    while dirPos < ino.size
      invariant blockIdx <= 12 && cur == ENTRY_SIZE * |LiveList(ss, 21 * blockIdx)| <= dirPos
      decreases 12 - blockIdx
    {
      if all[blockIdx] == 0 {  // never past the end: blockIdx == 12 would mean cur == i_size
        LiveListOfBlock(ino.sectors, d, blockIdx);
      } else {
        DirSector(ino.sectors, d, p, blockIdx);
        r, cur := ReadSector(d[all[blockIdx]], dirPos, cur, ss, blockIdx);
        if r.More? {
          dirPos' := dirPos + ENTRY_SIZE;
          return;
        }
      }
      blockIdx := blockIdx + 1;
    }
    r, dirPos' := NoMore, dirPos;
  }

  lemma SizeIsLiveList(ino: Inode, d: Drive, p: Pool)
    requires DirOk(ino, d, p)
    ensures |LiveList(Slots(ino.sectors, d), PLACES)| * ENTRY_SIZE == ino.size
  {
    var ss := Slots(ino.sectors, d);
    LiveListCount(ss, PLACES);
    assert LiveIn(ss, 0, PLACES) == LiveSet(ss);
  }

  /** What ls does: rewind, then read until nothing comes back. It sees every live entry once, in order. */
  method ReadAll(ino: Inode, d: Drive, ghost p: Pool) returns (list: seq<Entry>)
    requires DirOk(ino, d, p)
    ensures list == LiveList(Slots(ino.sectors, d), PLACES)
  {
    list := [];
    var dirPos := 0;
    ghost var live := LiveList(Slots(ino.sectors, d), PLACES);
    SizeIsLiveList(ino, d, p);
    while true
      invariant list <= live && dirPos == ENTRY_SIZE * |list|
      decreases |live| - |list|
    {
      var r;
      r, dirPos := DirRead(ino, d, p, dirPos);
      if r.NoMore? { break; }
      assert dirPos / ENTRY_SIZE == |list| + 1;
      list := list + [r.entry];
    }
  }

  /** No name is listed twice. */
  lemma {:induction false} ListedOnce(ss: seq<Entry>, n: nat, i: nat, j: nat)
    requires NamesDiffer(ss) && n <= |ss| && i < j < |LiveList(ss, n)|
    ensures LiveList(ss, n)[i].name != LiveList(ss, n)[j].name
  {
    if j < |LiveList(ss, n - 1)| {
      ListedOnce(ss, n - 1, i, j);
    } else {
      var a := ListedAt(ss, n - 1, i);
      assert ss[a].name != ss[n - 1].name;
    }
  }

  /** The list has exactly the live entries. */
  lemma {:induction false} ListedExactly(ss: seq<Entry>, n: nat, e: Entry)
    requires n <= |ss|
    ensures e in LiveList(ss, n) <==> exists a :: 0 <= a < n && Live(ss[a]) && ss[a] == e
  {
    if n > 0 { ListedExactly(ss, n - 1, e); }
  }

  lemma {:induction false} ListedAt(ss: seq<Entry>, n: nat, i: nat) returns (a: nat)
    requires n <= |ss| && i < |LiveList(ss, n)|
    ensures a < n && Live(ss[a]) && ss[a] == LiveList(ss, n)[i]
  {
    if i < |LiveList(ss, n - 1)| { a := ListedAt(ss, n - 1, i); } else { a := n - 1; }
  }

  // ---------------------------------------------------------------- a new directory

  const NO_BLOCKS: Pointers := [0, 0, 0, 0, 0, 0, 0, 0, 0, 0, 0, 0, 0]

  function DotEntry(n: nat): Entry { Entry(DOT, n, FT_DIRECTORY) }
  function DotDotEntry(m: nat): Entry { Entry(DOTDOT, m, FT_DIRECTORY) }

  /** The first sector of a new directory n below m. */
  function DotsSector(n: nat, m: nat): Sector {
    PutEntry(DotSector(n), 1, DotDotEntry(m))
  }

  function PutEntry(sec: Sector, k: nat, e: Entry): Sector
    requires k < PER_SECTOR && |e.name| <= 16
  {
    Splice(sec, 24 * k, EncEntry(e))
  }

  function DotSector(n: nat): Sector {
    PutEntry(ZeroSector(), 0, DotEntry(n))
  }

  lemma DotsDecoded(n: nat, m: nat, k: nat)
    requires n < 256 && m < 256 && k < PER_SECTOR
    ensures DecEntry(DotsSector(n, m), k) == if k == 0 then DotEntry(n) else if k == 1 then DotDotEntry(m) else EMPTY
  {
    var first := DotSector(n);
    if k == 1 {
      EntryStored(first, 1, DotDotEntry(m));
    } else {
      EntryUntouched(first, 1, EncEntry(DotDotEntry(m)), k);
      if k == 0 {
        EntryStored(ZeroSector(), 0, DotEntry(n));
      } else {
        EntryUntouched(ZeroSector(), 0, EncEntry(DotEntry(n)), k);
        ZeroSectorEmpty(k);
      }
    }
  }

  predicate DotsOnly(ss: seq<Entry>, n: nat, m: nat) {
    && |ss| == PLACES && ss[0] == DotEntry(n) && ss[1] == DotDotEntry(m)
    && forall j :: 2 <= j < PLACES ==> ss[j] == EMPTY
  }

  lemma NewDirSlots(d: Drive, lba: nat, n: nat, m: nat)
    requires n < 256 && m < 256 && lba != 0
    ensures DotsOnly(Slots(NO_BLOCKS[0 := lba], d[lba := DotsSector(n, m)]), n, m)
  {
    hide DotsSector, DecEntry;
    var sectors: Pointers, d' := NO_BLOCKS[0 := lba], d[lba := DotsSector(n, m)];
    var ss := Slots(sectors, d');
    forall j | 0 <= j < PLACES
      ensures ss[j] == if j == 0 then DotEntry(n) else if j == 1 then DotDotEntry(m) else EMPTY
    {
      if j / 21 == 0 { DotsDecoded(n, m, j); }
    }
  }

  lemma DotsOnlyOk(ss: seq<Entry>, n: nat, m: nat)
    requires DotsOnly(ss, n, m) && n < 256 && m < 256
    ensures SlotsOk(ss) && LiveCount(ss) == 2
    ensures Entries(ss) == map[DOT := (n, FT_DIRECTORY), DOTDOT := (m, FT_DIRECTORY)]
  {
    hide Entries;
    assert LiveSet(ss) == {0, 1};
    var e := map[DOT := (n, FT_DIRECTORY), DOTDOT := (m, FT_DIRECTORY)];
    forall x | x in e ensures exists j :: 0 <= j < |ss| && Live(ss[j]) && ss[j].name == x {
      if x == DOT { assert ss[0].name == x; } else { assert ss[1].name == x; }
    }
    SameEntries(ss, e);
  }

  // ---------------------------------------------------------------- how many entries there are

  lemma {:induction false} EntriesCount(ss: seq<Entry>, n: nat)
    requires NamesDiffer(ss) && n <= |ss|
    ensures |Entries(ss[..n])| == |LiveList(ss, n)|
  {
    if n > 0 {
      EntriesCount(ss, n - 1);
      var t, e := ss[..n], ss[n - 1];
      assert t[..n - 1] == ss[..n - 1];
      if Live(e) {
        var m := Entries(ss[..n - 1]);
        forall x | x in m ensures x != e.name {
          var j := PlaceOf(ss[..n - 1], x);
        }
      }
    }
  }

  lemma {:induction false} FullList(ss: seq<Entry>, n: nat)
    requires n <= |ss|
    ensures |LiveList(ss, n)| <= n && (|LiveList(ss, n)| == n <==> LiveBefore(ss, n))
  {
    if n > 0 { FullList(ss, n - 1); }
  }

  /** A directory has 252 entries exactly when all places are taken. */
  lemma FullDirectory(ss: seq<Entry>)
    requires SlotsOk(ss)
    ensures |Entries(ss)| == PLACES <==> LiveBefore(ss, PLACES)
  {
    EntriesCount(ss, PLACES);
    FullList(ss, PLACES);
    assert ss[..PLACES] == ss;
  }
}
