/**
 From path to inode and back: search_file walks down the tree by names, sys_getcwd walks up
 from a directory and turns the names it meets around.
 */
module Namespace {
  import opened Basics
  import opened Sectors
  import opened FileData
  import opened Directory
  import opened Paths
  import opened Tree
  import opened Volume
  import opened FileSystem

  const MAX_PATH_LEN: nat := 512

  /**
   Found an inode of a type, in a parent directory; Missing in a directory; BadPath for a halt by the
   ASSERT on the path; Unset when the path is nothing but two or more slashes, where the code
   returns a local variable that it never assigned.
   */
  datatype Search = Found(i: nat, ftype: nat, parent: nat) | Missing(parent: nat) | BadPath | Unset

  // ---------------------------------------------------------------- what a path means

  /** Follow the components from directory m, reached from directory par. */
  function Resolve(t: Nodes, m: nat, par: nat, cs: seq<Name>): Search
    decreases |cs|
  {
    if cs == [] then Found(m, FT_DIRECTORY, par)
    else if !IsDir(t, m) || cs[0] !in t[m].entries then Missing(m)
    else
      var (i, ftype) := t[m].entries[cs[0]];
      if ftype == FT_DIRECTORY then Resolve(t, i, m, cs[1..]) else Found(i, FT_REGULAR, m)
  }

  function PathMeans(t: Nodes, path: seq<byte>): Search {
    if path == [SLASH] || path == [SLASH, 46] || path == [SLASH, 46, 46] then Found(0, FT_DIRECTORY, 0)
    else if path == [] || path[0] != SLASH || |path| >= MAX_PATH_LEN then BadPath
    else if Components(path) == [] then Unset
    else Resolve(t, 0, 0, Components(path))
  }

  // ---------------------------------------------------------------- search_file

  /** Every type in a listing is that of a file or of a directory that exists. */
  lemma ListedTypes(t: Nodes, rank: map<nat, nat>, m: nat, nm: Name)
    requires TreeOk(t, rank) && IsDir(t, m) && nm in t[m].entries
    ensures t[m].entries[nm].1 == FT_REGULAR || t[m].entries[nm].1 == FT_DIRECTORY
    ensures t[m].entries[nm].1 == FT_DIRECTORY ==> IsDir(t, t[m].entries[nm].0)
  {
    assert Hangs(t, m);
    if nm == DOTDOT {
      if m != 0 {
        var x :| Names(t, ParentOf(t, m), x, m);
      }
    } else if nm != DOT {
      assert Names(t, m, nm, t[m].entries[nm].0);
    }
  }

  lemma IsDirInDirs(fs: Fs, m: nat)
    requires IsDir(View(fs), m)
    ensures m in fs.inodes && m in fs.dirs
  {
    hide Content, Slots, Entries;
    assert View(fs)[m] == NodeAt(fs, m);
  }

  lemma ResolveStep(t: Nodes, m: nat, par: nat, name: Name, rest: Option<seq<byte>>)
    requires IsDir(t, m) && name != []
    ensures var cs := Pending(name, rest);
            Resolve(t, m, par, cs) == if name !in t[m].entries then Missing(m)
                                      else if t[m].entries[name].1 != FT_DIRECTORY then Found(t[m].entries[name].0, FT_REGULAR, m)
                                      else Resolve(t, t[m].entries[name].0, m, cs[1..])
  {
  }

  /** The components left once the current name is dealt with, and what one more path_parse makes of them. */
  lemma NextPending(name: Name, rest: Option<seq<byte>>, name': Name, rest': Option<seq<byte>>)
    requires name != []
    requires rest.None? ==> name' == [] && rest' == None
    requires rest.Some? ==> name' == TakeName(SkipSlashes(rest.value))
    requires rest.Some? ==> rest' == if AfterName(SkipSlashes(rest.value)) == [] then None else Some(AfterName(SkipSlashes(rest.value)))
    ensures Pending(name, rest)[1..] == Pending(name', rest')
  {
    hide Components, TakeName, SkipSlashes, AfterName;
    if rest.Some? { Parsed(rest.value, rest', name'); }
  }

  lemma ParseShrinks(r: seq<byte>, name': Name, rest': Option<seq<byte>>)
    requires name' == TakeName(SkipSlashes(r)) && name' != []
    requires rest' == if AfterName(SkipSlashes(r)) == [] then None else Some(AfterName(SkipSlashes(r)))
    ensures LenOf(rest') < |r|
  {
  }

  /** A path without components is nothing but slashes. */
  lemma {:induction false} OnlySlashes(path: seq<byte>)
    ensures Components(path) == [] <==> forall i :: 0 <= i < |path| ==> path[i] == SLASH
  {
    if path != [] && path[0] == SLASH {
      OnlySlashes(path[1..]);
      assert forall i :: 0 < i < |path| ==> path[i] == path[1..][i - 1];
    }
  }

  lemma {:induction false} ResolveAnswers(t: Nodes, m: nat, par: nat, cs: seq<Name>)
    ensures Resolve(t, m, par, cs).Found? || Resolve(t, m, par, cs).Missing?
    decreases |cs|
  {
    if cs != [] && IsDir(t, m) && cs[0] in t[m].entries {
      ResolveAnswers(t, t[m].entries[cs[0]].0, m, cs[1..]);
    }
  }

  method SearchFile(fs: Fs, path: seq<byte>, ghost rank: map<nat, nat>) returns (r: Search)
    requires Inv(fs, rank)
    ensures r == PathMeans(View(fs), path)
    ensures r.BadPath? <==> path == [] || path[0] != SLASH || |path| >= MAX_PATH_LEN
    ensures r.Unset? <==> 1 < |path| < MAX_PATH_LEN && forall i :: 0 <= i < |path| ==> path[i] == SLASH
  {
    hide BlocksOk, NodeAt, TreeOk, Components, SkipSlashes, TakeName, AfterName, Resolve;
    OnlySlashes(path);
    ResolveAnswers(View(fs), 0, 0, Components(path));
    if path == [SLASH] || path == [SLASH, 46] || path == [SLASH, 46, 46] {
      assert |path| > 1 ==> path[1] != SLASH;
      return Found(0, FT_DIRECTORY, 0);
    }
    if !(path != [] && path[0] == SLASH && |path| > 1 && |path| < MAX_PATH_LEN) { return BadPath; }
    ghost var t := View(fs);
    var m, par := 0, 0;
    var rest, name := PathParse(path);
    Parsed(path, rest, name);
    if name == [] { return Unset; }
    RootIsDir(t, rank);
    while name != []
      invariant IsDir(t, m) && Resolve(t, m, par, Pending(name, rest)) == Resolve(t, 0, 0, Components(path))
      decreases if name == [] then 0 else 1 + LenOf(rest)
    {
      IsDirInDirs(fs, m);
      var found, e := Lookup(fs, m, name);
      ResolveStep(t, m, par, name, rest);
      if !found { return Missing(m); }
      ListedTypes(t, rank, m, name);
      ghost var name0, rest0 := name, rest;
      name := [];
      if rest.Some? {
        rest, name := PathParse(rest.value);
        if name != [] { ParseShrinks(rest0.value, name, rest); }
      }
      NextPending(name0, rest0, name, rest);
      if e.ftype == FT_DIRECTORY {
        m, par := e.ino, m;
      } else {
        return Found(e.ino, FT_REGULAR, m);
      }
    }
    ResolveEnd(t, m, par);
    return Found(m, FT_DIRECTORY, par);
  }

  lemma RootIsDir(t: Nodes, rank: map<nat, nat>)
    requires TreeOk(t, rank)
    ensures IsDir(t, 0)
  {
  }

  lemma ResolveEnd(t: Nodes, m: nat, par: nat)
    ensures Resolve(t, m, par, []) == Found(m, FT_DIRECTORY, par)
  {
  }

  // ---------------------------------------------------------------- the path to a directory

  /** The name a directory has in its parent. */
  ghost function NameOf(t: Nodes, m: nat): (nm: Name)
    requires m != 0 && Hangs(t, m)
    ensures Names(t, ParentOf(t, m), nm, m)
  {
    var nm :| Names(t, ParentOf(t, m), nm, m);
    nm
  }

  lemma Above(t: Nodes, rank: map<nat, nat>, m: nat)
    requires TreeOk(t, rank) && IsDir(t, m) && m != 0
    ensures Hangs(t, m) && IsDir(t, ParentOf(t, m)) && m in rank && ParentOf(t, m) in rank
    ensures rank[m] == rank[ParentOf(t, m)] + 1
  {
    assert Hangs(t, m);
    var nm := NameOf(t, m);
    assert Names(t, ParentOf(t, m), nm, m);
  }

  /** The names from the root down to directory m. */
  ghost function PathTo(t: Nodes, rank: map<nat, nat>, m: nat): seq<Name>
    requires TreeOk(t, rank) && IsDir(t, m) && m in rank
    decreases rank[m]
  {
    if m == 0 then [] else
      Above(t, rank, m);
      PathTo(t, rank, ParentOf(t, m)) + [NameOf(t, m)]
  }

  lemma {:induction false} ResolveOn(t: Nodes, m: nat, par: nat, cs: seq<Name>, nm: Name)
    requires Resolve(t, m, par, cs).Found? && Resolve(t, m, par, cs).ftype == FT_DIRECTORY
    requires IsDir(t, Resolve(t, m, par, cs).i) && nm in t[Resolve(t, m, par, cs).i].entries
    requires t[Resolve(t, m, par, cs).i].entries[nm].1 == FT_DIRECTORY
    ensures Resolve(t, m, par, cs + [nm])
         == Found(t[Resolve(t, m, par, cs).i].entries[nm].0, FT_DIRECTORY, Resolve(t, m, par, cs).i)
    decreases |cs|
  {
    if cs == [] {
      assert cs + [nm] == [nm];
      assert [nm][1..] == [];
    } else {
      assert (cs + [nm])[1..] == cs[1..] + [nm];
      var (i, ftype) := t[m].entries[cs[0]];
      assert Resolve(t, i, m, cs[1..]) == Resolve(t, m, par, cs);
      ResolveOn(t, i, m, cs[1..], nm);
    }
  }

  /** Walking down the path to a directory leads to that directory. */
  lemma {:induction false} PathLeadsBack(t: Nodes, rank: map<nat, nat>, m: nat)
    requires TreeOk(t, rank) && IsDir(t, m) && m in rank && Hangs(t, m)
    ensures Resolve(t, 0, 0, PathTo(t, rank, m)) == Found(m, FT_DIRECTORY, ParentOf(t, m))
    ensures Plain(PathTo(t, rank, m))
    decreases rank[m]
  {
    if m != 0 {
      Above(t, rank, m);
      var p, nm := ParentOf(t, m), NameOf(t, m);
      assert Hangs(t, p);
      assert Names(t, p, nm, m) && NameOk(nm);
      PathLeadsBack(t, rank, p);
      ResolveOn(t, 0, 0, PathTo(t, rank, p), nm);
    }
  }

  // ---------------------------------------------------------------- sys_getcwd

  lemma DirFacts(fs: Fs, m: nat)
    requires BlocksOk(fs) && IsDir(View(fs), m)
    ensures m in fs.inodes && m in fs.dirs && BlocksAt(fs.inodes[m].sectors, fs.d, fs.p)
    ensures SlotsOk(Slots(fs.inodes[m].sectors, fs.d))
    ensures View(fs)[m] == DirNode(Entries(Slots(fs.inodes[m].sectors, fs.d)))
  {
    hide Partition, WellFormed, Owned, Slots, Entries, SlotsOk, NoIdleBlock;
    IsDirInDirs(fs, m);
    NodeOkAt(fs, m);
  }

  /** get_parent_dir_inode_nr: the second entry of the first block. */
  method ParentInode(fs: Fs, m: nat) returns (p: nat)
    requires BlocksOk(fs) && IsDir(View(fs), m)
    ensures DOTDOT in View(fs)[m].entries && p == View(fs)[m].entries[DOTDOT].0
  {
    hide Partition, WellFormed, Owned, DecEntry, Entries;
    DirFacts(fs, m);
    var sectors := fs.inodes[m].sectors;
    DirSector(sectors, fs.d, fs.p, 0);
    p := DecEntry(fs.d[sectors[0]], 1).ino;
    EntryAt(Slots(sectors, fs.d), 1);
    assert Slots(sectors, fs.d)[21 * 0 + 1] == DecEntry(fs.d[sectors[0]], 1);
  }

  /** Nothing before place n refers to inode c. */
  predicate NoneBefore(ss: seq<Entry>, n: nat, c: nat) {
    forall j :: 0 <= j < n && j < |ss| ==> ss[j].ino != c
  }

  method ChildInSector(sec: Sector, c: nat, ghost ss: seq<Entry>, ghost b: nat) returns (found: bool, nm: Name, ghost j: nat)
    requires |ss| == PLACES && b < 12 && forall k :: 0 <= k < PER_SECTOR ==> ss[21 * b + k] == DecEntry(sec, k)
    requires NoneBefore(ss, 21 * b, c)
    ensures found ==> j < PLACES && ss[j].ino == c && nm == ss[j].name
    ensures !found ==> NoneBefore(ss, 21 * b + 21, c)
  {
    found, nm, j := false, [], 0;
    var k := 0;
    while k < PER_SECTOR
      invariant k <= PER_SECTOR && NoneBefore(ss, 21 * b + k, c)
    {
      var e := DecEntry(sec, k);
      assert ss[21 * b + k] == e;
      if e.ino == c { return true, e.name, 21 * b + k; }
      k := k + 1;
    }
  }

  lemma NoneInMissing(sectors: Pointers, d: Drive, b: nat, c: nat)
    requires b < 12 && sectors[b] == 0 && c != 0 && NoneBefore(Slots(sectors, d), 21 * b, c)
    ensures NoneBefore(Slots(sectors, d), 21 * b + 21, c)
  {
    var ss := Slots(sectors, d);
    forall j | 21 * b <= j < 21 * b + 21 ensures ss[j].ino != c {
      SlotInBlock(sectors, d, b, j - 21 * b);
    }
  }

  /** get_child_dir_name: the first entry of directory p that refers to inode c. */
  method ChildName(fs: Fs, p: nat, c: nat, ghost rank: map<nat, nat>) returns (found: bool, nm: Name)
    requires Inv(fs, rank) && IsDir(View(fs), c) && c != 0 && Hangs(View(fs), c) && p == ParentOf(View(fs), c)
    ensures found && nm == NameOf(View(fs), c)
  {
    hide Partition, WellFormed, Owned, DecEntry, Entries, TreeOk, Slots, NodeAt, SlotsOk;
    ParentIsDir(View(fs), rank, c);
    DirFacts(fs, p);
    var sectors := fs.inodes[p].sectors;
    ghost var ss := Slots(sectors, fs.d);
    var all, blockIdx := DirBlocks(sectors), 0;
    found, nm := false, [];
    ghost var j := 0;
    while blockIdx < 12
      invariant blockIdx <= 12 && NoneBefore(ss, 21 * blockIdx, c)
    {
      if all[blockIdx] != 0 {
        DirSector(sectors, fs.d, fs.p, blockIdx);
        found, nm, j := ChildInSector(fs.d[all[blockIdx]], c, ss, blockIdx);
        if found {
          ChildPlace(View(fs), rank, ss, p, c, j);
          return;
        }
      } else {
        NoneInMissing(sectors, fs.d, blockIdx, c);
      }
      blockIdx := blockIdx + 1;
    }
    j := ChildExists(View(fs), ss, p, c);
  }

  lemma ParentIsDir(t: Nodes, rank: map<nat, nat>, c: nat)
    requires TreeOk(t, rank) && IsDir(t, c) && c != 0
    ensures Hangs(t, c) && IsDir(t, ParentOf(t, c))
  {
    Above(t, rank, c);
  }

  /** A place that refers to directory c holds the name of c: it is live and it is not one of the dots. */
  lemma ChildPlace(t: Nodes, rank: map<nat, nat>, ss: seq<Entry>, p: nat, c: nat, j: nat)
    requires TreeOk(t, rank) && IsDir(t, c) && c != 0 && Hangs(t, c) && p == ParentOf(t, c)
    requires SlotsOk(ss) && IsDir(t, p) && t[p] == DirNode(Entries(ss)) && j < PLACES && ss[j].ino == c
    ensures ss[j].name == NameOf(t, c)
  {
    Above(t, rank, c);
    assert Live(ss[j]);
    EntryAt(ss, j);
    DotPlaces(ss, j);
    assert Hangs(t, p);
    if j == 1 {
      if p != 0 { Above(t, rank, p); }
    }
    assert Names(t, p, ss[j].name, c);
  }

  lemma ChildExists(t: Nodes, ss: seq<Entry>, p: nat, c: nat) returns (j: nat)
    requires IsDir(t, c) && c != 0 && Hangs(t, c) && p == ParentOf(t, c)
    requires IsDir(t, p) && t[p] == DirNode(Entries(ss))
    ensures j < |ss| && ss[j].ino == c
  {
    j := PlaceOf(ss, NameOf(t, c));
  }

  function Reverse(s: seq<Name>): (r: seq<Name>)
    ensures |r| == |s|
  {
    if s == [] then [] else Reverse(s[1..]) + [s[0]]
  }

  lemma {:induction false} ReverseAppend(s: seq<Name>, x: Name)
    ensures Reverse(s + [x]) == [x] + Reverse(s)
  {
    if s == [] {
      assert s + [x] == [x];
    } else {
      assert (s + [x])[1..] == s[1..] + [x];
      ReverseAppend(s[1..], x);
    }
  }

  lemma {:induction false} ReversePlain(s: seq<Name>)
    ensures Plain(Reverse(s)) <==> Plain(s)
  {
    if s != [] {
      ReversePlain(s[1..]);
      var r := Reverse(s[1..]) + [s[0]];
      assert r[|r| - 1] == s[0];
      assert forall i :: 0 <= i < |r| - 1 ==> r[i] == Reverse(s[1..])[i];
      assert forall i :: 0 <= i < |s| - 1 ==> s[1..][i] == s[i + 1];
      assert Plain(s) <==> Plain(s[1..]) && IsComponent(s[0]) && s[0] != DOT && s[0] != DOTDOT by {
        if Plain(s[1..]) && IsComponent(s[0]) && s[0] != DOT && s[0] != DOTDOT {
          forall i | 0 <= i < |s| ensures IsComponent(s[i]) && s[i] != DOT && s[i] != DOTDOT {
            if i > 0 { assert s[i] == s[1..][i - 1]; }
          }
        }
      }
      assert Plain(r) <==> Plain(Reverse(s[1..])) && IsComponent(s[0]) && s[0] != DOT && s[0] != DOTDOT;
    }
  }

  lemma JoinLast(s: seq<Name>, x: Name)
    ensures Join(s + [x]) == Join(s) + ([SLASH] + x)
  {
    assert (s + [x])[..|s|] == s;
    assert Join(s) + [SLASH] + x == Join(s) + ([SLASH] + x);
  }

  lemma ReverseFirst(x: Name, s: seq<Name>)
    ensures Reverse([x] + s) == Reverse(s) + [x]
  {
    assert ([x] + s)[1..] == s;
  }

  /** The last name of the reversed path goes to the front of what is left of it, and to the end of buf. */
  lemma TurnOne(ups: seq<Name>, i: nat)
    requires 0 < i <= |ups|
    ensures |Join(ups[..i - 1])| <= |Join(ups[..i])|
    ensures Join(Reverse(ups[i..])) + Join(ups[..i])[|Join(ups[..i - 1])|..] == Join(Reverse(ups[i - 1..]))
  {
    hide Join, Reverse;
    var a, x := ups[..i - 1], ups[i - 1];
    assert ups[..i] == a + [x] && ups[i - 1..] == [x] + ups[i..];
    JoinLast(a, x);
    ReverseFirst(x, ups[i..]);
    JoinLast(Reverse(ups[i..]), x);
    assert (Join(a) + ([SLASH] + x))[|Join(a)|..] == [SLASH] + x;
  }

  /** Lines 947-958: cut names off the end of rev and append them to buf. */
  method TurnAround(rev0: seq<byte>, ghost ups: seq<Name>) returns (buf: seq<byte>)
    requires Plain(ups) && rev0 == Join(ups)
    ensures buf == Join(Reverse(ups))
  {
    var rev := rev0;
    buf := [];
    ghost var i: nat := |ups|;
    assert ups[..i] == ups && Reverse(ups[i..]) == [];
    var k := LastSlashOf(rev);
    while k >= 0
      invariant i <= |ups| && rev == Join(ups[..i]) && buf == Join(Reverse(ups[i..]))
      invariant IsLastSlash(rev, k)
      decreases i
    {
      JoinNonEmpty(ups[..i]);
      PlainPrefix(ups, i);
      LastSlashOfJoin(ups[..i]);
      assert ups[..i][..i - 1] == ups[..i - 1];
      TurnOne(ups, i);
      buf := buf + rev[k..];
      rev := rev[..k];
      i := i - 1;
      k := LastSlashOf(rev);
    }
    JoinFirst(ups[..i]);
    assert ups[0..] == ups;
  }

  lemma JoinFirst(s: seq<Name>)
    ensures s != [] ==> Join(s) != [] && Join(s)[0] == SLASH
  {
    if s != [] { JoinStartsWithSlash(s); }
  }

  lemma PlainPrefix(s: seq<Name>, i: nat)
    requires Plain(s) && i <= |s|
    ensures Plain(s[..i])
  {
  }

  predicate IsLastSlash(s: seq<byte>, k: int) {
    -1 <= k < |s| && (k >= 0 ==> s[k] == SLASH) && forall j :: k < j < |s| ==> s[j] != SLASH
  }

  method LastSlashOf(s: seq<byte>) returns (k: int)
    ensures IsLastSlash(s, k)
  {
    k := -1;
    var n := 0;
    while n < |s|
      invariant n <= |s| && -1 <= k < n && (k >= 0 ==> s[k] == SLASH) && forall j :: k < j < n ==> s[j] != SLASH
    {
      if s[n] == SLASH { k := n; }
      n := n + 1;
    }
  }

  /**
   * Path: what sys_getcwd leaves in the buffer. Spilled: the same, with the end of the string behind the buffer.
   * Halted: the assert on the size, or on the first block of a directory that is no longer there. Astray: the number
   * belongs to a file by now, whose first block is read as a directory. Overrun: the names do not fit full_path_reverse.
   */
  datatype Cwd = Path(path: seq<byte>) | Spilled(path: seq<byte>) | Halted | Astray | Overrun

  /** The string with its final zero in a buffer of size bytes. */
  function InBuffer(path: seq<byte>, size: nat): Cwd {
    if |path| < size then Path(path) else Spilled(path)
  }

  lemma {:induction false} ReverseLength(s: seq<Name>)
    ensures |Join(Reverse(s))| == |Join(s)|
  {
    if s != [] {
      var front, x := s[..|s| - 1], s[|s| - 1];
      assert s == front + [x];
      ReverseAppend(front, x);
      ReverseLength(front);
      JoinFront(x, Reverse(front));
    }
  }

  lemma {:induction false} JoinFront(x: Name, s: seq<Name>)
    ensures |Join([x] + s)| == 1 + |x| + |Join(s)|
  {
    var t := [x] + s;
    if s == [] {
      assert t[..|t| - 1] == [];
    } else {
      assert t[..|t| - 1] == [x] + s[..|s| - 1];
      JoinFront(x, s[..|s| - 1]);
    }
  }

  /** Where the upward walk stands: the names met so far, from directory m up to directory c. */
  ghost predicate Climbing(t: Nodes, rank: map<nat, nat>, m: nat, c: nat, ups: seq<Name>) {
    && TreeOk(t, rank) && IsDir(t, m) && m in rank && IsDir(t, c) && c in rank
    && PathTo(t, rank, m) == PathTo(t, rank, c) + Reverse(ups)
  }

  lemma ClimbOne(t: Nodes, rank: map<nat, nat>, m: nat, c: nat, ups: seq<Name>)
    requires Climbing(t, rank, m, c, ups) && c != 0
    ensures Hangs(t, c) && IsDir(t, ParentOf(t, c)) && ParentOf(t, c) in rank && rank[ParentOf(t, c)] < rank[c]
    ensures Climbing(t, rank, m, ParentOf(t, c), ups + [NameOf(t, c)])
  {
    Above(t, rank, c);
    ReverseAppend(ups, NameOf(t, c));
  }

  lemma {:induction false} JoinMonotone(a: seq<Name>, b: seq<Name>)
    ensures |Join(b)| <= |Join(a + b)|
  {
    if b == [] {
      assert a + b == a;
    } else {
      var t := a + b;
      assert t[..|t| - 1] == a + b[..|b| - 1];
      JoinMonotone(a, b[..|b| - 1]);
    }
  }

  /**
   * The path is returned exactly when it fits both buffers. The assert lets a path of size bytes through, whose final
   * zero then lies behind the buffer, and the root is written into a buffer of any size. Nothing keeps rmdir from
   * removing a working directory; its record is then zero, and the assert on the block fires.
   */
  method GetCwd(fs: Fs, m: nat, size: nat, ghost rank: map<nat, nat>) returns (r: Cwd)
    requires Inv(fs, rank)
    ensures IsDir(View(fs), m) ==>
              m in rank &&
              var path := PathTo(View(fs), rank, m);
              && (r.Path? <==> |Join(path)| < MAX_PATH_LEN && |Render(path)| < size)
              && (r.Overrun? <==> |Join(path)| >= MAX_PATH_LEN)
              && (r.Halted? <==> size < |Join(path)| < MAX_PATH_LEN)
              && (r.Path? || r.Spilled? ==> r.path == Render(path)) && !r.Astray?
    ensures !IsDir(View(fs), m) ==>
              r == if m in fs.inodes && fs.inodes[m].sectors[0] != 0 then Astray else Cwd.Halted
  {
    hide BlocksOk, NodeAt, TreeOk, IsDir, Dots;
    WhatIsThere(fs, m, rank);
    if m !in fs.inodes || fs.inodes[m].sectors[0] < fs.p.ds { return Cwd.Halted; }
    if m !in fs.dirs { return Astray; }
    ghost var t := View(fs);
    if m == 0 { return InBuffer([SLASH], size); }
    var c, rev := m, [];
    ghost var ups: seq<Name> := [];
    ClimbStart(t, rank, m);
    while c != 0
      invariant Climbing(t, rank, m, c, ups) && rev == Join(ups) && |rev| < MAX_PATH_LEN
      decreases rank[c]
    {
      ClimbOne(t, rank, m, c, ups);
      var p := ParentInode(fs, c);
      var found, nm := ChildName(fs, p, c, rank);
      rev := rev + [SLASH] + nm;
      assert (ups + [nm])[..|ups|] == ups;
      ups := ups + [nm];
      if |rev| >= MAX_PATH_LEN {
        TooLong(t, rank, m, p, ups);
        return Cwd.Overrun;
      }
      c := p;
    }
    ClimbEnd(t, rank, m, ups);
    if |rev| > size { return Cwd.Halted; }
    var buf := TurnAround(rev, ups);
    return InBuffer(buf, size);
  }

  /** A pointer to a first block is zero or in the data area, and that of a directory is not zero. */
  lemma WhatIsThere(fs: Fs, m: nat, rank: map<nat, nat>)
    requires Inv(fs, rank)
    ensures m in View(fs) <==> m in fs.inodes
    ensures IsDir(View(fs), m) <==> m in fs.inodes && m in fs.dirs
    ensures IsDir(View(fs), m) ==> m in rank && fs.inodes[m].sectors[0] >= fs.p.ds
    ensures m in fs.inodes ==> (fs.inodes[m].sectors[0] < fs.p.ds <==> fs.inodes[m].sectors[0] == 0)
  {
    hide Partition, Owned, Slots, Entries, SlotsOk, NoIdleBlock, LiveCount, Hangs, Closed, NamedOnce;
    if m in fs.inodes {
      NodeOkAt(fs, m);
      FirstBlock(fs.inodes[m], m in fs.dirs, fs.d, fs.p);
    }
  }

  lemma FirstBlock(ino: Inode, isDir: bool, d: Drive, p: Pool)
    requires InodeOk(ino, isDir, d, p)
    ensures isDir ==> ino.sectors[0] >= p.ds
    ensures ino.sectors[0] < p.ds <==> ino.sectors[0] == 0
  {
    hide Slots, SlotsOk, NoIdleBlock, LiveCount;
    assert Refs(ino.sectors, d)[0] == ino.sectors[0];
  }

  lemma ClimbStart(t: Nodes, rank: map<nat, nat>, m: nat)
    requires TreeOk(t, rank) && IsDir(t, m) && m in rank
    ensures Climbing(t, rank, m, m, [])
  {
  }

  lemma TooLong(t: Nodes, rank: map<nat, nat>, m: nat, c: nat, ups: seq<Name>)
    requires Climbing(t, rank, m, c, ups)
    ensures |Join(PathTo(t, rank, m))| >= |Join(ups)|
  {
    hide TreeOk, IsDir;
    ReverseLength(ups);
    JoinMonotone(PathTo(t, rank, c), Reverse(ups));
  }

  lemma ClimbEnd(t: Nodes, rank: map<nat, nat>, m: nat, ups: seq<Name>)
    requires Climbing(t, rank, m, 0, ups) && m != 0
    ensures PathTo(t, rank, m) == Reverse(ups) && Plain(ups) && |Join(PathTo(t, rank, m))| == |Join(ups)|
    ensures Render(PathTo(t, rank, m)) == Join(Reverse(ups))
  {
    assert PathTo(t, rank, 0) + Reverse(ups) == Reverse(ups);
    Above(t, rank, m);
    PathLeadsBack(t, rank, m);
    ReversePlain(ups);
    ReverseLength(ups);
  }

  /** The path of a directory, when it fits the buffers, resolves back to the directory. */
  lemma CwdResolves(fs: Fs, m: nat, rank: map<nat, nat>)
    requires Inv(fs, rank) && IsDir(View(fs), m) && m in rank && Hangs(View(fs), m)
    requires |Join(PathTo(View(fs), rank, m))| < MAX_PATH_LEN
    ensures PathMeans(View(fs), Render(PathTo(View(fs), rank, m))) == Found(m, FT_DIRECTORY, ParentOf(View(fs), m))
  {
    hide BlocksOk, NodeAt, Resolve, TreeOk, IsDir, Dots, View;
    var t := View(fs);
    var stack := PathTo(t, rank, m);
    PathLeadsBack(t, rank, m);
    ComponentsOfRender(stack);
    if m == 0 {
      RootAtTop(t);
      assert PathTo(t, rank, m) == [];
    } else {
      JoinFirst(stack);
      RenderIsNotDots(stack);
    }
  }

  lemma RootAtTop(t: Nodes)
    requires Hangs(t, 0)
    ensures ParentOf(t, 0) == 0
  {
  }

  /** No path of plain names is one of the three spellings of the root. */
  lemma RenderIsNotDots(stack: seq<Name>)
    requires Plain(stack) && stack != []
    ensures Render(stack) != [SLASH] && Render(stack) != [SLASH, 46] && Render(stack) != [SLASH, 46, 46]
  {
    RenderIsRoot(stack);
    ComponentsOfJoin(stack);
    OneComponent(DOT);
    OneComponent(DOTDOT);
    ComponentsAfterSlash(DOT);
    ComponentsAfterSlash(DOTDOT);
    assert [SLASH] + DOT == [SLASH, 46] && [SLASH] + DOTDOT == [SLASH, 46, 46];
  }
}
