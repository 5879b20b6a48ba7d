/**
 System calls from a path on: search_file and what is done with the inode and the parent directory that it finds.
 */
module SystemCalls {
  import opened Basics
  import opened Sectors
  import opened FileData
  import opened Directory
  import opened Paths
  import opened Tree
  import opened Volume
  import opened FileSystem
  import opened Namespace

  /** Undefined: the path is nothing but slashes, and the inode number is never assigned. */
  datatype Reply = Gone | Refusal | Halts | Undefined

  // ---------------------------------------------------------------- what search_file finds

  function Last(cs: seq<Name>): Name
    requires cs != []
  {
    cs[|cs| - 1]
  }

  /** A directory is found by its entry, for the last component, in the parent; a file by its name in the parent. */
  predicate FoundBy(t: Nodes, s: Search, last: Name) {
    s.Found? && IsDir(t, s.parent) &&
    if s.ftype == FT_DIRECTORY then last in t[s.parent].entries && t[s.parent].entries[last] == (s.i, FT_DIRECTORY)
    else s.i in t && t[s.i].FileNode? && exists nm :: nm in t[s.parent].entries && Names(t, s.parent, nm, s.i)
  }

  lemma {:induction false} ResolveFinds(t: Nodes, rank: map<nat, nat>, m: nat, par: nat, cs: seq<Name>)
    requires TreeOk(t, rank) && IsDir(t, m) && cs != [] && Resolve(t, m, par, cs).Found?
    ensures FoundBy(t, Resolve(t, m, par, cs), Last(cs))
    decreases |cs|
  {
    hide TreeOk, Leads, Childless;
    EntryKinds(t, rank, m, cs[0]);
    var (i, ftype) := t[m].entries[cs[0]];
    if ftype == FT_DIRECTORY {
      if |cs| > 1 {
        ResolveFinds(t, rank, i, m, cs[1..]);
        assert Last(cs[1..]) == Last(cs);
      } else {
        assert cs[1..] == [] && Last(cs) == cs[0];
      }
    } else {
      assert Names(t, m, cs[0], i);
    }
  }

  /** The path has a last component, and it is ".". */
  predicate EndsInDot(path: seq<byte>) {
    Components(path) != [] && Last(Components(path)) == DOT
  }

  /** For a directory other than the root, the parent found is the directory itself exactly for a path that ends in ".". */
  lemma DotFindsItself(t: Nodes, rank: map<nat, nat>, path: seq<byte>)
    requires TreeOk(t, rank) && PathMeans(t, path).Found? && PathMeans(t, path).ftype == FT_DIRECTORY && PathMeans(t, path).i != 0
    ensures var s := PathMeans(t, path);
            Leads(t, s.parent, s.i) && (s.parent == s.i <==> EndsInDot(path))
  {
    hide TreeOk, Childless, Resolve, Components;
    RootIsDir(t, rank);
    ResolveFinds(t, rank, 0, 0, Components(path));
    var s := PathMeans(t, path);
    EntryKinds(t, rank, s.parent, Last(Components(path)));
  }

  // ---------------------------------------------------------------- sys_rmdir

  predicate Removable(t: Nodes, s: Search) {
    s.Found? && s.ftype == FT_DIRECTORY && s.i != 0 && Childless(t, s.i)
  }

  /**
   For every path: the directory goes exactly when it is found, is not the root and has only its dots. The tree is
   kept exactly when the path does not end in ".".
   */
  method SysRmdir(fs: Fs, path: seq<byte>, ghost rank: map<nat, nat>) returns (r: Reply, fs': Fs, ghost nm: Name)
    requires Inv(fs, rank)
    ensures var t, s := View(fs), PathMeans(View(fs), path);
            && (r.Gone? <==> Removable(t, s))
            && (r.Halts? <==> s.BadPath? || (s.Found? && s.i == 0))
            && (r.Undefined? <==> s.Unset?)
    ensures !r.Gone? ==> fs' == fs
    ensures r.Gone? && !EndsInDot(path) ==>
              && Inv(fs', rank) && Names(View(fs), PathMeans(View(fs), path).parent, nm, PathMeans(View(fs), path).i)
              && View(fs') == RemoveNode(View(fs), PathMeans(View(fs), path).parent, nm, PathMeans(View(fs), path).i)
    ensures r.Gone? && EndsInDot(path) ==>
              && BlocksOk(fs') && View(fs') == View(fs) - {PathMeans(View(fs), path).i} && forall any :: !Inv(fs', any)
  {
    hide BlocksOk, TreeOk, NodeAt, PathMeans, EndsInDot, Childless, Leads;
    fs', nm := fs, [];
    var s := SearchFile(fs, path, rank);
    match s {
      case BadPath => r := Halts;
      case Unset => r := Undefined;
      case Missing(_) => r := Refusal;
      case Found(i, ftype, parent) =>
        if i == 0 { r := Halts; return; }  // the ASSERT on the inode number
        if ftype != FT_DIRECTORY { r := Refusal; return; }
        DotFindsItself(View(fs), rank, path);
        var o;
        o, fs', nm := RemoveDir(fs, parent, i, rank);
        r := if o.Removed? then Gone else Refusal;
    }
  }

  /** "." after the path of a directory finds the directory with itself as the parent. */
  lemma DotPath(t: Nodes, rank: map<nat, nat>, a: nat)
    requires TreeOk(t, rank) && IsDir(t, a) && a != 0 && a in rank && |Join(PathTo(t, rank, a))| + 2 < MAX_PATH_LEN
    ensures var path := Join(PathTo(t, rank, a)) + [SLASH] + DOT;
            PathMeans(t, path) == Found(a, FT_DIRECTORY, a) && EndsInDot(path)
  {
    hide TreeOk, Resolve, Components;
    DirHangs(t, rank, a);
    var stack := PathTo(t, rank, a);
    var path := Join(stack) + [SLASH] + DOT;
    PathLeadsBack(t, rank, a);
    ComponentsOfJoin(stack);
    ComponentsOfConcat(Join(stack), DOT);
    OneComponent(DOT);
    JoinFirst(stack);
    ResolveOn(t, 0, 0, stack, DOT);
    JoinLonger(t, rank, a);
    assert Last(stack + [DOT]) == DOT;
  }

  lemma DirHangs(t: Nodes, rank: map<nat, nat>, a: nat)
    requires TreeOk(t, rank) && IsDir(t, a)
    ensures Hangs(t, a) && DOT in t[a].entries && t[a].entries[DOT] == (a, FT_DIRECTORY)
  {
    assert Hangs(t, a);
  }

  lemma JoinLonger(t: Nodes, rank: map<nat, nat>, a: nat)
    requires TreeOk(t, rank) && IsDir(t, a) && a != 0 && a in rank && Hangs(t, a)
    ensures PathTo(t, rank, a) != [] && |Join(PathTo(t, rank, a))| >= 2
  {
    PathLeadsBack(t, rank, a);
    Above(t, rank, a);
    var s := PathTo(t, rank, a);
    assert IsComponent(s[|s| - 1]);
  }

  /** rmdir("…/.") of any empty directory: it is gone, and the directory above still names it. */
  method RmdirOfDot(fs: Fs, a: nat, path: seq<byte>, ghost rank: map<nat, nat>) returns (r: Reply, fs': Fs)
    requires Inv(fs, rank) && Childless(View(fs), a) && a != 0 && a in rank
    requires |Join(PathTo(View(fs), rank, a))| + 2 < MAX_PATH_LEN && path == Join(PathTo(View(fs), rank, a)) + [SLASH] + DOT
    ensures r.Gone? && a !in View(fs') && (forall any :: !Inv(fs', any))
    ensures exists m, nm :: Names(View(fs'), m, nm, a)
  {
    hide BlocksOk, TreeOk, NodeAt, PathTo, PathMeans, EndsInDot;
    DotPath(View(fs), rank, a);
    ghost var x;
    r, fs', x := SysRmdir(fs, path, rank);
    NameStays(View(fs), rank, a);
  }

  lemma NameStays(t: Nodes, rank: map<nat, nat>, a: nat)
    requires TreeOk(t, rank) && IsDir(t, a) && a != 0
    ensures exists m, nm :: Names(t - {a}, m, nm, a)
  {
    Above(t, rank, a);
    var m, nm := ParentOf(t, a), NameOf(t, a);
    assert Names(t - {a}, m, nm, a);
  }

  /** From any state with room for a directory: mkdir, then rmdir of it with "." after its path. */
  method MkdirThenRmdirOfDot(fs: Fs, m: nat, nm: Name, ghost rank: map<nat, nat>) returns (fs': Fs, n: nat)
    requires Inv(fs, rank) && CanDo(fs, MkdirOp(m, nm))
    ensures n !in fs.inodes && n !in View(fs') && Names(View(fs'), m, nm, n) && forall any :: !Inv(fs', any)
  {
    hide BlocksOk, TreeOk, NodeAt, AddNode, Childless, Names, EmptyDir;
    var fs1, e, e2;
    ghost var rank1, rank2;
    RootThere(fs, rank);
    fs1, e, rank1 := Perform(fs, MkdirOp(m, nm), rank);
    n := e.n;
    InvFacts(fs, rank);
    NewBareDir(View(fs), rank, m, nm, n);
    fs', e2, rank2 := Perform(fs1, RmdirOp(n, DOT), rank1);
  }

  lemma NewBareDir(t: Nodes, rank: map<nat, nat>, m: nat, nm: Name, n: nat)
    requires TreeOk(t, rank) && IsDir(t, m) && n !in t && nm !in t[m].entries
    ensures var t' := AddNode(t, m, nm, n, EmptyDir(n, m)); Childless(t', n) && Names(t' - {n}, m, nm, n)
  {
    assert Hangs(t, m);
  }

  lemma RootThere(fs: Fs, rank: map<nat, nat>)
    requires Inv(fs, rank)
    ensures 0 in fs.inodes
  {
  }

  /** The number is free for the next file or directory, which is then entered twice. */
  lemma NumberReused(t: Nodes, rank: map<nat, nat>, a: nat, m: nat, nm: Name, node: Node)
    requires TreeOk(t, rank) && IsDir(t, a) && a != 0 && IsDir(t, m) && m != a
    requires nm !in t[m].entries && nm != DOT && nm != DOTDOT
    ensures !NamedOnce(AddNode(t - {a}, m, nm, a, node))
  {
    Above(t, rank, a);
    var p, x := ParentOf(t, a), NameOf(t, a);
    var t' := AddNode(t - {a}, m, nm, a, node);
    assert Names(t', m, nm, a) && Names(t', p, x, a);
  }

  // ---------------------------------------------------------------- sys_unlink

  /** inUse: the inodes of the file table. */
  method SysUnlink(fs: Fs, path: seq<byte>, inUse: set<nat>, ghost rank: map<nat, nat>)
    returns (r: Reply, fs': Fs, ghost nm: Name)
    requires Inv(fs, rank)
    ensures var s := PathMeans(View(fs), path);
            && (r.Gone? <==> s.Found? && s.ftype != FT_DIRECTORY && s.i !in inUse)
            && (r.Halts? <==> s.BadPath? || (s.Found? && s.i == 0))
            && (r.Undefined? <==> s.Unset?)
    ensures !r.Gone? ==> fs' == fs
    ensures r.Gone? ==> Inv(fs', rank)
    ensures r.Gone? ==> Names(View(fs), PathMeans(View(fs), path).parent, nm, PathMeans(View(fs), path).i)
    ensures r.Gone? ==> View(fs') == RemoveNode(View(fs), PathMeans(View(fs), path).parent, nm, PathMeans(View(fs), path).i)
  {
    hide BlocksOk, TreeOk, NodeAt, PathMeans;
    fs', nm := fs, [];
    var s := SearchFile(fs, path, rank);
    match s {
      case BadPath => r := Halts;
      case Unset => r := Undefined;
      case Missing(_) => r := Refusal;
      case Found(i, ftype, parent) =>
        if ftype != FT_DIRECTORY {
          nm := FileFound(View(fs), rank, path);
          RemovalFacts(fs, rank, parent, i, nm);
          if i in inUse { r := Refusal; return; }
          fs' := FileSystem.Unlink(fs, parent, i, nm, rank);
          r := Gone;
        } else {
          r := if i == 0 then Halts else Refusal;
        }
    }
  }

  lemma FileFound(t: Nodes, rank: map<nat, nat>, path: seq<byte>) returns (nm: Name)
    requires TreeOk(t, rank) && PathMeans(t, path).Found? && PathMeans(t, path).ftype != FT_DIRECTORY
    ensures var s := PathMeans(t, path);
            s.i in t && t[s.i].FileNode? && Names(t, s.parent, nm, s.i)
  {
    hide TreeOk, Resolve, Components;
    RootIsDir(t, rank);
    ResolveFinds(t, rank, 0, 0, Components(path));
    var s := PathMeans(t, path);
    nm :| nm in t[s.parent].entries && Names(t, s.parent, nm, s.i);
  }

  // ---------------------------------------------------------------- paths through a file

  /** What a path means when only a directory may stand before a slash. */
  function Strictly(t: Nodes, m: nat, par: nat, cs: seq<Name>): Search
    decreases |cs|
  {
    if cs == [] then Found(m, FT_DIRECTORY, par)
    else if !IsDir(t, m) || cs[0] !in t[m].entries then Missing(m)
    else
      var (i, ftype) := t[m].entries[cs[0]];
      if ftype == FT_DIRECTORY then Strictly(t, i, m, cs[1..])
      else if |cs| == 1 then Found(i, FT_REGULAR, m)
      else Missing(m)
  }

  /** The path goes on after one that means a file. */
  predicate ThroughFile(t: Nodes, m: nat, par: nat, cs: seq<Name>) {
    exists k :: 0 < k < |cs| && MeansFile(Resolve(t, m, par, cs[..k]))
  }

  predicate MeansFile(s: Search) { s.Found? && s.ftype == FT_REGULAR }

  lemma ShorterPath(t: Nodes, m: nat, par: nat, cs: seq<Name>, k: nat)
    requires IsDir(t, m) && 0 < k <= |cs| && cs[0] in t[m].entries && t[m].entries[cs[0]].1 == FT_DIRECTORY
    ensures Resolve(t, m, par, cs[..k]) == Resolve(t, t[m].entries[cs[0]].0, m, cs[1..][..k - 1])
  {
    assert cs[..k][1..] == cs[1..][..k - 1];
  }

  /** search_file gives what the path strictly means exactly when no part of the path before the end means a file. */
  lemma {:induction false} StrictExactly(t: Nodes, m: nat, par: nat, cs: seq<Name>)
    ensures Resolve(t, m, par, cs) == Strictly(t, m, par, cs) <==> !ThroughFile(t, m, par, cs)
    decreases |cs|
  {
    if cs != [] && IsDir(t, m) && cs[0] in t[m].entries {
      var (i, ftype) := t[m].entries[cs[0]];
      if ftype == FT_DIRECTORY {
        StrictExactly(t, i, m, cs[1..]);
        ThroughOn(t, m, par, cs);
      } else if |cs| > 1 {
        assert cs[..1][0] == cs[0] && MeansFile(Resolve(t, m, par, cs[..1]));
      }
    }
  }

  lemma ThroughOn(t: Nodes, m: nat, par: nat, cs: seq<Name>)
    requires cs != [] && IsDir(t, m) && cs[0] in t[m].entries && t[m].entries[cs[0]].1 == FT_DIRECTORY
    ensures ThroughFile(t, m, par, cs) <==> ThroughFile(t, t[m].entries[cs[0]].0, m, cs[1..])
  {
    hide Resolve;
    var i := t[m].entries[cs[0]].0;
    forall k | 0 < k < |cs| && MeansFile(Resolve(t, m, par, cs[..k])) ensures ThroughFile(t, i, m, cs[1..]) {
      ShorterPath(t, m, par, cs, k);
      OneIsDirectory(t, m, par, cs);
      assert 0 < k - 1 < |cs[1..]| && MeansFile(Resolve(t, i, m, cs[1..][..k - 1]));
    }
    forall k | 0 < k < |cs[1..]| && MeansFile(Resolve(t, i, m, cs[1..][..k])) ensures ThroughFile(t, m, par, cs) {
      ShorterPath(t, m, par, cs, k + 1);
      assert MeansFile(Resolve(t, m, par, cs[..k + 1]));
    }
  }

  lemma OneIsDirectory(t: Nodes, m: nat, par: nat, cs: seq<Name>)
    requires cs != [] && IsDir(t, m) && cs[0] in t[m].entries && t[m].entries[cs[0]].1 == FT_DIRECTORY
    ensures !MeansFile(Resolve(t, m, par, cs[..1]))
  {
    ShorterPath(t, m, par, cs, 1);
    assert cs[1..][..0] == [];
  }

  /** unlink("/f/x") deletes /f, whatever x is. */
  method UnlinkThroughFile(fs: Fs, f: Name, x: Name, ghost rank: map<nat, nat>) returns (r: Reply, fs': Fs)
    requires Inv(fs, rank) && NameOk(f) && NameOk(x) && IsDir(View(fs), 0)
    requires f in View(fs)[0].entries && View(fs)[0].entries[f].1 == FT_REGULAR
    ensures Strictly(View(fs), 0, 0, [f, x]) == Missing(0) && r.Gone?
    ensures View(fs') == RemoveNode(View(fs), 0, f, View(fs)[0].entries[f].0)
  {
    hide BlocksOk, TreeOk, NodeAt, Components;
    ghost var nm;
    var path := [SLASH] + f + [SLASH] + x;
    ThroughFilePath(View(fs), f, x);
    EntryFacts(fs, rank, 0, f);
    r, fs', nm := SysUnlink(fs, path, {}, rank);
    OneName(View(fs), rank, 0, f, nm);
  }

  lemma OneName(t: Nodes, rank: map<nat, nat>, m: nat, a: Name, b: Name)
    requires TreeOk(t, rank) && IsDir(t, m) && a in t[m].entries
    requires Names(t, m, a, t[m].entries[a].0) && Names(t, m, b, t[m].entries[a].0)
    ensures a == b
  {
  }

  lemma ThroughFilePath(t: Nodes, f: Name, x: Name)
    requires NameOk(f) && NameOk(x) && IsDir(t, 0) && f in t[0].entries && t[0].entries[f].1 == FT_REGULAR
    ensures var path := [SLASH] + f + [SLASH] + x;
            PathMeans(t, path) == Found(t[0].entries[f].0, FT_REGULAR, 0)
  {
    var path := [SLASH] + f + [SLASH] + x;
    ComponentsAfterSlash(f);
    OneComponent(f);
    OneComponent(x);
    ComponentsOfConcat([SLASH] + f, x);
    hide Components;
    assert Components(path) == [f, x];
    assert path[1] == f[0] && path[1 + |f|] == SLASH && |path| >= 4;
  }
}
