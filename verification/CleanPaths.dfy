/** What the shell's wash_path may do to a path: the clean path means in the tree what the path meant. */
module CleanPaths {
  import opened Basics
  import opened Sectors
  import opened Directory
  import opened Paths
  import opened Tree
  import opened Namespace

  /** A name and the ".." after it cancel. */
  lemma {:induction false} UpUndoesName(st: seq<Name>, cs: seq<Name>, nm: Name)
    requires nm != DOT && nm != DOTDOT
    ensures Walk(st, cs + [nm, DOTDOT]) == Walk(st, cs)
    decreases |cs|
  {
    if cs == [] {
      assert [nm, DOTDOT][1..] == [DOTDOT] && cs + [nm, DOTDOT] == [nm, DOTDOT];
      assert Walk(st + [nm], [DOTDOT]) == Walk(Paths.Step(st + [nm], DOTDOT), [DOTDOT][1..]);
    } else {
      assert (cs + [nm, DOTDOT])[1..] == cs[1..] + [nm, DOTDOT];
      UpUndoesName(Paths.Step(st, cs[0]), cs[1..], nm);
    }
  }

  /** ".." at the root stays there. */
  lemma UpAtRoot()
    ensures Walk([], [DOTDOT]) == []
  {
    assert [DOTDOT][1..] == [];
  }

  /** One component takes the stack of a directory to the stack of the directory that its entry leads to. */
  lemma StepFollows(t: Nodes, rank: map<nat, nat>, m: nat, c: Name)
    requires TreeOk(t, rank) && IsDir(t, m) && m in rank && c in t[m].entries && t[m].entries[c].1 == FT_DIRECTORY
    ensures var i := t[m].entries[c].0;
            IsDir(t, i) && i in rank && Paths.Step(PathTo(t, rank, m), c) == PathTo(t, rank, i)
  {
    ListedTypes(t, rank, m, c);
    var i := t[m].entries[c].0;
    assert Hangs(t, m);
    if c == DOTDOT {
      if m != 0 { Above(t, rank, m); }
    } else if c != DOT {
      assert Names(t, m, c, i);
      Above(t, rank, i);
      assert Names(t, ParentOf(t, i), NameOf(t, i), i);
    }
  }

  /** Walking the components of a path to a directory builds the names from the root to it. */
  lemma {:induction false} WalkFollows(t: Nodes, rank: map<nat, nat>, m: nat, par: nat, cs: seq<Name>)
    requires TreeOk(t, rank) && IsDir(t, m) && m in rank
    requires Resolve(t, m, par, cs).Found? && Resolve(t, m, par, cs).ftype == FT_DIRECTORY
    ensures var i := Resolve(t, m, par, cs).i;
            IsDir(t, i) && i in rank && Walk(PathTo(t, rank, m), cs) == PathTo(t, rank, i)
    decreases |cs|
  {
    hide TreeOk, PathTo, Paths.Step;
    if cs != [] {
      StepFollows(t, rank, m, cs[0]);
      WalkFollows(t, rank, t[m].entries[cs[0]].0, m, cs[1..]);
    }
  }

  /** What one more component means in directory m. */
  function LookedUp(t: Nodes, m: nat, x: Name): Search
    requires IsDir(t, m)
  {
    if x !in t[m].entries then Missing(m)
    else
      var (i, ftype) := t[m].entries[x];
      if ftype == FT_DIRECTORY then Found(i, FT_DIRECTORY, m) else Found(i, FT_REGULAR, m)
  }

  lemma {:induction false} ResolveLast(t: Nodes, m: nat, par: nat, cs: seq<Name>, x: Name)
    requires Resolve(t, m, par, cs).Found? && Resolve(t, m, par, cs).ftype == FT_DIRECTORY && IsDir(t, Resolve(t, m, par, cs).i)
    ensures Resolve(t, m, par, cs + [x]) == LookedUp(t, Resolve(t, m, par, cs).i, x)
    decreases |cs|
  {
    if cs == [] {
      assert cs + [x] == [x] && [x][1..] == [];
    } else {
      assert (cs + [x])[1..] == cs[1..] + [x];
      ResolveLast(t, t[m].entries[cs[0]].0, m, cs[1..], x);
    }
  }

  /** A path that leads to a directory and its clean form lead to the same one. */
  lemma CleanSameDirectory(t: Nodes, rank: map<nat, nat>, path: seq<byte>)
    requires TreeOk(t, rank)
    requires var s := Resolve(t, 0, 0, Components(path)); s.Found? && s.ftype == FT_DIRECTORY
    ensures var s, s' := Resolve(t, 0, 0, Components(path)), Resolve(t, 0, 0, Components(Clean(path)));
            s'.Found? && s'.ftype == FT_DIRECTORY && s'.i == s.i
  {
    hide TreeOk, Components, Clean, PathTo, Walk;
    RootFacts(t, rank);
    CleanIsNormal(path);
    WalkFollows(t, rank, 0, 0, Components(path));
    var i := Resolve(t, 0, 0, Components(path)).i;
    DirHangs(t, rank, i);
    PathLeadsBack(t, rank, i);
  }

  lemma RootFacts(t: Nodes, rank: map<nat, nat>)
    requires TreeOk(t, rank)
    ensures IsDir(t, 0) && 0 in rank && PathTo(t, rank, 0) == []
  {
  }

  lemma DirHangs(t: Nodes, rank: map<nat, nat>, i: nat)
    requires TreeOk(t, rank) && IsDir(t, i)
    ensures Hangs(t, i)
  {
  }

  /**
   * A path whose last component is no dot, after one that leads to a directory: the path and its clean form find the
   * same inode of the same type in the same directory, or miss it in the same directory.
   */
  lemma CleanSameEntry(t: Nodes, rank: map<nat, nat>, path: seq<byte>, front: seq<Name>, x: Name)
    requires TreeOk(t, rank) && Components(path) == front + [x] && x != DOT && x != DOTDOT
    requires var s := Resolve(t, 0, 0, front); s.Found? && s.ftype == FT_DIRECTORY
    ensures Resolve(t, 0, 0, Components(Clean(path))) == Resolve(t, 0, 0, Components(path))
  {
    hide TreeOk, Components, Clean, PathTo, Resolve, LookedUp;
    RootFacts(t, rank);
    CleanIsNormal(path);
    WalkFollows(t, rank, 0, 0, front);
    var m := Resolve(t, 0, 0, front).i;
    DirHangs(t, rank, m);
    PathLeadsBack(t, rank, m);
    WalkName(front, x);
    ResolveLast(t, 0, 0, front, x);
    ResolveLast(t, 0, 0, PathTo(t, rank, m), x);
  }

  lemma WalkName(front: seq<Name>, x: Name)
    requires x != DOT && x != DOTDOT
    ensures Walk([], front + [x]) == Walk([], front) + [x]
  {
    WalkOn([], front, [x]);
    var st := Walk([], front);
    assert [x][1..] == [];
    assert Walk(st, [x]) == Walk(Paths.Step(st, x), []);
  }

  /**
   * What the shell makes of a path that does not start with a slash: taken from the path of the working directory m and
   * cleaned, it leads where following its components from m leads.
   */
  lemma RelativeSameDirectory(t: Nodes, rank: map<nat, nat>, m: nat, path: seq<byte>)
    requires TreeOk(t, rank) && IsDir(t, m) && m in rank && Hangs(t, m)
    requires var s := Resolve(t, m, ParentOf(t, m), Components(path)); s.Found? && s.ftype == FT_DIRECTORY
    ensures var s := Resolve(t, m, ParentOf(t, m), Components(path));
            var s' := Resolve(t, 0, 0, Components(Render(Walk(PathTo(t, rank, m), Components(path)))));
            s'.Found? && s'.ftype == FT_DIRECTORY && s'.i == s.i
  {
    hide TreeOk, Components, PathTo, Walk, Render;
    WalkFollows(t, rank, m, ParentOf(t, m), Components(path));
    var i := Resolve(t, m, ParentOf(t, m), Components(path)).i;
    DirHangs(t, rank, i);
    PathLeadsBack(t, rank, i);
    ComponentsOfRender(PathTo(t, rank, i));
  }
}
