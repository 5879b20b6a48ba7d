/**
 The file system seen from outside: a map from inode number to a file's bytes or a
 directory's entries, and what makes it a tree.
 */
module Tree {
  import opened Sectors
  import opened Directory
  import opened Paths

  type Listing = map<Name, (nat, nat)>

  datatype Node = FileNode(bytes: seq<byte>) | DirNode(entries: Listing)

  type Nodes = map<nat, Node>

  function TypeOf(node: Node): nat {
    if node.FileNode? then FT_REGULAR else FT_DIRECTORY
  }

  predicate IsDir(t: Nodes, m: nat) { m in t && t[m].DirNode? }

  /** Directory m holds inode i under the name nm; the dots do not count. */
  predicate Names(t: Nodes, m: nat, nm: Name, i: nat) {
    IsDir(t, m) && nm in t[m].entries && nm != DOT && nm != DOTDOT && t[m].entries[nm].0 == i
  }

  predicate Dots(t: Nodes, m: nat) {
    && IsDir(t, m) && DOT in t[m].entries && DOTDOT in t[m].entries
    && t[m].entries[DOT] == (m, FT_DIRECTORY) && t[m].entries[DOTDOT].1 == FT_DIRECTORY
  }

  function ParentOf(t: Nodes, m: nat): nat
    requires Dots(t, m)
  {
    t[m].entries[DOTDOT].0
  }

  /** Entries lead to inodes that exist, with the type they have. */
  ghost predicate Closed(t: Nodes) {
    forall m, nm, i :: Names(t, m, nm, i) ==> i in t && i != 0 && t[m].entries[nm].1 == TypeOf(t[i])
  }

  /** No inode is entered under two names. */
  ghost predicate NamedOnce(t: Nodes) {
    forall m, nm, m', nm', i :: Names(t, m, nm, i) && Names(t, m', nm', i) ==> m == m' && nm == nm'
  }

  /** The directory above m names m; the root is its own parent. */
  ghost predicate Hangs(t: Nodes, m: nat) {
    Dots(t, m) && if m == 0 then ParentOf(t, m) == 0 else exists nm :: Names(t, ParentOf(t, m), nm, m)
  }

  /** rank counts the levels above a directory. */
  ghost predicate Ranked(t: Nodes, rank: map<nat, nat>) {
    && (forall m :: IsDir(t, m) ==> m in rank)
    && (forall m, nm, i :: Names(t, m, nm, i) && IsDir(t, i) ==> m in rank && i in rank && rank[i] == rank[m] + 1)
  }

  ghost predicate TreeOk(t: Nodes, rank: map<nat, nat>) {
    && IsDir(t, 0) && 0 in rank && Closed(t) && NamedOnce(t) && Ranked(t, rank)
    && (forall m :: IsDir(t, m) ==> Hangs(t, m)) && Speakable(t)
  }

  /** Every name can stand in a path. */
  ghost predicate Speakable(t: Nodes) {
    forall m, nm, i :: Names(t, m, nm, i) ==> NameOk(nm)
  }

  /** 1 to 15 bytes, no NUL and no slash among them. */
  predicate NameOk(nm: Name) { 0 < |nm| < 16 && NoNul(nm) && NoSlash(nm) }

  // ---------------------------------------------------------------- the operations, seen from outside

  function WriteNode(t: Nodes, n: nat, buf: seq<byte>): Nodes
    requires n in t && t[n].FileNode?
  {
    t[n := FileNode(t[n].bytes + buf)]
  }

  /** A new node n, entered in directory m under nm. */
  function AddNode(t: Nodes, m: nat, nm: Name, n: nat, node: Node): Nodes
    requires IsDir(t, m)
  {
    t[n := node][m := DirNode(t[m].entries[nm := (n, TypeOf(node))])]
  }

  function RemoveNode(t: Nodes, m: nat, nm: Name, n: nat): Nodes
    requires IsDir(t, m)
  {
    t[m := DirNode(t[m].entries - {nm})] - {n}
  }

  function EmptyDir(self: nat, parent: nat): Node {
    DirNode(map[DOT := (self, FT_DIRECTORY), DOTDOT := (parent, FT_DIRECTORY)])
  }

  lemma WriteKeepsTree(t: Nodes, rank: map<nat, nat>, n: nat, buf: seq<byte>)
    requires TreeOk(t, rank) && n in t && t[n].FileNode?
    ensures TreeOk(WriteNode(t, n, buf), rank)
  {
    var t' := WriteNode(t, n, buf);
    assert forall m, nm, i :: Names(t', m, nm, i) == Names(t, m, nm, i);
    forall m | IsDir(t', m) ensures Hangs(t', m) {
      assert IsDir(t, m) && Hangs(t, m);
      if m != 0 {
        var nm :| Names(t, ParentOf(t, m), nm, m);
        assert Names(t', ParentOf(t', m), nm, m);
      }
    }
  }

  /** What may be added: a file, or a directory with nothing but its dots. */
  predicate Addable(node: Node, n: nat, m: nat) {
    node.FileNode? || node == EmptyDir(n, m)
  }

  lemma NamesAfterAdd(t: Nodes, m: nat, nm: Name, n: nat, node: Node)
    requires IsDir(t, m) && n !in t && Addable(node, n, m) && nm != DOT && nm != DOTDOT && nm !in t[m].entries
    ensures forall a, x, i :: Names(AddNode(t, m, nm, n, node), a, x, i) <==> Names(t, a, x, i) || (a == m && x == nm && i == n)
  {
  }

  lemma AddHangs(t: Nodes, m: nat, nm: Name, n: nat, node: Node, a: nat)
    requires IsDir(t, m) && n !in t && n != 0 && Addable(node, n, m) && nm != DOT && nm != DOTDOT && nm !in t[m].entries
    requires if a == n then node.DirNode? else IsDir(t, a) && Hangs(t, a)
    ensures Hangs(AddNode(t, m, nm, n, node), a)
  {
    var t' := AddNode(t, m, nm, n, node);
    NamesAfterAdd(t, m, nm, n, node);
    assert Dots(t', a);
    if a == n {
      assert ParentOf(t', n) == m && Names(t', m, nm, n);
    } else if a != 0 {
      var x :| Names(t, ParentOf(t, a), x, a);
      assert Names(t', ParentOf(t', a), x, a);
    }
  }

  lemma AddClosed(t: Nodes, m: nat, nm: Name, n: nat, node: Node)
    requires Closed(t) && IsDir(t, m) && n !in t && n != 0 && Addable(node, n, m)
    requires nm != DOT && nm != DOTDOT && nm !in t[m].entries
    ensures Closed(AddNode(t, m, nm, n, node))
  {
    var t' := AddNode(t, m, nm, n, node);
    NamesAfterAdd(t, m, nm, n, node);
    forall a, x, i | Names(t', a, x, i) ensures i in t' && i != 0 && t'[a].entries[x].1 == TypeOf(t'[i]) {
      if Names(t, a, x, i) { assert i in t && t[a].entries[x].1 == TypeOf(t[i]); }
    }
  }

  lemma AddNamedOnce(t: Nodes, m: nat, nm: Name, n: nat, node: Node)
    requires Closed(t) && NamedOnce(t) && IsDir(t, m) && n !in t && Addable(node, n, m)
    requires nm != DOT && nm != DOTDOT && nm !in t[m].entries
    ensures NamedOnce(AddNode(t, m, nm, n, node))
  {
    NamesAfterAdd(t, m, nm, n, node);
    assert forall a, x :: !Names(t, a, x, n);
  }

  /** Creating a file or a directory keeps the tree a tree. */
  lemma AddKeepsTree(t: Nodes, rank: map<nat, nat>, m: nat, nm: Name, n: nat, node: Node)
    requires TreeOk(t, rank) && IsDir(t, m) && n !in t && Addable(node, n, m)
    requires nm != DOT && nm != DOTDOT && nm !in t[m].entries && NameOk(nm)
    ensures m in rank && TreeOk(AddNode(t, m, nm, n, node), rank[n := rank[m] + 1])
  {
    var t', rank' := AddNode(t, m, nm, n, node), rank[n := rank[m] + 1];
    AddClosed(t, m, nm, n, node);
    AddNamedOnce(t, m, nm, n, node);
    NamesAfterAdd(t, m, nm, n, node);
    forall a | IsDir(t', a) ensures Hangs(t', a) {
      assert a != n ==> IsDir(t, a) && Hangs(t, a);
      AddHangs(t, m, nm, n, node, a);
    }
  }

  lemma NamesAfterRemove(t: Nodes, m: nat, nm: Name, n: nat)
    requires Names(t, m, nm, n) && m != n
    requires n in t && (t[n].DirNode? ==> t[n].entries.Keys == {DOT, DOTDOT})
    ensures forall a, x, i :: Names(RemoveNode(t, m, nm, n), a, x, i) <==> Names(t, a, x, i) && !(a == m && x == nm)
  {
  }

  /** Removing a file, or a directory with nothing but its dots, keeps the tree a tree. */
  lemma RemoveKeepsTree(t: Nodes, rank: map<nat, nat>, m: nat, nm: Name, n: nat)
    requires TreeOk(t, rank) && Names(t, m, nm, n) && n in t
    requires t[n].DirNode? ==> t[n].entries.Keys == {DOT, DOTDOT}
    ensures TreeOk(RemoveNode(t, m, nm, n), rank)
  {
    var t' := RemoveNode(t, m, nm, n);
    assert m != n by { if IsDir(t, n) { assert rank[n] == rank[m] + 1; } }
    NamesAfterRemove(t, m, nm, n);
    assert Closed(t') by {
      forall a, x, i | Names(t', a, x, i) ensures i in t' && i != 0 && t'[a].entries[x].1 == TypeOf(t'[i]) {
        assert Names(t, a, x, i) && i in t && t[a].entries[x].1 == TypeOf(t[i]);
        assert i != n;
      }
    }
    forall a | IsDir(t', a) ensures Hangs(t', a) {
      assert IsDir(t, a) && Hangs(t, a) && Dots(t', a);
      if a != 0 {
        var x :| Names(t, ParentOf(t, a), x, a);
        assert Names(t', ParentOf(t', a), x, a);
      }
    }
  }
}
