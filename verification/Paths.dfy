/**
 Path strings: splitting them into components, and turning an absolute path with "." and ".."
 in it into a plain one, in place in a character buffer.

 Paths are byte strings without the terminating NUL; buffers are arrays with it.
 */
module Paths {
  import opened Basics
  import opened Sectors
  import opened Directory

  const SLASH: byte := 47

  // ---------------------------------------------------------------- components

  predicate NoSlash(s: seq<byte>) { forall i :: 0 <= i < |s| ==> s[i] != SLASH }

  function SkipSlashes(s: seq<byte>): (r: seq<byte>)
    ensures |r| <= |s| && (r == [] || r[0] != SLASH) && (s != [] && s[0] == SLASH ==> |r| < |s|)
  {
    if s != [] && s[0] == SLASH then SkipSlashes(s[1..]) else s
  }

  function TakeName(s: seq<byte>): (r: Name)
    ensures |r| <= |s| && NoSlash(r)
  {
    if s == [] || s[0] == SLASH then [] else [s[0]] + TakeName(s[1..])
  }

  function AfterName(s: seq<byte>): (r: seq<byte>)
    ensures |r| + |TakeName(s)| == |s| && (r == [] || r[0] == SLASH)
  {
    if s == [] || s[0] == SLASH then s else AfterName(s[1..])
  }

  lemma {:induction false} NameSplits(s: seq<byte>)
    ensures s == TakeName(s) + AfterName(s)
  {
    if s != [] && s[0] != SLASH {
      NameSplits(s[1..]);
      assert s == [s[0]] + s[1..];
    }
  }

  /** The components of a path, whatever the number of slashes between them. */
  function Components(s: seq<byte>): seq<Name>
    decreases |s|
  {
    var t := SkipSlashes(s);
    if t == [] then [] else [TakeName(t)] + Components(AfterName(t))
  }

  predicate IsComponent(c: Name) { c != [] && NoSlash(c) }

  lemma {:induction false} ComponentsAreNames(s: seq<byte>)
    ensures forall i :: 0 <= i < |Components(s)| ==> IsComponent(Components(s)[i])
    decreases |s|
  {
    var t := SkipSlashes(s);
    if t != [] { ComponentsAreNames(AfterName(t)); }
  }

  // ---------------------------------------------------------------- path_parse

  /** Splits off the first name; the rest is None when nothing follows it. */
  method PathParse(pathname: seq<byte>) returns (rest: Option<seq<byte>>, name: Name)
    ensures name == TakeName(SkipSlashes(pathname))
    ensures rest == if AfterName(SkipSlashes(pathname)) == [] then None else Some(AfterName(SkipSlashes(pathname)))
  {
    var p := PastSlashes(pathname);
    ghost var t := SkipSlashes(pathname);
    name := [];
    while p < |pathname| && pathname[p] != SLASH
      invariant p <= |pathname|
      invariant name + TakeName(pathname[p..]) == TakeName(t) && AfterName(pathname[p..]) == AfterName(t)
    {
      assert pathname[p..][1..] == pathname[p + 1..];
      name := name + [pathname[p]];
      p := p + 1;
    }
    if p == |pathname| { rest := None; } else { rest := Some(pathname[p..]); }
  }

  /** The loop over the slashes in front. */
  method PastSlashes(pathname: seq<byte>) returns (p: nat)
    ensures p <= |pathname| && pathname[p..] == SkipSlashes(pathname)
  {
    p := 0;
    if pathname != [] && pathname[0] == SLASH {
      p := 1;
      while p < |pathname| && pathname[p] == SLASH
        invariant 1 <= p <= |pathname| && SkipSlashes(pathname) == SkipSlashes(pathname[p..])
      {
        assert pathname[p..][1..] == pathname[p + 1..];
        p := p + 1;
      }
    }
  }

  // ---------------------------------------------------------------- the meaning of "." and ".."

  function Step(stack: seq<Name>, c: Name): seq<Name> {
    if c == DOT then stack
    else if c == DOTDOT then (if stack == [] then [] else stack[..|stack| - 1])
    else stack + [c]
  }

  function Walk(stack: seq<Name>, cs: seq<Name>): seq<Name>
    decreases |cs|
  {
    if cs == [] then stack else Walk(Step(stack, cs[0]), cs[1..])
  }

  function Join(stack: seq<Name>): seq<byte> {
    if stack == [] then [] else Join(stack[..|stack| - 1]) + [SLASH] + stack[|stack| - 1]
  }

  function Render(stack: seq<Name>): seq<byte> {
    if stack == [] then [SLASH] else Join(stack)
  }

  /** A stack of real names: no empty one, no slash inside, no dots. */
  predicate Plain(stack: seq<Name>) {
    forall i :: 0 <= i < |stack| ==> IsComponent(stack[i]) && stack[i] != DOT && stack[i] != DOTDOT
  }

  lemma StepPlain(stack: seq<Name>, c: Name)
    requires Plain(stack) && IsComponent(c)
    ensures Plain(Step(stack, c))
  {
  }

  lemma {:induction false} WalkPlain(stack: seq<Name>, cs: seq<Name>)
    requires Plain(stack) && forall i :: 0 <= i < |cs| ==> IsComponent(cs[i])
    ensures Plain(Walk(stack, cs))
    decreases |cs|
  {
    if cs != [] {
      StepPlain(stack, cs[0]);
      WalkPlain(Step(stack, cs[0]), cs[1..]);
    }
  }

  lemma {:induction false} WalkOfPlain(stack: seq<Name>, cs: seq<Name>)
    requires Plain(cs)
    ensures Walk(stack, cs) == stack + cs
    decreases |cs|
  {
    if cs != [] {
      WalkOfPlain(stack + [cs[0]], cs[1..]);
      assert stack + [cs[0]] + cs[1..] == stack + cs;
    }
  }

  // ---------------------------------------------------------------- components of a composed path

  lemma {:induction false} SkipOfConcat(s: seq<byte>, x: seq<byte>)
    ensures SkipSlashes(s + x) == if SkipSlashes(s) == [] then SkipSlashes(x) else SkipSlashes(s) + x
  {
    if s == [] {
      assert s + x == x;
    } else if s[0] == SLASH {
      assert (s + x)[1..] == s[1..] + x;
      SkipOfConcat(s[1..], x);
    }
  }

  lemma {:induction false} NameOfConcat(t: seq<byte>, x: seq<byte>)
    requires x == [] || x[0] == SLASH
    ensures TakeName(t + x) == TakeName(t) && AfterName(t + x) == AfterName(t) + x
  {
    if t == [] {
      assert t + x == x;
    } else if t[0] == SLASH {
      assert (t + x)[0] == SLASH;
    } else {
      assert (t + x)[1..] == t[1..] + x;
      NameOfConcat(t[1..], x);
    }
  }

  lemma ComponentsAfterSlash(u: seq<byte>)
    ensures Components([SLASH] + u) == Components(u)
  {
    assert ([SLASH] + u)[1..] == u;
  }

  lemma RestIsShorter(s: seq<byte>)
    requires SkipSlashes(s) != []
    ensures |AfterName(SkipSlashes(s))| < |s|
  {
  }

  /** Two paths glued with a slash have the components of both. */
  lemma {:induction false} ComponentsOfConcat(s: seq<byte>, u: seq<byte>)
    ensures Components(s + [SLASH] + u) == Components(s) + Components(u)
    decreases |s|
  {
    hide SkipSlashes, TakeName, AfterName;
    var x := [SLASH] + u;
    assert s + [SLASH] + u == s + x;
    SkipOfConcat(s, x);
    ComponentsAfterSlash(u);
    var t := SkipSlashes(s);
    if t == [] {
      assert SkipSlashes(s + x) == SkipSlashes(x);
    } else {
      NameOfConcat(t, x);
      RestIsShorter(s);
      ComponentsOfConcat(AfterName(t), u);
      assert AfterName(t) + x == AfterName(t) + [SLASH] + u;
    }
  }

  lemma {:induction false} NameAlone(c: Name)
    requires NoSlash(c)
    ensures TakeName(c) == c && AfterName(c) == []
  {
    if c != [] {
      NameAlone(c[1..]);
    }
  }

  lemma OneComponent(c: Name)
    requires IsComponent(c)
    ensures Components(c) == [c]
  {
    NameAlone(c);
  }

  lemma {:induction false} ComponentsOfJoin(stack: seq<Name>)
    requires forall i :: 0 <= i < |stack| ==> IsComponent(stack[i])
    ensures Components(Join(stack)) == stack
  {
    if stack != [] {
      var front, c := stack[..|stack| - 1], stack[|stack| - 1];
      ComponentsOfJoin(front);
      ComponentsOfConcat(Join(front), c);
      OneComponent(c);
    }
  }

  /** path_parse splits a rendered path back into its stack. */
  lemma ComponentsOfRender(stack: seq<Name>)
    requires forall i :: 0 <= i < |stack| ==> IsComponent(stack[i])
    ensures Components(Render(stack)) == stack
  {
    ComponentsOfJoin(stack);
    if stack == [] { ComponentsAfterSlash([]); assert [SLASH] + [] == [SLASH]; }
  }

  /** The clean form of an absolute path. */
  function Clean(path: seq<byte>): seq<byte> {
    Render(Walk([], Components(path)))
  }

  /** A clean path has no "." or ".." left, keeps its components, and cleaning it again changes nothing. */
  lemma CleanIsNormal(path: seq<byte>)
    ensures Plain(Components(Clean(path))) && Components(Clean(path)) == Walk([], Components(path))
    ensures Clean(Clean(path)) == Clean(path)
  {
    ComponentsAreNames(path);
    WalkPlain([], Components(path));
    var stack := Walk([], Components(path));
    ComponentsOfRender(stack);
    WalkOfPlain([], stack);
    assert [] + stack == stack;
  }

  // ---------------------------------------------------------------- character buffers

  /** buf holds str and its NUL. */
  ghost predicate Holds(buf: array<byte>, str: seq<byte>)
    reads buf
  {
    |str| < buf.Length && (forall i :: 0 <= i < |str| ==> buf[i] == str[i]) && buf[|str|] == 0 && NoNul(str)
  }

  method StrLen(buf: array<byte>, ghost str: seq<byte>) returns (n: nat)
    requires Holds(buf, str)
    ensures n == |str|
  {
    n := 0;
    while buf[n] != 0
      invariant n <= |str|
      decreases |str| - n
    {
      n := n + 1;
    }
  }

  method StrCat(buf: array<byte>, ghost str: seq<byte>, src: seq<byte>)
    requires Holds(buf, str) && NoNul(src) && |str| + |src| < buf.Length
    modifies buf
    ensures Holds(buf, str + src)
  {
    var n := StrLen(buf, str);
    var i := 0;
    while i < |src|
      invariant i <= |src|
      invariant forall j :: 0 <= j < n ==> buf[j] == str[j]
      invariant forall j :: 0 <= j < i ==> buf[n + j] == src[j]
    {
      buf[n + i] := src[i];
      i := i + 1;
    }
    buf[n + |src|] := 0;
    assert forall j :: n <= j < n + |src| ==> buf[j] == src[j - n];
  }

  /** strrchr: the last occurrence of a slash. */
  method LastSlash(buf: array<byte>, ghost str: seq<byte>) returns (k: int)
    requires Holds(buf, str)
    ensures -1 <= k < |str| && (k >= 0 ==> str[k] == SLASH) && forall j :: k < j < |str| ==> str[j] != SLASH
  {
    k := -1;
    var n := 0;
    while buf[n] != 0
      invariant n <= |str| && -1 <= k < n
      invariant k >= 0 ==> str[k] == SLASH
      invariant forall j :: k < j < n ==> str[j] != SLASH
      decreases |str| - n
    {
      if buf[n] == SLASH { k := n; }
      n := n + 1;
    }
  }

  method IsRootString(buf: array<byte>, ghost str: seq<byte>) returns (b: bool)
    requires Holds(buf, str)
    ensures b <==> str == [SLASH]
  {
    b := buf[0] == SLASH && buf[1] == 0;
    assert b ==> |str| == 1;
  }

  // ---------------------------------------------------------------- wash_path

  function LenOf(rest: Option<seq<byte>>): nat {
    match rest case None => 0 case Some(r) => |r|
  }

  /** The components still to come: the name just parsed and those of the rest. */
  function Pending(name: Name, rest: Option<seq<byte>>): seq<Name> {
    if name == [] then [] else [name] + (match rest case None => [] case Some(r) => Components(r))
  }

  /** One call of path_parse yields the next pending components. */
  lemma Parsed(path: seq<byte>, rest: Option<seq<byte>>, name: Name)
    requires name == TakeName(SkipSlashes(path))
    requires rest == if AfterName(SkipSlashes(path)) == [] then None else Some(AfterName(SkipSlashes(path)))
    ensures Pending(name, rest) == Components(path)
    ensures path != [] && path[0] == SLASH && name != [] ==> 1 + |name| + LenOf(rest) <= |path|
    ensures rest.Some? ==> rest.value != [] && rest.value[0] == SLASH
    ensures NoSlash(name)
  {
    var t := SkipSlashes(path);
    if t != [] {
      assert TakeName(t) == [t[0]] + TakeName(t[1..]);
      if rest.None? { assert Components([]) == []; }
    }
  }

  lemma LastSlashOfJoin(stack: seq<Name>)
    requires stack != [] && Plain(stack)
    ensures var k := |Join(stack[..|stack| - 1])|;
            && k < |Join(stack)| && Join(stack)[k] == SLASH && Join(stack)[..k] == Join(stack[..|stack| - 1])
            && forall j :: k < j < |Join(stack)| ==> Join(stack)[j] != SLASH
  {
    var front, c := stack[..|stack| - 1], stack[|stack| - 1];
    assert IsComponent(c);
    var s := Join(front) + [SLASH] + c;
    assert forall j :: |Join(front)| < j < |s| ==> s[j] == c[j - |Join(front)| - 1];
  }

  /** ".." in place: cut the string at its last slash, but keep the slash when it is the only one. */
  method Ascend(buf: array<byte>, ghost stack: seq<Name>)
    requires Plain(stack) && Holds(buf, Render(stack))
    modifies buf
    ensures Holds(buf, Render(Step(stack, DOTDOT)))
  {
    var k := LastSlash(buf, Render(stack));
    if stack == [] {
      assert Render(stack)[0] == SLASH;
    } else {
      LastSlashOfJoin(stack);
      ghost var front := stack[..|stack| - 1];
      assert k == |Join(front)|;
      JoinNonEmpty(front);
      assert forall i :: 0 <= i < k ==> Join(stack)[i] == Join(front)[i] by {
        assert forall i :: 0 <= i < k ==> Join(stack)[..k][i] == Join(stack)[i];
      }
    }
    if k != 0 {
      buf[k] := 0;
    } else {
      buf[k + 1] := 0;
    }
  }

  lemma JoinNonEmpty(stack: seq<Name>)
    ensures Join(stack) == [] <==> stack == []
  {
  }

  /** A name in place: a slash unless the string is just "/", then the name. */
  method Descend(buf: array<byte>, ghost stack: seq<Name>, name: Name)
    requires Plain(stack) && Holds(buf, Render(stack)) && name != DOT && name != DOTDOT && NoNul(name)
    requires |Join(stack)| + 1 + |name| < buf.Length
    modifies buf
    ensures Holds(buf, Render(Step(stack, name)))
  {
    ghost var str := Render(stack);
    RenderIsRoot(stack);
    var root := IsRootString(buf, str);
    if !root {
      StrCat(buf, str, [SLASH]);
      str := str + [SLASH];
    }
    StrCat(buf, str, name);
    ghost var after := stack + [name];
    assert after[..|after| - 1] == stack;
  }

  lemma RenderIsRoot(stack: seq<Name>)
    requires Plain(stack)
    ensures Render(stack) == [SLASH] <==> stack == []
  {
    if stack != [] {
      assert IsComponent(stack[|stack| - 1]);
      assert |Join(stack)| == |Join(stack[..|stack| - 1])| + 1 + |stack[|stack| - 1]|;
    }
  }

  lemma {:induction false} SkipIsSuffix(s: seq<byte>)
    ensures SkipSlashes(s) == s[|s| - |SkipSlashes(s)|..]
  {
    if s != [] && s[0] == SLASH { SkipIsSuffix(s[1..]); }
  }

  lemma PartsNoNul(path: seq<byte>)
    requires NoNul(path)
    ensures NoNul(TakeName(SkipSlashes(path))) && NoNul(AfterName(SkipSlashes(path)))
  {
    var t := SkipSlashes(path);
    SkipIsSuffix(path);
    NameSplits(t);
    assert NoNul(t);
    var a, b := TakeName(t), AfterName(t);
    forall i | 0 <= i < |a| ensures a[i] != 0 { assert a[i] == t[i]; }
    forall i | 0 <= i < |b| ensures b[i] != 0 { assert b[i] == t[|a| + i]; }
  }

  /** The loop of wash_path: what is washed, what is parsed, what is left. */
  ghost predicate Washing(old_: seq<byte>, stack: seq<Name>, name: Name, rest: Option<seq<byte>>) {
    && Plain(stack)
    && Walk(stack, Pending(name, rest)) == Walk([], Components(old_))
    && (name != [] ==> |Join(stack)| + 1 + |name| + LenOf(rest) <= |old_|)
    && NoSlash(name) && NoNul(name)
    && (rest.Some? ==> NoNul(rest.value) && rest.value != [] && rest.value[0] == SLASH)
  }

  lemma WashStep(old_: seq<byte>, stack: seq<Name>, name: Name, rest: Option<seq<byte>>, name': Name, rest': Option<seq<byte>>)
    requires Washing(old_, stack, name, rest) && name != []
    requires rest.None? ==> name' == [] && rest' == None
    requires rest.Some? ==> name' == TakeName(SkipSlashes(rest.value))
    requires rest.Some? ==> rest' == if AfterName(SkipSlashes(rest.value)) == [] then None else Some(AfterName(SkipSlashes(rest.value)))
    ensures Washing(old_, Step(stack, name), name', rest')
    ensures name' != [] ==> LenOf(rest') < LenOf(rest)
  {
    StepPlain(stack, name);
    var cs := Pending(name, rest);
    assert cs[0] == name;
    StepLength(stack, name);
    match rest
    case None =>
      assert cs[1..] == [];
    case Some(r) =>
      Parsed(r, rest', name');
      PartsNoNul(r);
      assert cs[1..] == Components(r);
  }

  lemma StepLength(stack: seq<Name>, c: Name)
    ensures |Join(Step(stack, c))| <= |Join(stack)| + 1 + |c|
  {
    if c == DOT {
    } else if c == DOTDOT {
    } else {
      var after := stack + [c];
      assert after[..|after| - 1] == stack;
    }
  }

  /**
   wash_path writes the clean form of an absolute path into buf. Components are shorter than
   the 16 bytes of its name buffer, and buf has room for the path it is given.
   */
  method WashPath(oldPath: seq<byte>, buf: array<byte>)
    requires oldPath != [] && oldPath[0] == SLASH && NoNul(oldPath) && |oldPath| < buf.Length
    requires forall i :: 0 <= i < |Components(oldPath)| ==> |Components(oldPath)[i]| < 16
    modifies buf
    ensures Holds(buf, Clean(oldPath))
  {
    hide Components, Walk, Join, SkipSlashes, TakeName, AfterName, Plain;
    var rest, name := PathParse(oldPath);
    FirstParse(oldPath, rest, name);
    if name == [] {
      buf[0] := SLASH;
      buf[1] := 0;
      RootClean(oldPath);
      return;
    }
    buf[0] := 0;
    StrCat(buf, [], [SLASH]);
    ghost var stack: seq<Name> := [];
    assert [] + [SLASH] == Render(stack);
    while name != []
      invariant Washing(oldPath, stack, name, rest) && Holds(buf, Render(stack))
      decreases if name == [] then 0 else 1 + LenOf(rest)
    {
      ghost var name0, rest0 := name, rest;
      if name == DOTDOT {
        Ascend(buf, stack);
      } else if name != DOT {
        Descend(buf, stack, name);
      }
      name := [];
      if rest.Some? {
        rest, name := PathParse(rest.value);
      }
      WashStep(oldPath, stack, name0, rest0, name, rest);
      stack := Step(stack, name0);
    }
    WalkDone(stack);
  }

  lemma WalkDone(stack: seq<Name>)
    ensures Walk(stack, []) == stack
  {
  }

  lemma RootClean(path: seq<byte>)
    requires Components(path) == []
    ensures Clean(path) == [SLASH]
  {
  }

  lemma FirstParse(path: seq<byte>, rest: Option<seq<byte>>, name: Name)
    requires path != [] && path[0] == SLASH && NoNul(path)
    requires name == TakeName(SkipSlashes(path))
    requires rest == if AfterName(SkipSlashes(path)) == [] then None else Some(AfterName(SkipSlashes(path)))
    ensures name == [] ==> Components(path) == []
    ensures Washing(path, [], name, rest)
  {
    Parsed(path, rest, name);
    PartsNoNul(path);
  }

  // ---------------------------------------------------------------- make_clear_abs_path

  lemma {:induction false} WalkOn(stack: seq<Name>, cs: seq<Name>, ds: seq<Name>)
    ensures Walk(stack, cs + ds) == Walk(Walk(stack, cs), ds)
    decreases |cs|
  {
    if cs == [] {
      assert cs + ds == ds;
    } else {
      assert (cs + ds)[1..] == cs[1..] + ds;
      WalkOn(Step(stack, cs[0]), cs[1..], ds);
    }
  }

  /** The path made absolute: as it is, or behind the working directory. */
  function Absolute(cwd: seq<Name>, path: seq<byte>): seq<byte> {
    if path != [] && path[0] == SLASH then path
    else if cwd == [] then Render(cwd) + path
    else Render(cwd) + [SLASH] + path
  }

  /** Cleaning a relative path continues the walk from the working directory. */
  lemma AbsoluteMeans(cwd: seq<Name>, path: seq<byte>)
    requires Plain(cwd)
    ensures Absolute(cwd, path) != [] && Absolute(cwd, path)[0] == SLASH
    ensures Components(Absolute(cwd, path)) == (if path != [] && path[0] == SLASH then [] else cwd) + Components(path)
    ensures Clean(Absolute(cwd, path))
         == Render(Walk(if path != [] && path[0] == SLASH then [] else cwd, Components(path)))
  {
    var start := if path != [] && path[0] == SLASH then [] else cwd;
    if path != [] && path[0] == SLASH {
    } else if cwd == [] {
      ComponentsAfterSlash(path);
    } else {
      ComponentsOfRender(cwd);
      ComponentsOfConcat(Render(cwd), path);
      JoinStartsWithSlash(cwd);
    }
    WalkOn([], start, Components(path));
    WalkOfPlain([], start);
    assert [] + start == start && start + Components(path) == Components(Absolute(cwd, path));
  }

  lemma {:induction false} JoinStartsWithSlash(stack: seq<Name>)
    requires stack != []
    ensures Join(stack) != [] && Join(stack)[0] == SLASH
  {
    if |stack| > 1 { JoinStartsWithSlash(stack[..|stack| - 1]); }
  }

  predicate ShortNames(cs: seq<Name>) { forall i :: 0 <= i < |cs| ==> |cs[i]| < 16 }

  method MakeClearAbsPath(path: seq<byte>, cwdPath: seq<byte>, ghost cwd: seq<Name>, finalPath: array<byte>)
    requires Plain(cwd) && cwdPath == Render(cwd) && NoNul(cwdPath) && NoNul(path)
    requires ShortNames(cwd) && ShortNames(Components(path))
    requires |Absolute(cwd, path)| < 512 <= finalPath.Length
    modifies finalPath
    ensures Holds(finalPath, Render(Walk(if path != [] && path[0] == SLASH then [] else cwd, Components(path))))
  {
    hide Components, Walk, Join;
    var absPath := [];
    RenderIsRoot(cwd);
    if path == [] || path[0] != SLASH {
      absPath := cwdPath;
      if !(absPath == [SLASH]) {
        absPath := absPath + [SLASH];
      }
    }
    absPath := absPath + path;
    AbsoluteMeans(cwd, path);
    assert absPath == Absolute(cwd, path);
    WashPath(absPath, finalPath);
  }
}
