/** kernel/fs/vfs.cpp: paths built and cut in place in character buffers, the mount table,
    and the walk from a mount point down to a node. */
module Vfs {
  import opened Common
  import opened VfsPath

  const MAX_PATH: nat := 512

  /** The buffer holds `s` as a terminated string. */
  ghost predicate Holds(a: array<char>, s: string): (r: bool)
    reads a
    ensures r ==> |s| < a.Length
  {
    |s| < a.Length && a[..|s|] == s && a[|s|] == '\0' && '\0' !in s
  }

  /** `length`. */
  method Length(a: array<char>, ghost s: string) returns (n: nat)
    requires Holds(a, s)
    ensures n == |s|
  {
    n := 0;
    while a[n] != '\0'
      invariant n <= |s|
      decreases |s| - n
    {
      n := n + 1;
    }
  }

  /** The characters of `source`, and the end, put at `used`. */
  method Write(a: array<char>, used: nat, source: string)
    requires used + |source| < a.Length
    modifies a
    ensures a[..used + |source|] == old(a[..used]) + source && a[used + |source|] == '\0'
  {
    var i := 0;
    while i < |source|
      invariant i <= |source| && a[..used + i] == old(a[..used]) + source[..i]
    {
      a[used + i] := source[i];
      i := i + 1;
    }
    a[used + |source|] := '\0';
    assert source[..|source|] == source;
  }

  /** `copy`. */
  method Copy(a: array<char>, source: string) returns (ok: bool)
    requires '\0' !in source
    modifies a
    ensures ok <==> |source| < a.Length
    ensures ok ==> Holds(a, source)
  {
    if a.Length == 0 { return false; }
    a[0] := '\0';
    if |source| + 1 > a.Length { return false; }
    Write(a, 0, source);
    return true;
  }

  /** `append`. */
  method Append(a: array<char>, ghost s: string, source: string) returns (ok: bool)
    requires Holds(a, s) && '\0' !in source
    modifies a
    ensures ok <==> |s| + |source| < a.Length
    ensures Holds(a, if ok then s + source else s)
  {
    var used := Length(a, s);
    if used + |source| + 1 > a.Length { return false; }
    Write(a, used, source);
    return true;
  }

  /** `remove_last_component`: one component less. */
  method RemoveLast(a: array<char>, ghost s: Stack)
    requires AllPlain(s) && Holds(a, Render(s))
    modifies a
    ensures Holds(a, Render(Parent(s)))
  {
    hide AllPlain, Render;
    ghost var r, up := Render(s), Parent(s);
    RenderUp(s);
    var length := Length(a, r);
    while length > 1 && a[length - 1] != '/'
      invariant |Render(up)| <= length <= |r|
      invariant length == |Render(up)| ==> length == 1
    {
      assert a[length - 1] == r[length - 1];
      length := length - 1;
    }
    assert a[length - 1] == r[length - 1];
    if length > 1 { length := length - 1; }
    a[length] := '\0';
    assert a[..length] == r[..length];
  }

  /** Going up cuts the path at its last separator, which is the only one past that point. */
  lemma RenderUp(s: Stack)
    requires AllPlain(s)
    ensures var r, u := Render(s), Render(Parent(s));
            && 1 <= |u| <= |r| && r[..|u|] == u
            && (s == [] ==> r == u == "/")
            && (|u| > 1 ==> |u| < |r| && r[|u|] == '/')
            && (forall i :: |u| < i < |r| ==> r[i] != '/')
            && (s != [] && |u| == 1 ==> |r| > 1 && (forall i :: 1 <= i < |r| ==> r[i] != '/'))
  {
    if s != [] {
      var most, c := s[..|s| - 1], s[|s| - 1];
      assert s == most + [c] && Plain(c) && Parent(s) == most;
      JoinLast(most, c);
      if most != [] { assert Plain(most[0]) && |Join(most)| > 1; }
      var r, u := Render(s), Render(most);
      hide Join, Render, AllPlain, Parent;
      assert r == Join(most) + "/" + c;
      LastPart(Join(most), c, r);
    }
  }

  lemma LastPart(a: string, c: string, r: string)
    requires r == a + "/" + c && '/' !in c
    ensures |r| == |a| + 1 + |c| && r[..|a|] == a && r[|a|] == '/' && forall i :: |a| < i < |r| ==> r[i] != '/'
  {
    forall i | |a| < i < |r| ensures r[i] != '/' { assert r[i] == c[i - |a| - 1]; }
  }

  /** `append_component`: one component more, when it fits. */
  method AppendComponent(a: array<char>, ghost s: Stack, component: string) returns (ok: bool)
    requires Holds(a, Render(s)) && '\0' !in component && AllPlain(s)
    modifies a
    ensures ok <==> |Render(s + [component])| < a.Length
    ensures ok ==> Holds(a, Render(s + [component]))
  {
    hide Render, AllPlain;
    RenderMore(s, component);
    var length := Length(a, Render(s));
    var atRoot := length == 1;
    ghost var r := Render(s);
    if !atRoot {
      var room := Append(a, r, "/");
      if !room { return false; }
      r := r + "/";
    }
    ok := Append(a, r, component);
  }

  lemma RenderMore(s: Stack, c: string)
    requires AllPlain(s)
    ensures Render(s + [c]) == (if |Render(s)| == 1 then Render(s) + c else Render(s) + "/" + c)
  {
    JoinLast(s, c);
    if s != [] { assert Plain(s[0]); }
  }

  /** A base the system hands out: none, empty, or a normal path. */
  predicate NormalBase(base: Option<string>) {
    base.Some? && base.value != "" ==>
      '\0' !in base.value && AllLegal(Components(base.value)) && base.value == Render(Components(base.value))
  }

  /** `normalize`: succeeds exactly when every step fits, and then leaves the normal path of
      what the path means. */
  method Normalize(path: string, base: Option<string>, buffer: array<char>) returns (ok: bool)
    requires '\0' !in path && NormalBase(base)
    modifies buffer
    ensures ok <==>
            |Render(Start(path, base))| < buffer.Length && AllFit(Start(path, base), Components(path), buffer.Length)
    ensures ok ==> Holds(buffer, Render(Meaning(path, base))) && AllLegal(Meaning(path, base))
  {
    hide *;
    ghost var s := Start(path, base);
    StartParts(path, base);
    if buffer.Length == 0 { return false; }
    if (path != "" && path[0] == '/') || base.None? || base.value == "" {
      ok := Copy(buffer, "/");
    } else {
      ok := Copy(buffer, base.value);
    }
    if !ok { return; }
    var cursor := 0;
    assert path[cursor..] == path;
    ComponentsClean(path);
    MeaningIs(path, base);
    while true
      invariant cursor <= |path| && AllLegal(s) && Holds(buffer, Render(s))
      invariant CleanStack(Components(path[cursor..]))
      invariant Resolve(s, Components(path[cursor..])) == Meaning(path, base)
      invariant AllFit(s, Components(path[cursor..]), buffer.Length) <==>
                AllFit(Start(path, base), Components(path), buffer.Length)
      decreases |path| - cursor
    {
      ghost var cs := Components(path[cursor..]);
      ResolveStep(s, cs, buffer.Length);
      var fits, start, end := NextComponent(path, cursor);
      if !fits { return false; }
      if start == end { return true; }
      var component := path[start..end];
      assert cs[0] == component && cs[1..] == Components(path[end..]);
      CleanParts(cs);
      EnterStep(s, component, buffer.Length);
      cursor := end;
      if component == "." { continue; }
      if component == ".." {
        RemoveLast(buffer, s);
      } else {
        var added := AppendComponent(buffer, s, component);
        if !added { return false; }
      }
      s := Enter(s, component);
    }
  }

  /** The next component from `cursor` on; `start == end` at the end of the path, and not ok
      when the component is too long. */
  method NextComponent(path: string, cursor: nat) returns (ok: bool, start: nat, end: nat)
    requires cursor <= |path|
    ensures cursor <= start <= end <= |path|
    ensures !ok ==> var cs := Components(path[cursor..]); cs != [] && |cs[0]| > MAX_NAME
    ensures ok && start == end ==> Components(path[cursor..]) == []
    ensures ok && start < end ==>
            end - start <= MAX_NAME && Components(path[cursor..]) == [path[start..end]] + Components(path[end..])
  {
    hide Components;
    start := cursor;
    while start < |path| && path[start] == '/'
      invariant cursor <= start <= |path| && Components(path[start..]) == Components(path[cursor..])
    {
      assert path[start..][1..] == path[start + 1..];
      SlashFirst(path[start..]);
      start := start + 1;
    }
    ghost var p := path[start..];
    end := start;
    if start == |path| {
      NoneLeft();
      return true, start, start;
    }
    while end < |path| && path[end] != '/'
      invariant start <= end <= |path| && '/' !in p[..end - start] && end - start <= MAX_NAME
    {
      assert p[end - start] == path[end];
      if end - start + 1 > MAX_NAME {
        LongHead(p, end - start + 1);
        return false, start, end;
      }
      end := end + 1;
    }
    assert p == p[..end - start] + p[end - start..];
    assert p[end - start..] == path[end..] && p[..end - start] == path[start..end];
    assert end < |path| ==> p[end - start] == path[end];
    HeadPlain(p[..end - start], p[end - start..]);
    FirstOf(p);
    ok := true;
  }

  lemma SlashFirst(p: string)
    requires p != "" && p[0] == '/'
    ensures Components(p) == Components(p[1..])
  {
  }

  lemma NoneLeft()
    ensures Components("") == []
  {
  }

  lemma FirstOf(p: string)
    requires p != "" && p[0] != '/'
    ensures Components(p) == [p[..Head(p)]] + Components(p[Head(p)..])
  {
  }

  /** A component at least `n` long. */
  lemma LongHead(p: string, n: nat)
    requires 0 < n <= |p| && '/' !in p[..n]
    ensures Components(p) != [] && |Components(p)[0]| >= n
  {
    assert p[0] == p[..n][0];
    FirstOf(p);
  }

  /** Components without separators or terminators in them. */
  ghost predicate CleanStack(cs: Stack) { forall i :: 0 <= i < |cs| ==> Plain(cs[i]) && '\0' !in cs[i] }

  lemma ComponentsClean(p: string)
    requires '\0' !in p
    ensures CleanStack(Components(p))
  {
    ComponentsNulFree(p);
    forall i | 0 <= i < |Components(p)| ensures Plain(Components(p)[i]) && '\0' !in Components(p)[i] {
      assert Components(p)[i] in Components(p);
    }
  }

  lemma CleanParts(cs: Stack)
    requires CleanStack(cs) && cs != []
    ensures Plain(cs[0]) && '\0' !in cs[0] && CleanStack(cs[1..])
  {
  }

  lemma ResolveStep(s: Stack, cs: Stack, capacity: nat)
    ensures cs == [] ==> Resolve(s, cs) == s && AllFit(s, cs, capacity)
    ensures cs != [] ==> Resolve(s, cs) == Resolve(Enter(s, cs[0]), cs[1..])
    ensures cs != [] ==>
            (AllFit(s, cs, capacity) <==>
             |cs[0]| <= MAX_NAME && |Render(Enter(s, cs[0]))| < capacity && AllFit(Enter(s, cs[0]), cs[1..], capacity))
  {
  }

  lemma EnterStep(s: Stack, c: string, capacity: nat)
    requires AllLegal(s) && |Render(s)| < capacity && Plain(c) && '\0' !in c && |c| <= MAX_NAME
    ensures c == "." ==> Enter(s, c) == s
    ensures c == ".." ==> Enter(s, c) == Parent(s)
    ensures c != "." && c != ".." ==> Enter(s, c) == s + [c]
    ensures AllLegal(Enter(s, c)) && AllPlain(s)
    ensures c == "." || c == ".." ==> |Render(Enter(s, c))| < capacity
  {
    LegalPlain(s);
    RenderUp(s);
  }

  lemma StartParts(path: string, base: Option<string>)
    requires NormalBase(base)
    ensures AllLegal(Start(path, base))
    ensures (path != "" && path[0] == '/') || base.None? || base.value == "" ==> Render(Start(path, base)) == "/"
    ensures !((path != "" && path[0] == '/') || base.None? || base.value == "") ==>
            Render(Start(path, base)) == base.value && '\0' !in base.value
  {
  }

  lemma MeaningIs(path: string, base: Option<string>)
    ensures Meaning(path, base) == Resolve(Start(path, base), Components(path))
  {
  }

  // ------------------------------------------------------------ mounts and nodes

  /** A directory or file of a file system. */
  datatype Entry = Entry(id: nat, directory: bool)

  /** A mounted file system: its root, and what a directory has under a name. */
  datatype FileSystem = FileSystem(root: Option<Entry>, lookup: (Entry, string) -> Option<Entry>)

  datatype Mount = Mount(path: string, filesystem: FileSystem)

  datatype Node = Node(entry: Entry, path: string)

  const MAX_MOUNTS: nat := 4

  /** Down from `e`, one name at a time, through directories only. */
  function Descend(fs: FileSystem, e: Entry, cs: Stack): Option<Entry>
    decreases |cs|
  {
    if cs == [] then Some(e)
    else if !e.directory then None
    else match fs.lookup(e, cs[0])
         case None => None
         case Some(f) => Descend(fs, f, cs[1..])
  }

  /** What a file system mounted at `m` has at `t`. */
  function Reach(fs: FileSystem, m: Stack, t: Stack): Option<Entry>
    requires m <= t
  {
    match fs.root
    case None => None
    case Some(e) => Descend(fs, e, t[|m|..])
  }

  /** The stack of a mount point. */
  function At(m: Mount): Stack { Components(m.path) }

  /** A mount point is a normal path that fits a buffer. */
  predicate MountOk(m: Mount) { AllLegal(At(m)) && m.path == Render(At(m)) && |m.path| < MAX_PATH }

  lemma {:induction false} Remainder(t: Stack, m: Stack)
    requires AllPlain(t) && m <= t
    ensures |Render(m)| <= |Render(t)| && Components(Render(t)[|Render(m)|..]) == t[|m|..]
  {
    var rest := t[|m|..];
    assert t == m + rest;
    JoinConcat(m, rest);
    ComponentsJoin(rest, "");
    NoneLeft();
    assert Join(rest) + "" == Join(rest) && rest + [] == rest;
    if m == [] {
      if t != [] { SlashFirst(Join(t)); } else { assert Render(t)[1..] == ""; }
    } else {
      assert Render(t)[|Render(m)|..] == Join(rest);
    }
  }

  /** `walk`: the node the names lead to, carrying the path it was reached by, which is the
      path that was asked for. */
  method Walk(mount: Mount, path: string, ghost t: Stack) returns (ok: bool, node: Node)
    requires AllLegal(t) && path == Render(t) && |path| < MAX_PATH && MountOk(mount) && At(mount) <= t
    ensures ok <==> Reach(mount.filesystem, At(mount), t).Some?
    ensures ok ==> node == Node(Reach(mount.filesystem, At(mount), t).value, path)
  {
    hide Components, Render, AllLegal, AllPlain, Join;
    LegalPlain(t);
    var fs := mount.filesystem;
    node := Node(Entry(0, false), "");
    if fs.root.None? { return false, node; }
    var current := Node(fs.root.value, mount.path);
    ghost var k := |At(mount)|;
    Remainder(t, At(mount));
    var cursor := |mount.path|;
    assert t[..k] == At(mount);
    while true
      invariant |At(mount)| <= k <= |t| && cursor <= |path| && current.path == Render(t[..k])
      invariant Components(path[cursor..]) == t[k..]
      invariant Reach(fs, At(mount), t) == Descend(fs, current.entry, t[k..])
      decreases |path| - cursor
    {
      var fits, start, end := NextComponent(path, cursor);
      if !fits {
        LegalAt(t, k);
        return false, node;
      }
      if start == end {
        assert t[..k] == t;
        return true, current;
      }
      var component := path[start..end];
      assert t[k..][0] == t[k] == component && t[k..][1..] == t[k + 1..];
      if !current.entry.directory { return false, node; }
      var child := fs.lookup(current.entry, component);
      if child.None? { return false, node; }
      PathGrows(t, k);
      var longer := if |current.path| == 1 then current.path + component else current.path + "/" + component;
      if |longer| >= MAX_PATH { return false, node; }
      current := Node(child.value, longer);
      cursor, k := end, k + 1;
    }
  }

  lemma LegalAt(t: Stack, k: nat)
    requires AllLegal(t) && k < |t|
    ensures |t[k]| <= MAX_NAME
  {
    assert Legal(t[k]);
  }

  lemma PathGrows(t: Stack, k: nat)
    requires AllPlain(t) && k < |t|
    ensures var s := Render(t[..k]);
            Render(t[..k + 1]) == (if |s| == 1 then s + t[k] else s + "/" + t[k]) && |Render(t[..k + 1])| <= |Render(t)|
  {
    assert t[..k + 1] == t[..k] + [t[k]];
    RenderMore(t[..k], t[k]);
    LongerPath(t, t, t[..k + 1]);
  }

  class MountTable {
    var mounts: seq<Mount>

    ghost predicate Valid()
      reads this
    {
      && |mounts| <= MAX_MOUNTS
      && (forall i :: 0 <= i < |mounts| ==> MountOk(mounts[i]))
      && (forall i, j :: 0 <= i < j < |mounts| ==> mounts[i].path != mounts[j].path)
    }

    constructor ()
      ensures Valid() && mounts == []
    {
      mounts := [];
    }

    /** `mount_for`: of the mounts that cover the path, the one with the most components;
        there is only one such. */
    method MountFor(path: string, ghost t: Stack) returns (best: int)
      requires AllLegal(t) && path == Render(t) && Valid()
      ensures -1 <= best < |mounts|
      ensures best == -1 ==> forall i :: 0 <= i < |mounts| ==> !(At(mounts[i]) <= t)
      ensures best >= 0 ==> At(mounts[best]) <= t
      ensures best >= 0 ==> forall i :: 0 <= i < |mounts| && i != best && At(mounts[i]) <= t ==>
              |At(mounts[i])| < |At(mounts[best])|
    {
      hide Render, AllLegal, Components, StartsWith;
      best := -1;
      for index := 0 to |mounts|
        invariant -1 <= best < index
        invariant best == -1 ==> forall i :: 0 <= i < index ==> !(At(mounts[i]) <= t)
        invariant best >= 0 ==> At(mounts[best]) <= t
        invariant best >= 0 ==> forall i :: 0 <= i < index && i != best && At(mounts[i]) <= t ==>
                  |At(mounts[i])| < |At(mounts[best])|
      {
        Covering(mounts[index], t);
        if !StartsWith(path, mounts[index].path) { continue; }
        if best >= 0 {
          Compare(mounts[index], mounts[best], t);
          if |mounts[index].path| <= |mounts[best].path| { continue; }
        }
        best := index;
      }
    }

    /** `stat`: the node's path is the normal path of what was asked for, and the node is
        what the deepest mount over it has there; it fails exactly when the path does not
        fit or there is nothing there. */
    method Stat(path: string, base: Option<string>) returns (ok: bool, node: Node)
      requires '\0' !in path && NormalBase(base) && Valid()
      ensures ok ==> node.path == Render(Meaning(path, base)) && Found(mounts, Meaning(path, base), node.entry)
      ensures ok ==> |Render(Start(path, base))| < MAX_PATH && AllFit(Start(path, base), Components(path), MAX_PATH)
      ensures !ok && |Render(Start(path, base))| < MAX_PATH && AllFit(Start(path, base), Components(path), MAX_PATH) ==>
                forall e :: !Found(mounts, Meaning(path, base), e)
    {
      hide Render, AllLegal, Components, Meaning, Start, AllFit, Reach, NormalBase;
      node := Node(Entry(0, false), "");
      var normalized := new char[MAX_PATH];
      ok := Normalize(path, base, normalized);
      if !ok { return; }
      ghost var t := Meaning(path, base);
      var text := ToString(normalized, Render(t));
      var best := MountFor(text, t);
      if best < 0 { return false, node; }
      assert Deepest(mounts, best, t);
      ok, node := Walk(mounts[best], text, t);
    }

    /** `mount`: a new mount point, exactly when `Mountable` says so. */
    method AddMount(path: string, fs: FileSystem) returns (ok: bool)
      requires '\0' !in path && Valid()
      modifies this
      ensures Valid()
      ensures ok <==> Mountable(old(mounts), path)
      ensures mounts == if ok then old(mounts) + [Mount(Render(Meaning(path, None)), fs)] else old(mounts)
    {
      hide Render, AllLegal, AllPlain, Components, Meaning, Start, AllFit, Found, MountOk;
      if path == "" || path[0] != '/' { return false; }
      if |mounts| >= MAX_MOUNTS { return false; }
      if |mounts| == 0 && path != "/" { return false; }
      var normalized := new char[MAX_PATH];
      StartParts(path, None);
      StartNone(path);
      ok := Normalize(path, None, normalized);
      if !ok { return; }
      ghost var t := Meaning(path, None);
      var text := ToString(normalized, Render(t));
      for i := 0 to |mounts|
        invariant Valid() && mounts == old(mounts) && forall j :: 0 <= j < i ==> mounts[j].path != text
      {
        if mounts[i].path == text { return false; }
      }
      MountMade(t, fs);
      if |mounts| != 0 {
        LegalPlain(t);
        RemoveLast(normalized, t);
        ghost var up := Parent(t);
        var parent := ToString(normalized, Render(up));
        LegalUp(t);
        ParentMeans(up);
        FixedPoint(up, None, MAX_PATH);
        var there, point := Stat(parent, None);
        if there {
          forall e | Found(mounts, up, e) ensures e == point.entry { FoundOnce(mounts, up, e, point.entry); }
        }
        if !there || !point.entry.directory { return false; }
      }
      mounts := mounts + [Mount(text, fs)];
      return true;
    }
  }

  /** A path a file system can be mounted at: absolute, "/" for the first one, short enough,
      not a mount point yet, and in a directory that is there. */
  ghost predicate Mountable(mounts: seq<Mount>, path: string) {
    var t := Meaning(path, None);
    && path != "" && path[0] == '/' && |mounts| < MAX_MOUNTS && (mounts == [] ==> path == "/")
    && AllFit([], Components(path), MAX_PATH)
    && (forall i :: 0 <= i < |mounts| ==> mounts[i].path != Render(t))
    && (mounts != [] ==> exists e: Entry :: e.directory && Found(mounts, Parent(t), e))
  }

  lemma StartNone(path: string)
    ensures Start(path, None) == [] && NormalBase(None)
  {
  }

  /** There is at most one node at a path. */
  lemma FoundOnce(mounts: seq<Mount>, t: Stack, e: Entry, f: Entry)
    requires Found(mounts, t, e) && Found(mounts, t, f)
    ensures e == f
  {
    hide Reach, Components;
    var i: nat :| i < |mounts| && Deepest(mounts, i, t) && Reach(mounts[i].filesystem, At(mounts[i]), t) == Some(e);
    var j: nat :| j < |mounts| && Deepest(mounts, j, t) && Reach(mounts[j].filesystem, At(mounts[j]), t) == Some(f);
    assert i == j;
  }

  /** Mount `i` covers `t`, and every other mount that does is shallower. */
  ghost predicate Deepest(mounts: seq<Mount>, i: int, t: Stack) {
    && 0 <= i < |mounts| && At(mounts[i]) <= t
    && forall j :: 0 <= j < |mounts| && j != i && At(mounts[j]) <= t ==> |At(mounts[j])| < |At(mounts[i])|
  }

  /** The deepest mount over `t` has `e` there. */
  ghost predicate Found(mounts: seq<Mount>, t: Stack, e: Entry) {
    exists i: nat :: i < |mounts| && Deepest(mounts, i, t) && Reach(mounts[i].filesystem, At(mounts[i]), t) == Some(e)
  }

  lemma MountMade(t: Stack, fs: FileSystem)
    requires AllLegal(t) && |Render(t)| < MAX_PATH
    ensures MountOk(Mount(Render(t), fs))
  {
    LegalPlain(t);
    ComponentsRender(t);
  }

  lemma {:induction false} JoinNulFree(s: Stack)
    requires AllLegal(s)
    ensures '\0' !in Join(s)
  {
    if s != [] {
      assert Legal(s[0]);
      JoinNulFree(s[1..]);
    }
  }

  lemma LegalUp(t: Stack)
    requires AllLegal(t)
    ensures AllLegal(Parent(t))
  {
  }

  /** A normal path means its own stack, and has no terminator in it. */
  lemma ParentMeans(s: Stack)
    requires AllLegal(s) && |Render(s)| < MAX_PATH
    ensures '\0' !in Render(s) && NormalBase(None) && Meaning(Render(s), None) == s
  {
    JoinNulFree(s);
    LegalPlain(s);
    ComponentsRender(s);
    ResolvePlain([], s);
    assert [] + s == s;
  }

  method ToString(a: array<char>, ghost s: string) returns (r: string)
    requires Holds(a, s)
    ensures r == s
  {
    var n := Length(a, s);
    r := a[..n];
  }

  lemma Covering(m: Mount, t: Stack)
    requires MountOk(m) && AllLegal(t)
    ensures StartsWith(Render(t), m.path) <==> At(m) <= t
  {
    LegalPlain(t);
    LegalPlain(At(m));
    StartsWithIs(t, At(m));
  }

  lemma Compare(a: Mount, b: Mount, t: Stack)
    requires MountOk(a) && MountOk(b) && AllLegal(t) && At(a) <= t && At(b) <= t
    ensures |a.path| <= |b.path| <==> |At(a)| <= |At(b)|
    ensures |At(a)| == |At(b)| ==> a.path == b.path
  {
    LegalPlain(t);
    LongerPath(t, At(b), At(a));
  }
}
