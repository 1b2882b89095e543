/** kernel/fs/vfs.cpp: what a path means.  A path names a stack of components; a normal path
    is one way to write a stack, and the only one `normalize` produces. */
module VfsPath {
  import opened Common

  /** The longest component, `max_name_length`. */
  const MAX_NAME: nat := 255

  type Stack = seq<string>

  // ------------------------------------------------------------------ splitting

  /** Leading separators dropped. */
  function Skip(p: string): (r: string)
    ensures |r| <= |p| && (r != "" ==> r[0] != '/')
  {
    if p != "" && p[0] == '/' then Skip(p[1..]) else p
  }

  /** The length of the leading component. */
  function Head(p: string): (n: nat)
    ensures n <= |p| && (n < |p| ==> p[n] == '/') && '/' !in p[..n]
    ensures p != "" && p[0] != '/' ==> n > 0
  {
    if p == "" || p[0] == '/' then 0 else 1 + Head(p[1..])
  }

  /** The components of a path. */
  function Components(p: string): (r: Stack)
    ensures forall c :: c in r ==> c != "" && '/' !in c
    decreases |p|
  {
    var q := Skip(p);
    if q == "" then [] else [q[..Head(q)]] + Components(q[Head(q)..])
  }

  // ------------------------------------------------------------------ rendering

  function Join(s: Stack): string { if s == [] then "" else "/" + s[0] + Join(s[1..]) }

  /** The normal path of a stack. */
  function Render(s: Stack): string { if s == [] then "/" else Join(s) }

  predicate Plain(c: string) { c != "" && '/' !in c }

  /** A component a stack may hold. */
  predicate Legal(c: string) { Plain(c) && |c| <= MAX_NAME && c != "." && c != ".." && '\0' !in c }

  predicate AllLegal(s: Stack) { forall i :: 0 <= i < |s| ==> Legal(s[i]) }

  predicate AllPlain(s: Stack) { forall i :: 0 <= i < |s| ==> Plain(s[i]) }

  lemma {:induction false} JoinConcat(a: Stack, b: Stack)
    ensures Join(a + b) == Join(a) + Join(b)
  {
    if a == [] {
      assert a + b == b;
    } else {
      assert (a + b)[1..] == a[1..] + b;
      JoinConcat(a[1..], b);
    }
  }

  lemma JoinLast(a: Stack, c: string)
    ensures Join(a + [c]) == Join(a) + "/" + c
  {
    JoinConcat(a, [c]);
    assert [c][1..] == [];
    assert Join([c]) == "/" + c + "";
  }

  lemma SkipSlash(p: string)
    requires p != "" && p[0] != '/'
    ensures Skip("/" + p) == p
  {
    assert ("/" + p)[1..] == p;
  }

  lemma {:induction false} HeadPlain(c: string, u: string)
    requires '/' !in c && (u == "" || u[0] == '/')
    ensures Head(c + u) == |c|
  {
    if c == "" {
      assert c + u == u;
    } else {
      assert (c + u)[1..] == c[1..] + u;
      HeadPlain(c[1..], u);
    }
  }

  /** A path that goes on after a rendered stack has that stack's components first. */
  lemma {:induction false} ComponentsJoin(m: Stack, u: string)
    requires AllPlain(m) && (u == "" || u[0] == '/')
    ensures Components(Join(m) + u) == m + Components(u)
  {
    hide Components;
    if m == [] {
      assert Join(m) + u == u && m + Components(u) == Components(u);
    } else {
      assert Plain(m[0]);
      ComponentsJoin(m[1..], u);
      var rest := Join(m[1..]) + u;
      assert Join(m) + u == "/" + m[0] + rest;
      OneMore(m[0], rest);
      assert [m[0]] + (m[1..] + Components(u)) == m + Components(u);
    }
  }

  lemma OneMore(c: string, rest: string)
    requires Plain(c) && (rest == "" || rest[0] == '/')
    ensures Components("/" + c + rest) == [c] + Components(rest)
  {
    var q := c + rest;
    assert "/" + c + rest == "/" + q;
    SkipSlash(q);
    HeadPlain(c, rest);
    assert q[..|c|] == c && q[|c|..] == rest;
  }

  /** Splitting a rendered stack gives it back. */
  lemma ComponentsRender(s: Stack)
    requires AllPlain(s)
    ensures Components(Render(s)) == s
  {
    if s == [] {
      assert Skip("/") == "";
    } else {
      ComponentsJoin(s, "");
      assert Join(s) + "" == Join(s) && Components("") == [];
    }
  }

  /** So a normal path stands for one stack. */
  lemma RenderOnce(s: Stack, t: Stack)
    requires AllPlain(s) && AllPlain(t) && Render(s) == Render(t)
    ensures s == t
  {
    ComponentsRender(s);
    ComponentsRender(t);
  }

  // ------------------------------------------------------------------ resolving

  /** One level up; the root's parent is the root. */
  function Parent(s: Stack): Stack { if s == [] then [] else s[..|s| - 1] }

  /** One component: "." stays, ".." goes up, anything else goes down. */
  function Enter(s: Stack, c: string): Stack {
    if c == "." then s
    else if c == ".." then Parent(s)
    else s + [c]
  }

  function Resolve(s: Stack, cs: Stack): Stack
    decreases |cs|
  {
    if cs == [] then s else Resolve(Enter(s, cs[0]), cs[1..])
  }

  /** Where a relative path starts. */
  function Start(path: string, base: Option<string>): Stack {
    if (path != "" && path[0] == '/') || base.None? || base.value == "" then [] else Components(base.value)
  }

  /** What a path means: the stack of the base, then the components of the path. */
  function Meaning(path: string, base: Option<string>): Stack { Resolve(Start(path, base), Components(path)) }

  /** A component fits, and so does what it leads to. */
  predicate Fits(s: Stack, c: string, capacity: nat) { |c| <= MAX_NAME && |Render(Enter(s, c))| < capacity }

  /** Every step of the way fits. */
  predicate AllFit(s: Stack, cs: Stack, capacity: nat)
    decreases |cs|
  {
    cs == [] || (Fits(s, cs[0], capacity) && AllFit(Enter(s, cs[0]), cs[1..], capacity))
  }

  lemma {:induction false} ResolveLegal(s: Stack, cs: Stack, capacity: nat)
    requires AllLegal(s) && (forall i :: 0 <= i < |cs| ==> Plain(cs[i]) && '\0' !in cs[i]) && AllFit(s, cs, capacity)
             && |Render(s)| < capacity
    ensures AllLegal(Resolve(s, cs)) && |Render(Resolve(s, cs))| < capacity
    decreases |cs|
  {
    if cs != [] {
      assert Plain(cs[0]);
      ResolveLegal(Enter(s, cs[0]), cs[1..], capacity);
    }
  }

  lemma {:induction false} ComponentsNulFree(p: string)
    requires '\0' !in p
    ensures forall c :: c in Components(p) ==> '\0' !in c
    decreases |p|
  {
    var q := Skip(p);
    SkipPart(p);
    if q != "" { ComponentsNulFree(q[Head(q)..]); }
  }

  lemma {:induction false} SkipPart(p: string)
    ensures forall x :: x in Skip(p) ==> x in p
  {
    if p != "" && p[0] == '/' { SkipPart(p[1..]); }
  }

  lemma LegalPlain(s: Stack)
    requires AllLegal(s)
    ensures AllPlain(s)
  {
    forall i | 0 <= i < |s| ensures Plain(s[i]) { assert Legal(s[i]); }
  }

  /** A stack of legal components resolves to itself, whatever is there already. */
  lemma {:induction false} ResolvePlain(s: Stack, cs: Stack)
    requires AllLegal(cs)
    ensures Resolve(s, cs) == s + cs
    decreases |cs|
  {
    if cs == [] {
      assert s + cs == s;
    } else {
      assert Legal(cs[0]);
      ResolvePlain(s + [cs[0]], cs[1..]);
      assert s + cs == (s + [cs[0]]) + cs[1..];
    }
  }

  lemma {:induction false} FitPlain(s: Stack, cs: Stack, capacity: nat)
    requires AllLegal(cs) && |Render(s + cs)| < capacity
    ensures AllFit(s, cs, capacity)
    decreases |cs|
  {
    if cs != [] {
      assert Legal(cs[0]);
      assert s + cs == (s + [cs[0]]) + cs[1..];
      FitPlain(s + [cs[0]], cs[1..], capacity);
      JoinConcat(s + [cs[0]], cs[1..]);
    }
  }

  /** Normal paths are fixed points: they mean their own stack, and every step fits where the
      whole does. */
  lemma FixedPoint(s: Stack, base: Option<string>, capacity: nat)
    requires AllLegal(s) && |Render(s)| < capacity
    ensures Start(Render(s), base) == [] && Render(Meaning(Render(s), base)) == Render(s)
    ensures AllFit([], Components(Render(s)), capacity)
  {
    LegalPlain(s);
    ComponentsRender(s);
    ResolvePlain([], s);
    assert [] + s == s;
    FitPlain([], s, capacity);
  }

  // --------------------------------------------------------------- mount points

  /** `path_starts_with`. */
  predicate StartsWith(path: string, prefix: string) {
    && |prefix| <= |path| && path[..|prefix|] == prefix
    && (|prefix| == 1 || |prefix| == |path| || path[|prefix|] == '/')
  }

  /** The byte test is the test on components. */
  lemma StartsWithIs(t: Stack, m: Stack)
    requires AllPlain(t) && AllPlain(m)
    ensures StartsWith(Render(t), Render(m)) <==> m <= t
  {
    if m == [] {
      assert Render(t)[..1] == "/";
    } else {
      assert Plain(m[0]) && |Render(m)| > 1;
      if m <= t { StartsWithPrefix(t, m); }
      if StartsWith(Render(t), Render(m)) {
        var u := Render(t)[|Render(m)|..];
        assert Render(t) == Join(m) + u;
        ComponentsJoin(m, u);
        ComponentsRender(t);
      }
    }
  }

  lemma StartsWithPrefix(t: Stack, m: Stack)
    requires m != [] && m <= t
    ensures StartsWith(Render(t), Render(m))
  {
    assert t == m + t[|m|..];
    JoinConcat(m, t[|m|..]);
  }

  /** Of two stacks on the same path, the longer one is the one with the longer path. */
  lemma LongerPath(t: Stack, a: Stack, b: Stack)
    requires AllPlain(t) && a <= t && b <= t
    ensures |a| < |b| <==> |Render(a)| < |Render(b)|
    ensures |a| == |b| ==> a == b
  {
    assert a == t[..|a|] && b == t[..|b|];
    if |a| < |b| { Longer(t, a, b); }
    if |b| < |a| { Longer(t, b, a); }
  }

  lemma Longer(t: Stack, a: Stack, b: Stack)
    requires AllPlain(t) && a <= t && b <= t && |a| < |b|
    ensures |Render(a)| < |Render(b)|
  {
    assert b == a + b[|a|..];
    JoinConcat(a, b[|a|..]);
    assert Plain(t[|a|]) && b[|a|] == t[|a|];
  }
}
