/** The guard against moving a directory into itself.  The VFS compares the bytes of two
    paths, while the volume compares names after folding case. */
module MoveGuard {
  import opened Common
  import opened ExfatDirectory
  import opened ExfatDisk
  import opened ExfatEntries
  import opened ExfatIds
  import opened ExfatLayout
  import opened ExfatMoves
  import opened ExfatRename
  import opened ExfatRuns
  import opened ExfatTree
  import opened ExfatVolume
  import opened Utf
  import opened VfsPath

  /** Names that fold to the same units name the same sets. */
  lemma FoldedNamed(up: Upcase, dirs: map<nat, map<nat, Rec>>, d: nat, a: seq<byte>, b: seq<byte>, q: nat)
    requires Wanted(a).Some? && Wanted(b).Some? && Up(up, Wanted(a).value) == Up(up, Wanted(b).value)
    ensures Named(up, dirs, d, a, q) <==> Named(up, dirs, d, b, q)
  {
    assert |Wanted(a).value| == |Wanted(b).value|;
  }

  /** A one-letter name. */
  lemma Letter(c: byte)
    requires 0 < c < 0x80
    ensures Wanted([c]) == Some([c])
  {
    var s: seq<byte> := [c];
    assert s[1..] == [] && LeadLength(s[0]) == 1 && Utf.Bits(s, 1) == c;
    assert Decode(s[1..], HighSurrogate(c)) == Some([]);
    assert Decode(s, false) == Some(Units(c) + []);
    assert Units(c) + [] == [c];
  }

  /** The directory a set stands for lies within itself. */
  lemma WithinSelf(cb: nat, up: Upcase, t: Tree, d: nat, q: nat)
    requires cb > 0 && Shape(cb, up, t, {}, {}) && t.Has(d, q) && t.At(d, q).entry.IsDirectory()
    ensures Within(t, t.At(d, q).entry.stream.first, t.At(d, q).entry.stream.first)
  {
    ShapeNode(cb, up, t, {}, {}, d, q);
    hide Homed, NamesApart, Known, RootOk;
  }

  lemma VolumeShape(v: Volume)
    requires v.Valid()
    ensures v.cb > 0 && Shape(v.cb, v.up, v.T(), {}, {}) && HeadsOk(v.T().lay)
  {
    hide *;
    v.ValidParts();
    v.CoreFacts({}, {});
    v.TreeParts();
  }

  /** The bytes differ. */
  lemma Passes()
    ensures !StartsWith("/A/b", "/a")
  {
    assert "/A/b"[..2][1] != "/a"[1];
  }

  /** Renaming "a" to "A/b" in directory `h`, where `h2` is the directory looked up as "A":
      the paths pass the guard, and yet the target is the directory being moved. */
  lemma GuardMisses(v: Volume, h: nat, q: nat, h2: nat)
    requires v.up[0x61] == v.up[0x41] && v.T().Has(v.DirAt(h).first, q)
             && v.T().At(v.DirAt(h).first, q).entry.IsDirectory()
    requires Named(v.up, v.dirs, v.DirAt(h).first, [0x41], q)
    requires v.DirAt(h2).first == v.T().At(v.DirAt(h).first, q).entry.stream.first && v.Valid()
    ensures !StartsWith("/A/b", "/a")
    ensures Named(v.up, v.dirs, v.DirAt(h).first, [0x61], q) && !v.Outside(h, [0x61], h2)
  {
    hide *;
    Passes();
    Letter(0x41);
    Letter(0x61);
    SameLetter(v.up);
    FoldedNamed(v.up, v.dirs, v.DirAt(h).first, [0x61], [0x41], q);
    VolumeShape(v);
    WithinSelf(v.cb, v.up, v.T(), v.DirAt(h).first, q);
    if v.Outside(h, [0x61], h2) {
      v.OutsideIs(h, [0x61], h2, q);
      RecordAt(v, v.DirAt(h).first, q);
    }
  }

  lemma SameLetter(up: Upcase)
    requires up[0x61] == up[0x41]
    ensures Up(up, [0x61]) == Up(up, [0x41])
  {
  }

  /** The whole run: a formatted volume with a directory "A" in its root.  The rename of "/a"
      to "/A/b" has nothing to object to, and its target is the directory being moved. */
  method GuardRun(up: Upcase) returns (v: Volume, target: nat)
    requires up[0x61] == up[0x41]
    ensures v.Valid() && v.cb > 0 && v.Node(ROOT_ID) && v.Node(target)
            && v.RenameCheck(ROOT_ID, [0x61], target, [0x62]) == NoError
    ensures !StartsWith("/A/b", "/a") && !v.Outside(ROOT_ID, [0x61], target)
  {
    Sizes();
    hide *;
    v := new Volume.Format(100, 512, up);
    Letter(0x41);
    Letter(0x62);
    LetterGood(0x41);
    LetterGood(0x62);
    EmptyRoot(v, [0x41], Directory);
    ghost var t := v.T();
    v.TreeParts();
    var error, node;
    ghost var slot, s;
    error, node, slot, s := v.Create(ROOT_ID, [0x41], Directory);
    target := node.value.id;
    OnlySet(t, v.T(), 3, slot, Entry(s, 0x10, [0x41]));
    MadeDir(v, slot, s, target);
    GuardMisses(v, ROOT_ID, slot, target);
    MayRename(v, slot, target);
  }

  lemma LetterGood(c: byte)
    requires 0x41 <= c <= 0x5A || 0x61 <= c <= 0x7A
    requires Wanted([c]) == Some([c])
    ensures NullFree([c]) && GoodName([c]) && SlotsFor([c]) == 3
  {
    hide Wanted;
  }

  lemma MadeDir(v: Volume, slot: nat, s: Stream, target: nat)
    requires v.cb > 0 && v.T().Has(3, slot) && v.T().At(3, slot).entry == Entry(s, 0x10, [0x41]) && v.root.first == 3
    requires Handle(v.cb, v.T(), target) && IdFirst(target) == 3 && IdSlot(target) == slot
             && Wanted([0x41]) == Some([0x41])
    ensures v.Node(target) && v.Node(ROOT_ID) && v.DirAt(ROOT_ID).first == 3 && v.T().At(3, slot).entry.IsDirectory()
    ensures v.DirAt(target).first == s.first && v.IsDir(target) && v.IsDir(ROOT_ID)
    ensures Named(v.up, v.dirs, 3, [0x41], slot)
  {
    hide Handle, Wanted;
  }

  lemma MayRename(v: Volume, slot: nat, target: nat)
    requires v.writable && v.IsDir(target) && v.IsDir(ROOT_ID) && GoodName([0x62])
    requires Named(v.up, v.dirs, v.DirAt(ROOT_ID).first, [0x61], slot)
    requires v.DirAt(target).first in v.dirs && v.dirs[v.DirAt(target).first] == map[]
    ensures v.RenameCheck(ROOT_ID, [0x61], target, [0x62]) == NoError
  {
    hide Wanted, Up, GoodName, v.IsDir, v.DirAt;
  }

  // ----------------------------------------------------------- what would be exact

  /** The bytes of a component. */
  function BytesOf(c: string): seq<byte> { seq(|c|, i requires 0 <= i < |c| => c[i] as int % 256) }

  /** What a component is compared by on the volume. */
  ghost function Folded(up: Upcase, c: string): Option<seq<unit>> {
    match Wanted(BytesOf(c))
    case None => None
    case Some(units) => Some(Up(up, units))
  }

  ghost function FoldedAll(up: Upcase, s: Stack): (r: seq<Option<seq<unit>>>)
    ensures |r| == |s| && forall i :: 0 <= i < |s| ==> r[i] == Folded(up, s[i])
  {
    seq(|s|, i requires 0 <= i < |s| => Folded(up, s[i]))
  }

  /** `c` names the set at `e`, `q`, which is directory `d`. */
  ghost predicate Steps(up: Upcase, t: Tree, e: nat, q: nat, c: string, d: nat) {
    && t.Has(e, q) && t.At(e, q).entry.IsDirectory() && t.At(e, q).entry.stream.first == d
    && Named(up, t.dirs, e, BytesOf(c), q)
  }

  /** Looking the components up one after the other, from the root, ends at directory `d`. */
  ghost predicate Leads(up: Upcase, t: Tree, s: Stack, d: nat) {
    if s == [] then d == t.root.first
    else
      var init, c := s[..|s| - 1], s[|s| - 1];
      exists e, q :: Leads(up, t, init, e) && Steps(up, t, e, q, c, d)
  }

  /** The directories lie in one another as the lists of clusters are owned. */
  ghost predicate Rooted(cb: nat, up: Upcase, t: Tree) {
    cb > 0 && Shape(cb, up, t, {}, {}) && HeadsOk(t.lay)
  }

  /** As they do in every volume. */
  lemma VolumeRooted(v: Volume)
    requires v.Valid()
    ensures Rooted(v.cb, v.up, v.T())
  {
    VolumeShape(v);
    hide Shape, HeadsOk, v.Valid;
  }

  lemma RootOwner(cb: nat, up: Upcase, t: Tree)
    requires Rooted(cb, up, t)
    ensures AllHomed(t) && t.root.first in t.dirs && t.root.first in t.lay.owner
            && t.lay.owner[t.root.first].id == RootId
  {
    hide Known, NamesApart, NodeOk, Homed;
    NonEmptyChain(cb, t.lay, RootId, t.root);
  }

  lemma StepOwner(cb: nat, up: Upcase, t: Tree, e: nat, q: nat, c: string, d: nat)
    requires Rooted(cb, up, t) && Steps(up, t, e, q, c, d)
    ensures AllHomed(t) && e in t.dirs && d in t.dirs && d in t.lay.owner && t.lay.owner[d].id == NodeId(e, q)
    ensures q in t.dirs[e] && Folded(up, c) == Some(Up(up, t.dirs[e][q].entry.name)) && NamesApart(up, t.dirs[e])
  {
    hide Known, Homed, RootOk, Wanted;
    ShapeNode(cb, up, t, {}, {}, e, q);
    NonEmptyChain(cb, t.lay, NodeId(e, q), t.At(e, q).entry.stream);
  }

  lemma LeadsTo(cb: nat, up: Upcase, t: Tree, s: Stack, d: nat)
    requires Rooted(cb, up, t) && Leads(up, t, s, d)
    ensures AllHomed(t) && d in t.dirs && d in t.lay.owner
    ensures s == [] <==> t.lay.owner[d].id == RootId
  {
    hide Shape, HeadsOk, Steps;
    if s == [] {
      RootOwner(cb, up, t);
    } else {
      var e, q :| Leads(up, t, s[..|s| - 1], e) && Steps(up, t, e, q, s[|s| - 1], d);
      StepOwner(cb, up, t, e, q, s[|s| - 1], d);
    }
  }

  /** A directory has one path, but for the spelling of its components ... */
  lemma {:induction false} OnePath(cb: nat, up: Upcase, t: Tree, s: Stack, s': Stack, d: nat)
    requires Rooted(cb, up, t) && Leads(up, t, s, d) && Leads(up, t, s', d)
    ensures FoldedAll(up, s) == FoldedAll(up, s')
    decreases |s|
  {
    hide Shape, HeadsOk, Steps, Rooted, Folded;
    LeadsTo(cb, up, t, s, d);
    LeadsTo(cb, up, t, s', d);
    if s != [] {
      var c, c' := s[|s| - 1], s'[|s'| - 1];
      var e, q :| Leads(up, t, s[..|s| - 1], e) && Steps(up, t, e, q, c, d);
      var e', q' :| Leads(up, t, s'[..|s'| - 1], e') && Steps(up, t, e', q', c', d);
      StepOwner(cb, up, t, e, q, c, d);
      StepOwner(cb, up, t, e', q', c', d);
      OnePath(cb, up, t, s[..|s| - 1], s'[..|s'| - 1], e);
      FoldedInit(up, s);
      FoldedInit(up, s');
    }
  }

  /** ... and such a path leads to one directory. */
  lemma {:induction false} OneDirectory(cb: nat, up: Upcase, t: Tree, s: Stack, s': Stack, d: nat, d': nat)
    requires Rooted(cb, up, t) && Leads(up, t, s, d) && Leads(up, t, s', d') && FoldedAll(up, s) == FoldedAll(up, s')
    ensures d == d'
    decreases |s|
  {
    hide Shape, HeadsOk, Steps, Rooted, Folded;
    assert |s| == |s'|;
    if s != [] {
      var c, c' := s[|s| - 1], s'[|s'| - 1];
      var e, q :| Leads(up, t, s[..|s| - 1], e) && Steps(up, t, e, q, c, d);
      var e', q' :| Leads(up, t, s'[..|s'| - 1], e') && Steps(up, t, e', q', c', d');
      StepOwner(cb, up, t, e, q, c, d);
      StepOwner(cb, up, t, e', q', c', d');
      FoldedInit(up, s);
      FoldedInit(up, s');
      OneDirectory(cb, up, t, s[..|s| - 1], s'[..|s'| - 1], e, e');
      SameStep(up, t, e, q, c, d, q', c', d');
    }
  }

  lemma SameStep(up: Upcase, t: Tree, e: nat, q: nat, c: string, d: nat, q': nat, c': string, d': nat)
    requires Steps(up, t, e, q, c, d) && Steps(up, t, e, q', c', d') && Folded(up, c) == Folded(up, c')
    requires e in t.dirs && NamesApart(up, t.dirs[e])
    ensures d == d'
  {
    hide Wanted, Up;
  }

  lemma FoldedInit(up: Upcase, s: Stack)
    requires s != []
    ensures FoldedAll(up, s) == FoldedAll(up, s[..|s| - 1]) + [Folded(up, s[|s| - 1])]
  {
  }

  /** Directory `d` lies in directory `m` exactly when the path of `m` is the start of the
      path of `d`, component by component and after folding. */
  lemma {:induction false} InsideExact(cb: nat, up: Upcase, t: Tree, from: Stack, m: nat, s: Stack, d: nat)
    requires Rooted(cb, up, t) && Leads(up, t, from, m) && Leads(up, t, s, d)
    ensures AllHomed(t) && d in t.dirs && (Inside(t, d, m) <==> FoldedAll(up, from) <= FoldedAll(up, s))
    decreases |s|
  {
    hide Shape, HeadsOk, Steps, Rooted, Folded, AllHomed;
    LeadsTo(cb, up, t, s, d);
    LeadsTo(cb, up, t, from, m);
    if d == m {
      OnePath(cb, up, t, from, s, d);
    } else if FoldedAll(up, from) == FoldedAll(up, s) {
      OneDirectory(cb, up, t, from, s, m, d);
    } else if s == [] {
    } else {
      var c := s[|s| - 1];
      var e, q :| Leads(up, t, s[..|s| - 1], e) && Steps(up, t, e, q, c, d);
      StepOwner(cb, up, t, e, q, c, d);
      FoldedInit(up, s);
      InsideExact(cb, up, t, from, m, s[..|s| - 1], e);
      PrefixInit(FoldedAll(up, from), FoldedAll(up, s[..|s| - 1]), Folded(up, c));
    }
  }

  lemma PrefixInit<T>(a: seq<T>, b: seq<T>, x: T)
    ensures a <= b + [x] <==> a <= b || a == b + [x]
  {
  }

  /** The guard of `rename`: what it refuses is refused rightly, and what it misses is
      exactly the targets inside the moved directory whose path spells it differently. */
  lemma GuardExact(cb: nat, up: Upcase, t: Tree, from: Stack, m: nat, to: Stack, d: nat)
    requires Rooted(cb, up, t) && AllPlain(from) && AllPlain(to) && to != [] && from != to
    requires Leads(up, t, from, m) && Leads(up, t, to[..|to| - 1], d)
    ensures AllHomed(t) && d in t.dirs
    ensures Inside(t, d, m) <==> FoldedAll(up, from) <= FoldedAll(up, to[..|to| - 1])
    ensures StartsWith(Render(to), Render(from)) ==> Inside(t, d, m)
    ensures Inside(t, d, m) && !StartsWith(Render(to), Render(from)) <==>
            FoldedAll(up, from) <= FoldedAll(up, to[..|to| - 1]) && !(from <= to[..|to| - 1])
  {
    hide Shape, HeadsOk, Leads, Rooted, Folded, AllHomed, Inside, Render, StartsWith, AllPlain;
    InsideExact(cb, up, t, from, m, to[..|to| - 1], d);
    StartsWithIs(to, from);
    assert to == to[..|to| - 1] + [to[|to| - 1]];
    PrefixInit(from, to[..|to| - 1], to[|to| - 1]);
    if from <= to[..|to| - 1] {
      assert FoldedAll(up, from) <= FoldedAll(up, to[..|to| - 1]);
    }
  }
}
