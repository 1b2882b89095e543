/** What renaming does: the clusters of one set come to belong to another, while both
    are on disk, and then the old set goes. */
module ExfatRename {
  import opened Common
  import opened Utf
  import opened ExfatDisk
  import opened ExfatLayout
  import opened ExfatEntries
  import opened ExfatDirectory
  import opened ExfatTree
  import opened ExfatMoves
  import opened ExfatIds
  import opened ExfatFiles

  /** Directory `d` is `m` or lies below it. */
  ghost predicate Within(t: Tree, d: nat, m: nat) {
    AllHomed(t) && d in t.dirs && Inside(t, d, m)
  }

  /** Lying below depends on the homes of directories only. */
  lemma {:induction false} InsideSame(t: Tree, t': Tree, d: nat, m: nat)
    requires AllHomed(t) && AllHomed(t') && t'.dirs.Keys == t.dirs.Keys && d in t.dirs
    requires forall e :: e in t.dirs ==> e in t.lay.owner && e in t'.lay.owner && t'.lay.owner[e] == t.lay.owner[e]
    ensures Inside(t', d, m) == Inside(t, d, m)
    decreases if d in t.rank then t.rank[d] else 0
  {
    assert Homed(t, d) && Homed(t', d);
    if d != m && t.lay.owner[d].id.NodeId? {
      assert Homed(t, t.lay.owner[d].id.dir);
      InsideSame(t, t', t.lay.owner[d].id.dir, m);
    }
  }

  /** Both sets on disk, the clusters already under the new one. */
  ghost function Relabelled(t: Tree, d1: nat, s1: nat, d2: nat, s2: nat): Tree
    requires AllHomed(t) && t.Has(d1, s1) && t.Has(d2, s2) && d2 in t.rank
    requires NodeId(d1, s1) in t.lay.chain && NodeId(d1, s1) in t.lay.heads
  {
    t.(lay := Renamed(t.lay, NodeId(d1, s1), NodeId(d2, s2)),
       rank := if t.At(d1, s1).entry.IsDirectory() then Reranked(t, t.At(d1, s1).entry.stream.first, d2) else t.rank)
  }

  lemma RelabelledIs(cb: nat, t: Tree, d1: nat, s1: nat, d2: nat, s2: nat)
    requires cb > 0 && Movable(cb, t, d1, s1, d2, s2)
    ensures var w := Moved(t, d1, s1, d2, s2);
            && d1 in w.dirs && !w.Has(d1, s1) && w.With(d1, s1, t.At(d1, s1)) == Relabelled(t, d1, s1, d2, s2)
            && (forall q :: q in w.dirs[d1] ==> q in t.dirs[d1] && q != s1 && w.dirs[d1][q] == t.dirs[d1][q])
  {
    hide NodeOk, HeadsOk, OwnersOk, Renamed, Inside, AllHomed, Reranked;
    var ents: map<nat, Rec> := t.dirs[d1] - {s1};
    var whole := ents[s1 := t.At(d1, s1)];
    assert whole == t.dirs[d1];
    assert t.dirs[d1 := ents][d1 := whole] == t.dirs;
  }

  lemma ShapeRelabelled(cb: nat, up: Upcase, t: Tree, d1: nat, s1: nat, d2: nat, s2: nat)
    requires cb > 0 && Movable(cb, t, d1, s1, d2, s2) && Shape(cb, up, t, {}, {NodeId(d2, s2)})
    ensures Shape(cb, up, Relabelled(t, d1, s1, d2, s2), {}, {NodeId(d1, s1)})
  {
    hide *;
    MovableParts(cb, t, d1, s1, d2, s2);
    var w := Moved(t, d1, s1, d2, s2);
    ShapeMoved(cb, up, t, d1, s1, d2, s2);
    RelabelledIs(cb, t, d1, s1, d2, s2);
    HasParts(t, d1, s1);
    ShapeHome(cb, up, t, {}, {NodeId(d2, s2)}, d1);
    forall q | q in w.dirs[d1] ensures Up(up, w.dirs[d1][q].entry.name) != Up(up, t.At(d1, s1).entry.name) {
      TwoNames(up, t.dirs[d1], q, s1);
    }
    ShapeReserved(cb, up, w, {}, {}, d1, s1, t.At(d1, s1));
    assert {} + {NodeId(d1, s1)} == {NodeId(d1, s1)};
  }

  lemma MovableParts(cb: nat, t: Tree, d1: nat, s1: nat, d2: nat, s2: nat)
    requires cb > 0 && Movable(cb, t, d1, s1, d2, s2)
    ensures AllHomed(t) && t.Has(d1, s1) && t.Has(d2, s2) && !(d1 == d2 && s1 == s2)
    ensures NodeId(d1, s1) in t.lay.chain && NodeId(d2, s2) !in t.lay.chain && NodeId(d1, s1) in t.lay.heads
    ensures HeadsOk(t.lay) && t.lay.heads.Keys == t.lay.chain.Keys && OwnersOk(t.lay) && d2 in t.rank
  {
    hide Inside, HeadsOk, OwnersOk, AllHomed, NodeOk;
  }

  lemma TwoNames(up: Upcase, ents: map<nat, Rec>, q: nat, s: nat)
    requires NamesApart(up, ents) && q in ents && s in ents && q != s
    ensures Up(up, ents[q].entry.name) != Up(up, ents[s].entry.name)
  {
  }

  /** The bytes of every directory are where they were. */
  lemma RelabelledDisk(count: nat, cb: nat, up: Upcase, data: seq<seq<byte>>, t: Tree, d1: nat, s1: nat, d2: nat,
                       s2: nat)
    requires cb > 0 && Movable(cb, t, d1, s1, d2, s2) && OnDisk(count, cb, up, data, t)
    requires forall e :: e in t.dirs ==> e in t.lay.owner
    ensures OnDisk(count, cb, up, data, Relabelled(t, d1, s1, d2, s2))
  {
    hide *;
    MovableParts(cb, t, d1, s1, d2, s2);
    var t', from, to := Relabelled(t, d1, s1, d2, s2), NodeId(d1, s1), NodeId(d2, s2);
    RelabelledLay(t, d1, s1, d2, s2);
    RenamedOwners(t.lay, from, to);
    DiskInHeap(count, cb, up, data, t);
    RenamedInHeap(count, t.lay, from, to);
    forall e | e in t'.dirs
           ensures e in t'.lay.owner && t.lay.owner[e].id in t.lay.chain
           && DirChain(t', e) == t.lay.chain[t.lay.owner[e].id] {
      RenamedList(t.lay, from, to, e);
      DirChainIs(t', e);
    }
    OnDiskRelaid(count, cb, up, data, t, t');
  }

  lemma RelabelledLay(t: Tree, d1: nat, s1: nat, d2: nat, s2: nat)
    requires AllHomed(t) && t.Has(d1, s1) && t.Has(d2, s2) && d2 in t.rank
    requires NodeId(d1, s1) in t.lay.chain && NodeId(d1, s1) in t.lay.heads
    ensures Relabelled(t, d1, s1, d2, s2).dirs == t.dirs
            && Relabelled(t, d1, s1, d2, s2).lay == Renamed(t.lay, NodeId(d1, s1), NodeId(d2, s2))
  {
    hide Renamed, Reranked;
  }

  lemma DiskInHeap(count: nat, cb: nat, up: Upcase, data: seq<seq<byte>>, t: Tree)
    requires OnDisk(count, cb, up, data, t)
    ensures ChainsInHeap(count, t.lay)
  {
    hide ChainsInHeap, Here;
  }

  lemma RenamedInHeap(count: nat, lay: Layout, from: Id, to: Id)
    requires ChainsInHeap(count, lay) && from in lay.chain && from in lay.heads
    ensures ChainsInHeap(count, Renamed(lay, from, to))
  {
  }

  /** Once the new set is on disk, the old one can give it its clusters. */
  lemma MovableNow(cb: nat, up: Upcase, t0: Tree, mid: Tree, t: Tree, p: Id, d1: nat, s1: nat, d2: nat, s2: nat,
                   rec: Rec)
    requires cb > 0 && Shape(cb, up, t0, {}, {}) && Shape(cb, up, t, {}, {NodeId(d2, s2)})
    requires SameSets(t0, mid) && OthersSame(t0, mid, p) && d2 in mid.dirs && !mid.Has(d2, s2)
             && t == mid.With(d2, s2, rec)
    requires t0.Has(d1, s1) && NodeId(d1, s1) != p && rec.entry == t0.At(d1, s1).entry.(name := rec.entry.name)
    requires NodeId(d2, s2) !in t.lay.chain && HeadsOk(t.lay) && t.lay.heads.Keys == t.lay.chain.Keys
    requires t0.At(d1, s1).entry.IsDirectory() ==> !Within(t0, d2, t0.At(d1, s1).entry.stream.first)
    ensures Movable(cb, t, d1, s1, d2, s2)
  {
    WithFacts(mid, d2, s2, rec);
    assert mid.Has(d1, s1) && mid.At(d1, s1) == t0.At(d1, s1);
    hide Tree.With, SameSet, HeadsOk;
    AllHome(cb, up, t0, {}, {});
    AllHome(cb, up, t, {}, {NodeId(d2, s2)});
    assert t.Has(d1, s1) && t.At(d1, s1) == mid.At(d1, s1);
    ShapeOf(cb, up, t, {}, {NodeId(d2, s2)});
    ShapeNode(cb, up, t, {}, {NodeId(d2, s2)}, d1, s1);
    ShapeHome(cb, up, t, {}, {NodeId(d2, s2)}, d2);
    NodeParts(cb, t, d1, s1);
    hide Shape, NodeOk, OwnersOk, AllHomed;
    if t0.At(d1, s1).entry.IsDirectory() {
      InsideSame(t0, t, d2, t0.At(d1, s1).entry.stream.first);
    }
  }

  lemma AllHome(cb: nat, up: Upcase, t: Tree, extra: set<Id>, skip: set<Id>)
    requires Shape(cb, up, t, extra, skip)
    ensures AllHomed(t)
  {
  }

  // ------------------------------------------------------------------- outcome

  /** `t'` is `t` with the set at `d1`, `s1` now at `d2`, `s2` under another name; a
      directory's own length aside, every other set is as it was. */
  ghost predicate Moves(t: Tree, t': Tree, d1: nat, s1: nat, d2: nat, s2: nat, name: seq<unit>) {
    && t.Has(d1, s1) && !t.Has(d2, s2) && t'.Has(d2, s2) && t'.dirs.Keys == t.dirs.Keys
    && t'.At(d2, s2).entry == t.At(d1, s1).entry.(name := name)
    && (forall x, q :: t'.Has(x, q) <==> (t.Has(x, q) && !(x == d1 && q == s1)) || (x == d2 && q == s2))
    && (forall x, q :: t.Has(x, q) && t'.Has(x, q) ==> SameSet(t.At(x, q), t'.At(x, q)))
  }

  lemma MovesMake(cb: nat, t0: Tree, mid: Tree, t: Tree, d1: nat, s1: nat, d2: nat, s2: nat, rec: Rec)
    requires cb > 0 && Movable(cb, t, d1, s1, d2, s2) && SameSets(t0, mid) && t0.Has(d1, s1)
    requires d2 in mid.dirs && !mid.Has(d2, s2) && t == mid.With(d2, s2, rec)
    requires rec.entry == t0.At(d1, s1).entry.(name := rec.entry.name)
    ensures Moves(t0, Moved(t, d1, s1, d2, s2), d1, s1, d2, s2, rec.entry.name)
  {
    hide *;
    MovableParts(cb, t, d1, s1, d2, s2);
    var w := Moved(t, d1, s1, d2, s2);
    MovedSets(cb, t, d1, s1, d2, s2, d2, s2);
    WithSets(mid, d2, s2, rec, d2, s2);
    WithSets(mid, d2, s2, rec, d1, s1);
    SetsAt(t0, mid, d1, s1);
    SetsAt(t0, mid, d2, s2);
    forall x, q
      ensures w.Has(x, q) <==> (t0.Has(x, q) && !(x == d1 && q == s1)) || (x == d2 && q == s2)
      ensures t0.Has(x, q) && w.Has(x, q) ==> SameSet(t0.At(x, q), w.At(x, q))
    {
      MovedSets(cb, t, d1, s1, d2, s2, x, q);
      WithSets(mid, d2, s2, rec, x, q);
      SetsAt(t0, mid, x, q);
    }
    MovesMade(t0, w, d1, s1, d2, s2, rec.entry.name);
  }

  lemma MovesMade(t: Tree, w: Tree, d1: nat, s1: nat, d2: nat, s2: nat, name: seq<unit>)
    requires t.Has(d1, s1) && !t.Has(d2, s2) && w.Has(d2, s2) && w.dirs.Keys == t.dirs.Keys
    requires w.At(d2, s2).entry == t.At(d1, s1).entry.(name := name)
    requires forall x, q :: w.Has(x, q) <==> (t.Has(x, q) && !(x == d1 && q == s1)) || (x == d2 && q == s2)
    requires forall x, q :: t.Has(x, q) && w.Has(x, q) ==> SameSet(t.At(x, q), w.At(x, q))
    ensures Moves(t, w, d1, s1, d2, s2, name)
  {
    hide SameSet, Tree.Has, Tree.At;
  }

  lemma MovedSets(cb: nat, t: Tree, d1: nat, s1: nat, d2: nat, s2: nat, x: nat, q: nat)
    requires cb > 0 && Movable(cb, t, d1, s1, d2, s2)
    ensures var w := Moved(t, d1, s1, d2, s2);
            && w.dirs.Keys == t.dirs.Keys && t.Has(d2, s2) && t.Has(d1, s1) && !(d1 == d2 && s1 == s2)
            && (w.Has(x, q) <==> t.Has(x, q) && !(x == d1 && q == s1))
            && (w.Has(x, q) ==> w.At(x, q) == t.At(x, q))
  {
    MovedFacts(cb, t, d1, s1, d2, s2);
    MovableParts(cb, t, d1, s1, d2, s2);
    hide Moved, Movable, Tree.Has, Tree.At;
  }

  lemma WithSets(t: Tree, d: nat, s: nat, rec: Rec, x: nat, q: nat)
    requires d in t.dirs
    ensures var w := t.With(d, s, rec);
            && w.dirs.Keys == t.dirs.Keys && w.Has(d, s) && w.At(d, s) == rec
            && (w.Has(x, q) <==> t.Has(x, q) || (x == d && q == s))
            && (t.Has(x, q) && (x != d || q != s) ==> w.At(x, q) == t.At(x, q))
  {
    WithFacts(t, d, s, rec);
  }

  lemma SetsAt(t: Tree, w: Tree, x: nat, q: nat)
    requires SameSets(t, w)
    ensures w.dirs.Keys == t.dirs.Keys && (w.Has(x, q) <==> t.Has(x, q))
            && (t.Has(x, q) ==> SameSet(t.At(x, q), w.At(x, q)))
  {
    hide SameSet;
  }

  /** A cluster's list is the same list under another name. */
  lemma RenamedList(lay: Layout, from: Id, to: Id, c: nat)
    requires OwnersOk(lay) && lay.heads.Keys == lay.chain.Keys && from in lay.chain && to !in lay.chain
             && c in lay.owner
    ensures var lay' := Renamed(lay, from, to);
            && c in lay'.owner && lay'.owner[c].id in lay'.chain && lay'.owner[c].id in lay'.heads
            && lay.owner[c].id in lay.chain && lay.owner[c].id in lay.heads
            && lay'.chain[lay'.owner[c].id] == lay.chain[lay.owner[c].id]
            && lay'.heads[lay'.owner[c].id] == lay.heads[lay.owner[c].id]
  {
  }

  /** Directories keep their clusters, whatever their sets are called. */
  lemma MovedEvolves(cb: nat, t: Tree, d1: nat, s1: nat, d2: nat, s2: nat)
    requires cb > 0 && Movable(cb, t, d1, s1, d2, s2)
    requires forall e :: e in t.dirs ==> e in t.lay.owner
    ensures Evolves(t, Moved(t, d1, s1, d2, s2))
  {
    hide *;
    MovableParts(cb, t, d1, s1, d2, s2);
    MovedFacts(cb, t, d1, s1, d2, s2);
    var w, from, to := Moved(t, d1, s1, d2, s2), NodeId(d1, s1), NodeId(d2, s2);
    forall d | d in t.dirs
      ensures d in w.lay.owner && w.lay.owner[d].id in w.lay.chain && w.lay.owner[d].id in w.lay.heads
      ensures t.lay.owner[d].id in t.lay.chain && t.lay.owner[d].id in t.lay.heads
      ensures w.lay.chain[w.lay.owner[d].id] == t.lay.chain[t.lay.owner[d].id]
      ensures w.lay.heads[w.lay.owner[d].id] == t.lay.heads[t.lay.owner[d].id]
    {
      RenamedList(t.lay, from, to, d);
    }
    EvolvesAside(t, w);
  }

  /** The moved file reads the same under its new name, and so does every other. */
  lemma MovedFiles(count: nat, cb: nat, up: Upcase, t0: Tree, data0: seq<seq<byte>>, lay1: Layout,
                   data1: seq<seq<byte>>, w: Tree, data: seq<seq<byte>>,
                   d1: nat, s1: nat, d2: nat, s2: nat, name: seq<unit>)
    requires DataOk(count, cb, data0) && DataOk(count, cb, data1) && DataOk(count, cb, data)
             && ChainsInHeap(count, t0.lay)
    requires ChainsInHeap(count, lay1) && ChainsInHeap(count, w.lay)
    requires cb > 0 && Shape(cb, up, t0, {}, {}) && Moves(t0, w, d1, s1, d2, s2, name)
    requires StreamsKept(t0.lay, data0, lay1, data1, DirIds(t0))
    requires NodeId(d1, s1) in lay1.chain && NodeId(d1, s1) in lay1.heads && NodeId(d2, s2) !in lay1.chain
             && NodeId(d2, s2) !in lay1.heads
    requires w.lay == Renamed(lay1, NodeId(d1, s1), NodeId(d2, s2))
             && StreamsKept(w.lay, data1, w.lay, data, DirIds(t0))
    requires NodeId(d2, s2) !in DirIds(t0)
    ensures FilesKept(count, cb, t0, data0, w, data, {})
    ensures !t0.At(d1, s1).entry.IsDirectory() ==>
            FileIn(count, cb, data, w, d2, s2) == FileIn(count, cb, data0, t0, d1, s1)
  {
    NotDirIds(cb, up, t0, {}, {});
    KeptRenamed(count, lay1, data1, NodeId(d1, s1), NodeId(d2, s2));
    KeptTwice(t0.lay, data0, lay1, data1, w.lay, data1, DirIds(t0), {NodeId(d1, s1)});
    KeptTwice(t0.lay, data0, w.lay, data1, w.lay, data, DirIds(t0) + {NodeId(d1, s1)}, DirIds(t0));
    MovedOthers(count, cb, up, t0, data0, w, data, d1, s1, d2, s2, name, DirIds(t0) + {NodeId(d1, s1)} + DirIds(t0));
    if !t0.At(d1, s1).entry.IsDirectory() {
      MovedFile(count, cb, up, t0, data0, lay1, data1, w, data, d1, s1, d2, s2, name);
    }
  }

  lemma MovedOthers(count: nat, cb: nat, up: Upcase, t: Tree, data: seq<seq<byte>>, w: Tree, data': seq<seq<byte>>,
                    d1: nat, s1: nat, d2: nat, s2: nat, name: seq<unit>, touched: set<Id>)
    requires DataOk(count, cb, data) && DataOk(count, cb, data') && ChainsInHeap(count, t.lay)
    requires cb > 0 && Shape(cb, up, t, {}, {}) && Moves(t, w, d1, s1, d2, s2, name)
    requires touched == DirIds(t) + {NodeId(d1, s1)} + DirIds(t) && StreamsKept(t.lay, data, w.lay, data', touched)
    ensures FilesKept(count, cb, t, data, w, data', {})
  {
    NotDirIds(cb, up, t, {}, {});
    hide Shape, StreamsKept, DirIds, NodeOk;
    forall e, q | t.Has(e, q) && w.Has(e, q) && !t.At(e, q).entry.IsDirectory()
      ensures NodeId(e, q) in t.lay.chain && NodeId(e, q) !in touched
      ensures w.At(e, q).entry.stream == t.At(e, q).entry.stream
    {
      ShapeNode(cb, up, t, {}, {}, e, q);
      NodeParts(cb, t, e, q);
      assert SameSet(t.At(e, q), w.At(e, q));
    }
    FilesFollow(count, cb, t, data, w, data', touched, {});
  }

  lemma MovedFile(count: nat, cb: nat, up: Upcase, t: Tree, data0: seq<seq<byte>>, lay1: Layout, data1: seq<seq<byte>>,
                  w: Tree, data: seq<seq<byte>>,
                  d1: nat, s1: nat, d2: nat, s2: nat, name: seq<unit>)
    requires DataOk(count, cb, data0) && DataOk(count, cb, data1) && DataOk(count, cb, data)
             && ChainsInHeap(count, t.lay)
    requires ChainsInHeap(count, lay1) && ChainsInHeap(count, w.lay)
    requires cb > 0 && Shape(cb, up, t, {}, {}) && Moves(t, w, d1, s1, d2, s2, name)
             && !t.At(d1, s1).entry.IsDirectory()
    requires StreamsKept(t.lay, data0, lay1, data1, DirIds(t))
    requires NodeId(d1, s1) in lay1.chain && NodeId(d1, s1) in lay1.heads && NodeId(d2, s2) !in lay1.chain
    requires w.lay == Renamed(lay1, NodeId(d1, s1), NodeId(d2, s2)) && StreamsKept(w.lay, data1, w.lay, data, DirIds(t))
    requires NodeId(d2, s2) !in DirIds(t)
    ensures FileIn(count, cb, data, w, d2, s2) == FileIn(count, cb, data0, t, d1, s1)
  {
    var from, to := NodeId(d1, s1), NodeId(d2, s2);
    NotDirIds(cb, up, t, {}, {});
    ShapeNode(cb, up, t, {}, {}, d1, s1);
    NodeParts(cb, t, d1, s1);
    RenamedFacts(lay1, from, to);
    assert Kept(t.lay, data0, lay1, data1, from);
    assert Kept(w.lay, data1, w.lay, data, to);
    assert Clusters(count, t.lay.chain[from]) && Clusters(count, lay1.chain[from]) && Clusters(count, w.lay.chain[to]);
    hide Shape, StreamsKept, DirIds, NodeOk, Renamed, Kept, ChainsInHeap, DataOk;
    KeptHeld(count, cb, t.lay, data0, lay1, data1, from);
    KeptHeld(count, cb, w.lay, data1, w.lay, data, to);
  }

  /** The identifier `to_node` makes for the new set names it. */
  lemma EnterHandle(count: nat, fat: seq<nat>, cb: nat, t: Tree, parent: Stream, p: Id, slot: nat, size: nat)
    requires |fat| == count + 2 && count < END_OF_CHAIN - 1 && cb > 0 && slot <= MAX_SLOT
    requires t.Has(parent.first, slot) && t.At(parent.first, slot).size == size && PendingId in t.lay.chain
             && PendingId in t.lay.heads && parent.first in t.rank
    requires NodeId(parent.first, slot) !in t.lay.chain && p != PendingId && parent.first in t.dirs
    requires parent.first in t.lay.owner && t.lay.owner[parent.first] == Place(p, 0) && p in t.lay.chain
             && p in t.lay.heads
    requires t.lay.heads[p] == Head(parent.first, parent.contiguous) && t.lay.chain[p] != []
    requires ChainOk(count, fat, parent.first, parent.contiguous, t.lay.chain[p])
    requires (slot + size) * 32 <= |t.lay.chain[p]| * cb
    requires t.At(parent.first, slot).entry.IsDirectory() ==> t.At(parent.first, slot).entry.stream.first !in t.dirs
    ensures Handle(cb, Adopted(t, PendingId, parent.first, slot), EncodeId(parent.first, slot, parent.contiguous))
    ensures parent.first < 0x1_0000_0000
  {
    var d, t' := parent.first, Adopted(t, PendingId, parent.first, slot);
    AdoptedTree(t, d, slot);
    RenamedFacts(t.lay, PendingId, NodeId(d, slot));
    hide Adopted, Renamed, Handle;
    assert InHeap(count, t.lay.chain[p][0]);
    FreshHandle(cb, t', d, slot, parent.contiguous);
  }

  /** The new directory's cluster is all end markers; the others keep theirs. */
  lemma AdoptedDisk(count: nat, cb: nat, up: Upcase, data: seq<seq<byte>>, t: Tree, d: nat, s: nat, stream: Stream)
    requires cb > 0 && Adoptable(cb, t, PendingId, d, s) && OnDisk(count, cb, up, data, t)
             && t.At(d, s).entry.stream == stream
    requires forall e :: e in t.dirs ==> e in t.lay.owner && t.lay.owner[e].id != PendingId
    requires t.At(d, s).entry.IsDirectory() ==>
             Held(count, cb, data, t.lay, PendingId) == Zeros(stream.length) && stream.length % ENTRY_BYTES == 0
    ensures OnDisk(count, cb, up, data, Adopted(t, PendingId, d, s))
  {
    var id, t' := NodeId(d, s), Adopted(t, PendingId, d, s);
    RenamedOwners(t.lay, PendingId, id);
    RenamedFacts(t.lay, PendingId, id);
    hide Renamed, OwnersOk, DirOk, Here;
    RenamedInHeap(count, t.lay, PendingId, id);
    forall e | e in t'.dirs ensures e in t'.lay.owner
      && (e in t.dirs ==> t'.dirs[e] == t.dirs[e] && DirChain(t', e) == t.lay.chain[t.lay.owner[e].id])
      && (e !in t.dirs ==> DirOk(count, cb, up, Held(count, cb, data, t'.lay, t'.lay.owner[e].id), t'.dirs[e]))
    {
      AdoptedDir(count, cb, up, data, t, d, s, stream, e);
    }
    OnDiskRelaid(count, cb, up, data, t, t');
  }

  lemma AdoptedDir(count: nat, cb: nat, up: Upcase, data: seq<seq<byte>>, t: Tree, d: nat, s: nat, stream: Stream,
                   e: nat)
    requires cb > 0 && Adoptable(cb, t, PendingId, d, s) && OnDisk(count, cb, up, data, t)
             && t.At(d, s).entry.stream == stream
    requires forall e :: e in t.dirs ==> e in t.lay.owner && t.lay.owner[e].id != PendingId
    requires t.At(d, s).entry.IsDirectory() ==>
             Held(count, cb, data, t.lay, PendingId) == Zeros(stream.length) && stream.length % ENTRY_BYTES == 0
    requires e in Adopted(t, PendingId, d, s).dirs
    ensures var t' := Adopted(t, PendingId, d, s);
            && e in t'.lay.owner && OwnersOk(t'.lay)
            && (e in t.dirs ==> t'.dirs[e] == t.dirs[e] && DirChain(t', e) == t.lay.chain[t.lay.owner[e].id])
            && (e !in t.dirs ==> DirOk(count, cb, up, Held(count, cb, data, t'.lay, t'.lay.owner[e].id), t'.dirs[e]))
  {
    var id := NodeId(d, s);
    RenamedOwners(t.lay, PendingId, id);
    RenamedFacts(t.lay, PendingId, id);
    RenamedInHeap(count, t.lay, PendingId, id);
    hide Renamed, DirOk, Here;
    if e !in t.dirs {
      assert t.lay.chain[PendingId][0] == e;
      EmptyDirectory(count, cb, up, stream.length);
    }
  }

  lemma EnterEvolves(t: Tree, t3: Tree, d: nat, s: nat)
    requires OwnersOk(t.lay) && t.lay.heads.Keys == t.lay.chain.Keys && PendingId in t.lay.chain
             && NodeId(d, s) !in t.lay.chain
    requires forall e :: e in t.dirs ==> e in t.lay.owner && t.lay.owner[e].id != PendingId
    requires t3.lay == Renamed(t.lay, PendingId, NodeId(d, s))
    requires forall x, q :: t.Has(x, q) ==> t3.Has(x, q) && t3.At(x, q) == t.At(x, q)
    ensures Evolves(t, t3)
  {
    RenamedFacts(t.lay, PendingId, NodeId(d, s));
    hide Renamed, Evolves;
    EvolvesAside(t, t3);
  }

  /** What `remove` has done, counted from the tree it found. */
  lemma RemoveOutcome(t: Tree, t': Tree, lay2: Layout, head: Head, d: nat, s: nat)
    requires Removable(t, d, s) && NodeId(d, s) in t.lay.chain && NodeId(d, s) in t.lay.heads
    requires t'.dirs == Without(t, d, s).dirs && t'.lay == Dropped(lay2, NodeId(d, s))
    requires lay2.chain == t.lay.chain[NodeId(d, s) := []] && lay2.heads == t.lay.heads[NodeId(d, s) := head]
    requires forall e :: e in t'.dirs ==>
             e in t.lay.owner && e in lay2.owner && lay2.owner[e] == t.lay.owner[e] && t.lay.owner[e].id != NodeId(d, s)
    ensures Removes(t, t', d, s) && Evolves(t, t')
  {
    WithoutFacts(t, d, s);
    hide Without;
    var w := Without(t, d, s);
    forall x, q ensures t'.Has(x, q) <==> t.Has(x, q) && (x != d || q != s) {
      assert t'.Has(x, q) <==> w.Has(x, q);
    }
    forall x, q | t'.Has(x, q) ensures t'.At(x, q) == t.At(x, q) {
      assert w.Has(x, q);
    }
    EvolvesAside(t, t');
  }

  lemma RelabelledParts(t: Tree, d1: nat, s1: nat, d2: nat, s2: nat)
    requires AllHomed(t) && t.Has(d1, s1) && t.Has(d2, s2) && d2 in t.rank
    requires NodeId(d1, s1) in t.lay.chain && NodeId(d1, s1) in t.lay.heads
    ensures var t' := Relabelled(t, d1, s1, d2, s2);
            t'.root == t.root && t'.dirs == t.dirs && t'.lay == Renamed(t.lay, NodeId(d1, s1), NodeId(d2, s2))
  {
    hide Renamed, Reranked, AllHomed;
  }

  lemma MovedIs(t: Tree, t': Tree, d1: nat, s1: nat, d2: nat, s2: nat)
    requires AllHomed(t) && t.Has(d1, s1) && t.Has(d2, s2) && d2 in t.rank
    requires NodeId(d1, s1) in t.lay.chain && NodeId(d1, s1) in t.lay.heads
    requires var u := Relabelled(t, d1, s1, d2, s2);
             t'.root == u.root && t'.lay == u.lay && t'.rank == u.rank
               && t'.dirs == u.dirs[d1 := u.dirs[d1] - {s1}] - {}
    ensures t' == Moved(t, d1, s1, d2, s2)
  {
    hide Renamed, Reranked, AllHomed;
    var ents: map<nat, Rec> := t.dirs[d1] - {s1};
    assert t.dirs[d1 := ents] - {} == t.dirs[d1 := ents];
  }

  lemma OpenedRelabelled(cb: nat, t: Tree, s: Stream, p: Id, d1: nat, s1: nat, d2: nat, s2: nat)
    requires cb > 0 && Movable(cb, t, d1, s1, d2, s2) && s.first == d1 && d1 in t.dirs
    requires s.first in t.lay.owner && t.lay.owner[s.first] == Place(p, 0) && p in t.lay.chain && p in t.lay.heads
    ensures var lay1 := Renamed(t.lay, NodeId(d1, s1), NodeId(d2, s2));
            && s.first in lay1.owner && lay1.owner[s.first] == Place(p, 0)
            && p in lay1.chain && p in lay1.heads && lay1.heads[p] == t.lay.heads[p] && lay1.chain[p] == t.lay.chain[p]
  {
    MovableParts(cb, t, d1, s1, d2, s2);
    assert Homed(t, d1);
    NotOwnHolder(t, d1, s1);
    RenamedFacts(t.lay, NodeId(d1, s1), NodeId(d2, s2));
    hide Renamed, Movable, AllHomed, Homed, OwnersOk, HeadsOk;
  }
}
