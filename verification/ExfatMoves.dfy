/** What creating, removing and renaming do to the directory tree. */
module ExfatMoves {
  import opened Common
  import opened ExfatDisk
  import opened ExfatLayout
  import opened ExfatEntries
  import opened ExfatDirectory
  import opened ExfatTree

  /** A cluster list starts where its stream says. */
  ghost predicate HeadsOk(lay: Layout) {
    forall id :: id in lay.chain ==>
           id in lay.heads && (lay.chain[id] != [] ==> lay.chain[id][0] == lay.heads[id].first)
  }

  // ------------------------------------------- a set written, not yet accounted for

  lemma WithFacts(t: Tree, d: nat, s: nat, rec: Rec)
    requires d in t.dirs
    ensures var t' := t.With(d, s, rec);
            && t'.dirs.Keys == t.dirs.Keys && t'.root == t.root && t'.lay == t.lay && t'.rank == t.rank
            && (forall e, q :: t'.Has(e, q) <==> t.Has(e, q) || (e == d && q == s))
            && (forall e, q :: t.Has(e, q) && (e != d || q != s) ==> t'.At(e, q) == t.At(e, q))
            && t'.At(d, s) == rec
            && (forall e :: e in t.dirs && e != d ==> t'.dirs[e] == t.dirs[e])
  {
  }

  lemma ShapeReserved(cb: nat, up: Upcase, t: Tree, extra: set<Id>, skip: set<Id>, d: nat, s: nat, rec: Rec)
    requires cb > 0 && Shape(cb, up, t, extra, skip) && d in t.dirs && !t.Has(d, s)
    requires forall q :: q in t.dirs[d] ==> Up(up, t.dirs[d][q].entry.name) != Up(up, rec.entry.name)
    ensures Shape(cb, up, t.With(d, s, rec), extra, skip + {NodeId(d, s)})
    ensures NodeId(d, s) !in extra ==> NodeId(d, s) !in t.lay.chain
  {
    hide Shape, NodeOk, Homed, NamesApart, Known, RootOk, OwnersOk, Tree.With;
    if NodeId(d, s) in t.lay.chain { ShapeKnown(cb, up, t, extra, skip, NodeId(d, s)); NotKnown(t, extra, d, s); }
    var t', skip' := t.With(d, s, rec), skip + {NodeId(d, s)};
    WithFacts(t, d, s, rec);
    forall e, q | t'.Has(e, q) && NodeId(e, q) !in skip' ensures NodeOk(cb, t', e, q) {
      ShapeNode(cb, up, t, extra, skip, e, q);
      ReservedNode(cb, t, d, s, rec, e, q);
    }
    forall e | e in t'.dirs ensures Homed(t', e) && NamesApart(up, t'.dirs[e]) {
      ShapeHome(cb, up, t, extra, skip, e);
      ReservedHome(up, t, d, s, rec, e);
    }
    forall i | i in t'.lay.chain ensures Known(t', extra, i) {
      ShapeKnown(cb, up, t, extra, skip, i);
      ReservedKnown(t, extra, d, s, rec, i);
    }
    ShapeOf(cb, up, t, extra, skip);
    ReservedRoot(cb, t, d, s, rec);
    ShapeMade(cb, up, t', extra, skip');
  }

  lemma NotKnown(t: Tree, extra: set<Id>, d: nat, s: nat)
    requires Known(t, extra, NodeId(d, s)) && !t.Has(d, s)
    ensures NodeId(d, s) in extra
  {
  }

  lemma ReservedNode(cb: nat, t: Tree, d: nat, s: nat, rec: Rec, e: nat, q: nat)
    requires cb > 0 && d in t.dirs && t.Has(e, q) && (e != d || q != s) && NodeOk(cb, t, e, q)
    ensures t.With(d, s, rec).Has(e, q) && NodeOk(cb, t.With(d, s, rec), e, q)
  {
    hide Tree.With, Sized, DirectoryStream;
    WithFacts(t, d, s, rec);
  }

  lemma ReservedHome(up: Upcase, t: Tree, d: nat, s: nat, rec: Rec, e: nat)
    requires d in t.dirs && !t.Has(d, s) && e in t.dirs && Homed(t, e) && NamesApart(up, t.dirs[e])
    requires forall q :: q in t.dirs[d] ==> Up(up, t.dirs[d][q].entry.name) != Up(up, rec.entry.name)
    ensures var t' := t.With(d, s, rec);
            e in t'.dirs && Homed(t', e) && NamesApart(up, t'.dirs[e])
  {
    hide Tree.With, Up;
    var t' := t.With(d, s, rec);
    WithFacts(t, d, s, rec);
    if e == d {
      forall q | q in t'.dirs[d] ensures q == s || (q in t.dirs[d] && t'.dirs[d][q] == t.dirs[d][q]) {
        assert t'.Has(d, q);
        assert q != s ==> t'.At(d, q) == t.At(d, q);
      }
      assert t'.dirs[d][s] == t'.At(d, s) == rec;
    }
  }

  lemma ReservedKnown(t: Tree, extra: set<Id>, d: nat, s: nat, rec: Rec, i: Id)
    requires d in t.dirs && Known(t, extra, i)
    ensures Known(t.With(d, s, rec), extra, i)
  {
  }

  lemma ReservedRoot(cb: nat, t: Tree, d: nat, s: nat, rec: Rec)
    requires cb > 0 && d in t.dirs && RootOk(cb, t)
    ensures RootOk(cb, t.With(d, s, rec))
  {
  }

  // ----------------------------------------------------- a stream given to its set

  lemma RenamedFacts(lay: Layout, from: Id, to: Id)
    requires from in lay.chain && from in lay.heads && to !in lay.chain && from != to
    ensures var lay' := Renamed(lay, from, to);
            && to in lay'.chain && lay'.chain[to] == lay.chain[from]
            && to in lay'.heads && lay'.heads[to] == lay.heads[from]
            && from !in lay'.chain
            && (forall i :: i in lay'.chain <==> i == to || (i in lay.chain && i != from))
            && (forall i :: i in lay.chain && i != from ==> lay'.chain[i] == lay.chain[i])
            && (forall i :: i in lay.heads && i != from && i != to ==> i in lay'.heads && lay'.heads[i] == lay.heads[i])
            && (forall c :: c in lay.owner ==>
                  && c in lay'.owner
                  && lay'.owner[c] == if lay.owner[c].id == from then Place(to, lay.owner[c].index) else lay.owner[c])
  {
  }

  /** The tree once `from`'s clusters belong to the set at `d`, `s`; a new directory
      starts empty, below the one that holds it. */
  ghost function Adopted(t: Tree, from: Id, d: nat, s: nat): Tree
    requires t.Has(d, s) && from in t.lay.chain && from in t.lay.heads && d in t.rank
  {
    var t1 := t.(lay := Renamed(t.lay, from, NodeId(d, s)));
    var e := t.At(d, s).entry;
    if e.IsDirectory() then
      t1.(dirs := t.dirs[e.stream.first := map[]], rank := t.rank[e.stream.first := t.rank[d] + 1])
    else t1
  }

  ghost predicate Adoptable(cb: nat, t: Tree, from: Id, d: nat, s: nat)
    requires cb > 0
  {
    && t.Has(d, s) && from == PendingId && NodeId(d, s) !in t.lay.chain && d in t.rank
    && Sized(cb, t.lay, from, t.At(d, s).entry.stream) && t.lay.heads.Keys == t.lay.chain.Keys
    && var e := t.At(d, s).entry;
    && (e.IsDirectory() ==>
          && DirectoryStream(cb, e.stream) && e.stream.first !in t.dirs
          && t.lay.chain[from] != [] && t.lay.chain[from][0] == e.stream.first)
  }

  lemma ShapeAdopted(cb: nat, up: Upcase, t: Tree, from: Id, d: nat, s: nat)
    requires cb > 0 && Adoptable(cb, t, from, d, s) && Shape(cb, up, t, {from}, {NodeId(d, s)})
    ensures Shape(cb, up, Adopted(t, from, d, s), {}, {})
  {
    hide Shape, NodeOk, Homed, NamesApart, Known, RootOk, OwnersOk, Adopted, Renamed;
    var t' := Adopted(t, from, d, s);
    AdoptedParts(t, from, d, s);
    forall e, q | t'.Has(e, q) ensures NodeOk(cb, t', e, q) {
      AdoptedHas(t, from, d, s, e, q);
      if NodeId(e, q) != NodeId(d, s) { ShapeNode(cb, up, t, {from}, {NodeId(d, s)}, e, q); }
      AdoptedNode(cb, t, from, d, s, e, q);
    }
    forall e | e in t'.dirs ensures Homed(t', e) && NamesApart(up, t'.dirs[e]) {
      ShapeOf(cb, up, t, {from}, {NodeId(d, s)});
      if e in t.dirs { ShapeHome(cb, up, t, {from}, {NodeId(d, s)}, e); }
      AdoptedHome(cb, up, t, from, d, s, e);
    }
    forall i | i in t'.lay.chain ensures Known(t', {}, i) {
      if i in t.lay.chain { ShapeKnown(cb, up, t, {from}, {NodeId(d, s)}, i); }
      AdoptedKnown(cb, t, from, d, s, i);
    }
    ShapeOf(cb, up, t, {from}, {NodeId(d, s)});
    AdoptedRoot(cb, t, from, d, s);
    ShapeMade(cb, up, t', {}, {});
  }

  lemma AdoptedParts(t: Tree, from: Id, d: nat, s: nat)
    requires t.Has(d, s) && from in t.lay.chain && from in t.lay.heads && d in t.rank
    ensures Adopted(t, from, d, s).lay == Renamed(t.lay, from, NodeId(d, s))
    ensures Adopted(t, from, d, s).root == t.root
    ensures forall e :: e in Adopted(t, from, d, s).dirs ==>
            e in t.dirs || (t.At(d, s).entry.IsDirectory() && e == t.At(d, s).entry.stream.first)
  {
  }

  lemma AdoptedHas(t: Tree, from: Id, d: nat, s: nat, e: nat, q: nat)
    requires t.Has(d, s) && from in t.lay.chain && from in t.lay.heads && d in t.rank
    requires Adopted(t, from, d, s).Has(e, q)
    ensures t.Has(e, q) && Adopted(t, from, d, s).At(e, q) == t.At(e, q)
  {
  }

  lemma AdoptedNode(cb: nat, t: Tree, from: Id, d: nat, s: nat, e: nat, q: nat)
    requires cb > 0 && Adoptable(cb, t, from, d, s) && t.Has(e, q)
    requires NodeId(e, q) != NodeId(d, s) ==> NodeOk(cb, t, e, q)
    requires Adopted(t, from, d, s).Has(e, q)
    ensures NodeOk(cb, Adopted(t, from, d, s), e, q)
  {
    hide Renamed, DirectoryStream;
    RenamedFacts(t.lay, from, NodeId(d, s));
  }

  lemma AdoptedHome(cb: nat, up: Upcase, t: Tree, from: Id, d: nat, s: nat, e: nat)
    requires cb > 0 && Adoptable(cb, t, from, d, s) && OwnersOk(t.lay)
    requires e in t.dirs ==> Homed(t, e) && NamesApart(up, t.dirs[e])
    requires e in Adopted(t, from, d, s).dirs
    ensures var t' := Adopted(t, from, d, s);
            Homed(t', e) && NamesApart(up, t'.dirs[e])
  {
    hide Renamed, DirectoryStream, NamesApart;
    RenamedFacts(t.lay, from, NodeId(d, s));
    assert NamesApart(up, map[]) by { NoNames(up); }
    if e !in t.dirs {
      assert t.lay.chain[from][0] == e;
    }
  }

  lemma NoNames(up: Upcase)
    ensures NamesApart(up, map[])
  {
  }

  lemma AdoptedKnown(cb: nat, t: Tree, from: Id, d: nat, s: nat, i: Id)
    requires cb > 0 && Adoptable(cb, t, from, d, s)
    requires i in t.lay.chain ==> Known(t, {from}, i)
    requires i in Adopted(t, from, d, s).lay.chain
    ensures Known(Adopted(t, from, d, s), {}, i)
  {
    hide Renamed;
    RenamedFacts(t.lay, from, NodeId(d, s));
  }

  lemma AdoptedRoot(cb: nat, t: Tree, from: Id, d: nat, s: nat)
    requires cb > 0 && Adoptable(cb, t, from, d, s) && RootOk(cb, t) && OwnersOk(t.lay)
    ensures RootOk(cb, Adopted(t, from, d, s)) && OwnersOk(Adopted(t, from, d, s).lay)
  {
    RenamedOwners(t.lay, from, NodeId(d, s));
    hide Renamed, DirectoryStream, OwnersOk;
    RenamedFacts(t.lay, from, NodeId(d, s));
  }

  // -------------------------------------------------------------- a set removed

  /** The tree without the set at `d`, `s`, and without the directory it names. */
  ghost function Without(t: Tree, d: nat, s: nat): Tree
    requires t.Has(d, s)
  {
    var e := t.At(d, s).entry;
    var ents: map<nat, Rec> := t.dirs[d] - {s};
    var dirs := t.dirs[d := ents];
    t.(dirs := if e.IsDirectory() then dirs - {e.stream.first} else dirs)
  }

  ghost predicate Removable(t: Tree, d: nat, s: nat) {
    && t.Has(d, s) && HeadsOk(t.lay)
    && var e := t.At(d, s).entry;
    && (e.IsDirectory() ==> e.stream.first in t.dirs && t.dirs[e.stream.first] == map[])
  }

  lemma ShapeRemoved(cb: nat, up: Upcase, t: Tree, d: nat, s: nat)
    requires cb > 0 && Removable(t, d, s) && Shape(cb, up, t, {}, {})
    ensures Shape(cb, up, Without(t, d, s), {NodeId(d, s)}, {})
  {
    hide Shape, NodeOk, Homed, NamesApart, Known, RootOk, OwnersOk, Without, HeadsOk;
    var t' := Without(t, d, s);
    WithoutFacts(t, d, s);
    ShapeOf(cb, up, t, {}, {});
    ShapeNode(cb, up, t, {}, {}, d, s);
    forall e, q | t'.Has(e, q) ensures NodeOk(cb, t', e, q) {
      ShapeNode(cb, up, t, {}, {}, e, q);
      WithoutNode(cb, t, d, s, e, q);
    }
    forall e | e in t'.dirs ensures Homed(t', e) && NamesApart(up, t'.dirs[e]) {
      ShapeHome(cb, up, t, {}, {}, e);
      WithoutHome(cb, up, t, d, s, e);
    }
    forall i | i in t'.lay.chain ensures Known(t', {NodeId(d, s)}, i) {
      ShapeKnown(cb, up, t, {}, {}, i);
      WithoutKnown(t, d, s, i);
    }
    WithoutRoot(cb, t, d, s);
    ShapeMade(cb, up, t', {NodeId(d, s)}, {});
  }

  lemma WithoutFacts(t: Tree, d: nat, s: nat)
    requires Removable(t, d, s)
    ensures var t', m := Without(t, d, s), t.At(d, s).entry.stream.first;
            && t'.root == t.root && t'.lay == t.lay && t'.rank == t.rank
            && (forall e :: e in t'.dirs <==> e in t.dirs && !(t.At(d, s).entry.IsDirectory() && e == m))
            && (forall e, q :: t'.Has(e, q) <==> t.Has(e, q) && !(e == d && q == s) && e in t'.dirs)
            && (forall e, q :: t'.Has(e, q) ==> t'.At(e, q) == t.At(e, q))
  {
  }

  /** Two directory entries never name the same directory. */
  lemma OneName(cb: nat, t: Tree, d: nat, s: nat, e: nat, q: nat)
    requires cb > 0 && OwnersOk(t.lay) && HeadsOk(t.lay)
    requires t.Has(d, s) && NodeOk(cb, t, d, s) && t.At(d, s).entry.IsDirectory()
    requires t.Has(e, q) && NodeOk(cb, t, e, q) && t.At(e, q).entry.IsDirectory()
    requires t.At(d, s).entry.stream.first == t.At(e, q).entry.stream.first
    ensures e == d && q == s
  {
    if t.At(d, s).entry.IsDirectory() { NonEmptyChain(cb, t.lay, NodeId(d, s), t.At(d, s).entry.stream); }
    NonEmptyChain(cb, t.lay, NodeId(e, q), t.At(e, q).entry.stream);
    assert t.lay.chain[NodeId(d, s)][0] == t.lay.chain[NodeId(e, q)][0];
  }

  lemma NonEmptyChain(cb: nat, lay: Layout, id: Id, s: Stream)
    requires cb > 0 && Sized(cb, lay, id, s) && DirectoryStream(cb, s) && HeadsOk(lay)
    ensures lay.chain[id] != [] && lay.chain[id][0] == s.first
  {
    WholeClusters(s.length, cb);
  }

  lemma WithoutNode(cb: nat, t: Tree, d: nat, s: nat, e: nat, q: nat)
    requires cb > 0 && Removable(t, d, s) && OwnersOk(t.lay) && NodeOk(cb, t, d, s)
    requires t.Has(e, q) && NodeOk(cb, t, e, q) && Without(t, d, s).Has(e, q)
    ensures NodeOk(cb, Without(t, d, s), e, q)
  {
    WithoutFacts(t, d, s);
    hide Without, Sized, DirectoryStream, OwnersOk, HeadsOk;
    if t.At(d, s).entry.IsDirectory() && t.At(e, q).entry.IsDirectory()
      && t.At(d, s).entry.stream.first == t.At(e, q).entry.stream.first {
      OneName(cb, t, d, s, e, q);
    }
  }

  lemma WithoutHome(cb: nat, up: Upcase, t: Tree, d: nat, s: nat, e: nat)
    requires cb > 0 && Removable(t, d, s) && OwnersOk(t.lay) && NodeOk(cb, t, d, s)
    requires e in t.dirs && Homed(t, e) && NamesApart(up, t.dirs[e]) && e in Without(t, d, s).dirs
    ensures Homed(Without(t, d, s), e) && NamesApart(up, Without(t, d, s).dirs[e])
  {
    WithoutFacts(t, d, s);
    var t', p := Without(t, d, s), t.lay.owner[e].id;
    assert t.lay.chain[p][0] == e;
    hide Without, DirectoryStream, OwnersOk, Up;
    if t.At(d, s).entry.IsDirectory() { NonEmptyChain(cb, t.lay, NodeId(d, s), t.At(d, s).entry.stream); }
    if p.NodeId? {
      assert t.Has(p.dir, p.slot);
    }
    forall q | q in t'.dirs[e] ensures q in t.dirs[e] && t'.dirs[e][q] == t.dirs[e][q] {
      assert t'.Has(e, q) && t'.At(e, q) == t.At(e, q);
    }
  }

  lemma WithoutKnown(t: Tree, d: nat, s: nat, i: Id)
    requires Removable(t, d, s) && Known(t, {}, i)
    ensures Known(Without(t, d, s), {NodeId(d, s)}, i)
  {
    WithoutFacts(t, d, s);
    hide Without;
  }

  lemma WithoutRoot(cb: nat, t: Tree, d: nat, s: nat)
    requires cb > 0 && Removable(t, d, s) && OwnersOk(t.lay) && NodeOk(cb, t, d, s) && RootOk(cb, t)
    ensures RootOk(cb, Without(t, d, s))
  {
    WithoutFacts(t, d, s);
    NonEmptyChain(cb, t.lay, RootId, t.root);
    if t.At(d, s).entry.IsDirectory() {
      NonEmptyChain(cb, t.lay, NodeId(d, s), t.At(d, s).entry.stream);
      assert t.lay.chain[RootId][0] != t.lay.chain[NodeId(d, s)][0];
    }
    hide Without;
  }

  /** The removed set's cluster list, now empty, is forgotten. */
  lemma ShapeForgotten(cb: nat, up: Upcase, t: Tree, id: Id)
    requires cb > 0 && Shape(cb, up, t, {id}, {}) && id in t.lay.chain && t.lay.chain[id] == []
    requires !Known(t, {}, id)
    ensures Shape(cb, up, t.(lay := Dropped(t.lay, id)), {}, {})
  {
    hide Shape, NodeOk, Homed, NamesApart, Known, RootOk, OwnersOk;
    var t' := t.(lay := Dropped(t.lay, id));
    ShapeOf(cb, up, t, {id}, {});
    forall e, q | t'.Has(e, q) ensures NodeOk(cb, t', e, q) {
      ShapeNode(cb, up, t, {id}, {}, e, q);
      DroppedNode(cb, t, id, e, q);
    }
    forall e | e in t'.dirs ensures Homed(t', e) && NamesApart(up, t'.dirs[e]) {
      ShapeHome(cb, up, t, {id}, {}, e);
      DroppedHome(t, id, e);
    }
    forall i | i in t'.lay.chain ensures Known(t', {}, i) {
      ShapeKnown(cb, up, t, {id}, {}, i);
      DroppedKnown(t, id, i);
    }
    DroppedRoot(cb, t, id);
    ShapeMade(cb, up, t', {}, {});
  }

  lemma DroppedNode(cb: nat, t: Tree, id: Id, e: nat, q: nat)
    requires cb > 0 && t.Has(e, q) && NodeOk(cb, t, e, q) && !Known(t, {}, id)
    ensures NodeOk(cb, t.(lay := Dropped(t.lay, id)), e, q)
  {
  }

  lemma DroppedHome(t: Tree, id: Id, e: nat)
    requires Homed(t, e)
    ensures Homed(t.(lay := Dropped(t.lay, id)), e)
  {
  }

  lemma DroppedKnown(t: Tree, id: Id, i: Id)
    requires Known(t, {id}, i) && i in Dropped(t.lay, id).chain
    ensures Known(t.(lay := Dropped(t.lay, id)), {}, i)
  {
  }

  lemma DroppedRoot(cb: nat, t: Tree, id: Id)
    requires cb > 0 && RootOk(cb, t) && OwnersOk(t.lay) && !Known(t, {}, id) && id in t.lay.chain
             && t.lay.chain[id] == []
    ensures RootOk(cb, t.(lay := Dropped(t.lay, id))) && OwnersOk(Dropped(t.lay, id))
  {
  }

  /** A new, empty cluster list in hand. */
  lemma ShapeAdded(cb: nat, up: Upcase, t: Tree)
    requires cb > 0 && Shape(cb, up, t, {}, {})
    ensures PendingId !in t.lay.chain
    ensures Shape(cb, up, t.(lay := Added(t.lay, PendingId)), {PendingId}, {})
  {
    hide Shape, NodeOk, Homed, NamesApart, Known, RootOk, OwnersOk;
    var t' := t.(lay := Added(t.lay, PendingId));
    ShapeOf(cb, up, t, {}, {});
    if PendingId in t.lay.chain { ShapeKnown(cb, up, t, {}, {}, PendingId); PendingUnknown(t); }
    forall e, q | t'.Has(e, q) ensures NodeOk(cb, t', e, q) {
      ShapeNode(cb, up, t, {}, {}, e, q);
      AddedNode(cb, t, e, q);
    }
    forall e | e in t'.dirs ensures Homed(t', e) && NamesApart(up, t'.dirs[e]) {
      ShapeHome(cb, up, t, {}, {}, e);
      AddedHome(t, e);
    }
    forall i | i in t'.lay.chain ensures Known(t', {PendingId}, i) {
      if i != PendingId { ShapeKnown(cb, up, t, {}, {}, i); }
      AddedKnown(t, i);
    }
    AddedRoot(cb, t);
    ShapeMade(cb, up, t', {PendingId}, {});
  }

  lemma PendingUnknown(t: Tree)
    ensures !Known(t, {}, PendingId)
  {
  }

  lemma AddedNode(cb: nat, t: Tree, e: nat, q: nat)
    requires cb > 0 && t.Has(e, q) && NodeOk(cb, t, e, q)
    ensures NodeOk(cb, t.(lay := Added(t.lay, PendingId)), e, q)
  {
  }

  lemma AddedHome(t: Tree, e: nat)
    requires Homed(t, e)
    ensures Homed(t.(lay := Added(t.lay, PendingId)), e)
  {
  }

  lemma AddedKnown(t: Tree, i: Id)
    requires i == PendingId || Known(t, {}, i)
    ensures Known(t.(lay := Added(t.lay, PendingId)), {PendingId}, i)
  {
  }

  lemma AddedRoot(cb: nat, t: Tree)
    requires cb > 0 && RootOk(cb, t) && OwnersOk(t.lay) && PendingId !in t.lay.chain
    ensures RootOk(cb, t.(lay := Added(t.lay, PendingId))) && OwnersOk(Added(t.lay, PendingId))
  {
  }

  /** A set that is not there need not be skipped. */
  lemma ShapeUnskipGone(cb: nat, up: Upcase, t: Tree, extra: set<Id>, d: nat, s: nat)
    requires Shape(cb, up, t, extra, {NodeId(d, s)}) && !t.Has(d, s)
    ensures Shape(cb, up, t, extra, {})
  {
    hide NodeOk, Homed, NamesApart, Known, RootOk, OwnersOk;
  }

  /** The list in hand is nobody's set. */
  lemma ShapeUnpend(cb: nat, up: Upcase, t: Tree, extra: set<Id>)
    requires Shape(cb, up, t, extra, {PendingId})
    ensures Shape(cb, up, t, extra, {})
  {
    hide NodeOk, Homed, NamesApart, Known, RootOk, OwnersOk;
  }

  lemma AddedDropped(lay: Layout)
    requires PendingId !in lay.chain && lay.heads.Keys == lay.chain.Keys
    ensures Dropped(Added(lay, PendingId), PendingId) == lay
  {
    assert lay.heads[PendingId := Head(0, false)] - {PendingId} == lay.heads;
    assert lay.chain[PendingId := []] - {PendingId} == lay.chain;
  }

  // ---------------------------------------------------------------- a set moved

  ghost predicate AllHomed(t: Tree) { forall d :: d in t.dirs ==> Homed(t, d) }

  /** Directory `d` is `m` or lies below it. */
  ghost predicate Inside(t: Tree, d: nat, m: nat)
    requires AllHomed(t) && d in t.dirs
    decreases t.rank[d]
  {
    d == m || (t.lay.owner[d].id.NodeId? && Inside(t, t.lay.owner[d].id.dir, m))
  }

  /** Ranks after directory `m` moves into `d`: the moved part goes up as one. */
  ghost function Reranked(t: Tree, m: nat, d: nat): map<nat, nat>
    requires AllHomed(t) && d in t.rank
  {
    map x | x in t.rank :: if x in t.dirs && Inside(t, x, m) then t.rank[x] + t.rank[d] + 1 else t.rank[x]
  }

  /** The tree with the clusters of `d1`, `s1` under `d2`, `s2` and the old set gone. */
  ghost function Moved(t: Tree, d1: nat, s1: nat, d2: nat, s2: nat): Tree
    requires AllHomed(t) && t.Has(d1, s1) && t.Has(d2, s2) && d2 in t.rank
    requires NodeId(d1, s1) in t.lay.chain && NodeId(d1, s1) in t.lay.heads
  {
    var e := t.At(d1, s1).entry;
    var ents: map<nat, Rec> := t.dirs[d1] - {s1};
    t.(lay := Renamed(t.lay, NodeId(d1, s1), NodeId(d2, s2)), dirs := t.dirs[d1 := ents],
       rank := if e.IsDirectory() then Reranked(t, e.stream.first, d2) else t.rank)
  }

  /** A set on disk twice, under two names, its clusters still under the first. */
  ghost predicate Doubled(cb: nat, t: Tree, d1: nat, s1: nat, d2: nat, s2: nat)
    requires cb > 0
  {
    && AllHomed(t) && t.Has(d1, s1) && t.Has(d2, s2) && !(d1 == d2 && s1 == s2)
    && NodeId(d1, s1) in t.lay.chain && NodeId(d2, s2) !in t.lay.chain
    && HeadsOk(t.lay) && t.lay.heads.Keys == t.lay.chain.Keys && OwnersOk(t.lay) && d2 in t.rank
    && NodeOk(cb, t, d1, s1)
    && var e := t.At(d1, s1).entry;
    && t.At(d2, s2).entry == e.(name := t.At(d2, s2).entry.name)
  }

  ghost predicate Movable(cb: nat, t: Tree, d1: nat, s1: nat, d2: nat, s2: nat)
    requires cb > 0
  {
    && Doubled(cb, t, d1, s1, d2, s2)
    && var e := t.At(d1, s1).entry;
    && (e.IsDirectory() ==> !Inside(t, d2, e.stream.first))
  }

  /** Moving a directory anywhere but into itself keeps the tree a tree. */
  lemma ShapeMoved(cb: nat, up: Upcase, t: Tree, d1: nat, s1: nat, d2: nat, s2: nat)
    requires cb > 0 && Movable(cb, t, d1, s1, d2, s2) && Shape(cb, up, t, {}, {NodeId(d2, s2)})
    ensures Shape(cb, up, Moved(t, d1, s1, d2, s2), {}, {})
  {
    hide Shape, NodeOk, Homed, NamesApart, Known, RootOk, OwnersOk, Moved, HeadsOk, Renamed, AllHomed;
    var t' := Moved(t, d1, s1, d2, s2);
    MovedFacts(cb, t, d1, s1, d2, s2);
    forall e, q | t'.Has(e, q) ensures NodeOk(cb, t', e, q) {
      if e != d2 || q != s2 { ShapeNode(cb, up, t, {}, {NodeId(d2, s2)}, e, q); }
      MovedNode(cb, t, d1, s1, d2, s2, e, q);
    }
    forall e | e in t'.dirs ensures Homed(t', e) && NamesApart(up, t'.dirs[e]) {
      ShapeHome(cb, up, t, {}, {NodeId(d2, s2)}, e);
      MovedHome(cb, t, d1, s1, d2, s2, e);
      MovedNames(cb, up, t, d1, s1, d2, s2, e);
    }
    forall i | i in t'.lay.chain ensures Known(t', {}, i) {
      if i in t.lay.chain { ShapeKnown(cb, up, t, {}, {NodeId(d2, s2)}, i); }
      MovedKnown(cb, t, d1, s1, d2, s2, i);
    }
    ShapeOf(cb, up, t, {}, {NodeId(d2, s2)});
    MovedRoot(cb, t, d1, s1, d2, s2);
    ShapeMade(cb, up, t', {}, {});
  }

  lemma MovedFacts(cb: nat, t: Tree, d1: nat, s1: nat, d2: nat, s2: nat)
    requires cb > 0 && Movable(cb, t, d1, s1, d2, s2)
    ensures var t' := Moved(t, d1, s1, d2, s2);
            && t'.root == t.root && t'.dirs.Keys == t.dirs.Keys && t'.rank.Keys == t.rank.Keys
            && t'.lay == Renamed(t.lay, NodeId(d1, s1), NodeId(d2, s2))
            && (forall e, q :: t'.Has(e, q) <==> t.Has(e, q) && !(e == d1 && q == s1))
            && (forall e, q :: t'.Has(e, q) ==> t'.At(e, q) == t.At(e, q))
  {
    hide NodeOk, HeadsOk, OwnersOk, Renamed, Inside, AllHomed;
  }

  lemma MovedNode(cb: nat, t: Tree, d1: nat, s1: nat, d2: nat, s2: nat, e: nat, q: nat)
    requires cb > 0 && Movable(cb, t, d1, s1, d2, s2)
    requires t.Has(e, q) && ((e != d2 || q != s2) ==> NodeOk(cb, t, e, q)) && Moved(t, d1, s1, d2, s2).Has(e, q)
    ensures NodeOk(cb, Moved(t, d1, s1, d2, s2), e, q)
  {
    MovedFacts(cb, t, d1, s1, d2, s2);
    var from, to, s := NodeId(d1, s1), NodeId(d2, s2), t.At(e, q).entry.stream;
    hide Moved, Renamed, DirectoryStream, OwnersOk, HeadsOk, Inside, Homed, AllHomed, Sized;
    if e == d2 && q == s2 { SizedRenamed(cb, t.lay, from, to, from, s); }
       else { SizedRenamed(cb, t.lay, from, to, NodeId(e, q), s); }
  }

  /** A list keeps its size and head under its new name. */
  lemma SizedRenamed(cb: nat, lay: Layout, from: Id, to: Id, id: Id, s: Stream)
    requires cb > 0 && from in lay.chain && from in lay.heads && to !in lay.chain && from != to && Sized(cb, lay, id, s)
    ensures Sized(cb, Renamed(lay, from, to), if id == from then to else id, s)
  {
    RenamedFacts(lay, from, to);
    hide Renamed;
  }

  lemma MovedHome(cb: nat, t: Tree, d1: nat, s1: nat, d2: nat, s2: nat, e: nat)
    requires cb > 0 && Movable(cb, t, d1, s1, d2, s2) && e in t.dirs && Homed(t, e)
    ensures Homed(Moved(t, d1, s1, d2, s2), e)
  {
    hide Moved, Renamed, DirectoryStream, OwnersOk, HeadsOk, Inside, AllHomed, Reranked, NodeOk;
    MovedFacts(cb, t, d1, s1, d2, s2);
    RenamedFacts(t.lay, NodeId(d1, s1), NodeId(d2, s2));
    if t.lay.owner[e].id != RootId { MovedRank(cb, t, d1, s1, d2, s2, e); }
  }

  /** Every directory still ranks above the one that now holds it. */
  lemma MovedRank(cb: nat, t: Tree, d1: nat, s1: nat, d2: nat, s2: nat, e: nat)
    requires cb > 0 && Movable(cb, t, d1, s1, d2, s2) && e in t.dirs && Homed(t, e) && t.lay.owner[e].id != RootId
    ensures var t', p := Moved(t, d1, s1, d2, s2), t.lay.owner[e].id;
            var holder := if p == NodeId(d1, s1) then d2 else p.dir;
            holder in t'.rank && e in t'.rank && t'.rank[holder] < t'.rank[e]
  {
    var p := t.lay.owner[e].id;
    assert Homed(t, p.dir) && Homed(t, d2);
    hide Renamed, HeadsOk;
    assert t.lay.chain[p][0] == e;
    if p == NodeId(d1, s1) { NonEmptyChain(cb, t.lay, p, t.At(d1, s1).entry.stream); }
  }

  lemma MovedNames(cb: nat, up: Upcase, t: Tree, d1: nat, s1: nat, d2: nat, s2: nat, e: nat)
    requires cb > 0 && Movable(cb, t, d1, s1, d2, s2) && e in t.dirs && NamesApart(up, t.dirs[e])
    ensures e in Moved(t, d1, s1, d2, s2).dirs && NamesApart(up, Moved(t, d1, s1, d2, s2).dirs[e])
  {
    MovedFacts(cb, t, d1, s1, d2, s2);
    hide Moved, Renamed, OwnersOk, HeadsOk, Inside, AllHomed, NodeOk, Up;
    var t' := Moved(t, d1, s1, d2, s2);
    forall q | q in t'.dirs[e] ensures q in t.dirs[e] && t'.dirs[e][q] == t.dirs[e][q] {
      assert t'.Has(e, q) && t'.At(e, q) == t.At(e, q);
    }
  }

  lemma MovedKnown(cb: nat, t: Tree, d1: nat, s1: nat, d2: nat, s2: nat, i: Id)
    requires cb > 0 && Movable(cb, t, d1, s1, d2, s2)
    requires i in t.lay.chain ==> Known(t, {}, i)
    requires i in Moved(t, d1, s1, d2, s2).lay.chain
    ensures Known(Moved(t, d1, s1, d2, s2), {}, i)
  {
    MovedFacts(cb, t, d1, s1, d2, s2);
    RenamedFacts(t.lay, NodeId(d1, s1), NodeId(d2, s2));
    hide Moved, Renamed, OwnersOk, HeadsOk, Inside, AllHomed, NodeOk;
  }

  lemma MovedRoot(cb: nat, t: Tree, d1: nat, s1: nat, d2: nat, s2: nat)
    requires cb > 0 && Movable(cb, t, d1, s1, d2, s2) && RootOk(cb, t)
    ensures RootOk(cb, Moved(t, d1, s1, d2, s2)) && OwnersOk(Moved(t, d1, s1, d2, s2).lay)
  {
    MovedFacts(cb, t, d1, s1, d2, s2);
    RenamedFacts(t.lay, NodeId(d1, s1), NodeId(d2, s2));
    RenamedOwners(t.lay, NodeId(d1, s1), NodeId(d2, s2));
    hide Moved, Renamed, OwnersOk, HeadsOk, Inside, AllHomed, NodeOk;
  }

  // ---------------------------------------------- a directory moved into itself

  /** Where only `m` has a new home, what lay below `m` still ranks no lower. */
  lemma {:induction false} BelowRanks(t: Tree, t': Tree, d: nat, m: nat)
    requires AllHomed(t) && AllHomed(t') && t'.dirs.Keys == t.dirs.Keys && d in t.dirs && Inside(t, d, m)
    requires forall e :: e in t.dirs && e != m ==>
             e in t.lay.owner && e in t'.lay.owner && t'.lay.owner[e] == t.lay.owner[e]
    ensures m in t'.rank && d in t'.rank && t'.rank[m] <= t'.rank[d]
    decreases if d in t.rank then t.rank[d] else 0
  {
    assert Homed(t, d) && Homed(t', d);
    if d != m {
      assert Homed(t, t.lay.owner[d].id.dir);
      BelowRanks(t, t', t.lay.owner[d].id.dir, m);
    }
  }

  /** The moved directory's new home is the target, and nothing else has moved. */
  lemma MovedOwners(cb: nat, t: Tree, d1: nat, s1: nat, d2: nat, s2: nat)
    requires cb > 0 && Doubled(cb, t, d1, s1, d2, s2) && t.At(d1, s1).entry.IsDirectory()
    ensures var t', m := Moved(t, d1, s1, d2, s2), t.At(d1, s1).entry.stream.first;
            && t'.dirs.Keys == t.dirs.Keys && m in t.dirs && m in t'.lay.owner && t'.lay.owner[m].id == NodeId(d2, s2)
            && forall e :: e in t.dirs && e != m ==>
               e in t.lay.owner && e in t'.lay.owner && t'.lay.owner[e] == t.lay.owner[e]
  {
    var m := t.At(d1, s1).entry.stream.first;
    RenamedFacts(t.lay, NodeId(d1, s1), NodeId(d2, s2));
    NonEmptyChain(cb, t.lay, NodeId(d1, s1), t.At(d1, s1).entry.stream);
    hide Renamed, Inside, Reranked;
    forall e | e in t.dirs && e != m ensures e in t.lay.owner && t.lay.owner[e].id != NodeId(d1, s1) {
      assert Homed(t, e);
    }
  }

  /** A directory moved below itself is cut off: no ranks make the result a tree. */
  lemma CutOff(cb: nat, t: Tree, d1: nat, s1: nat, d2: nat, s2: nat, rank: map<nat, nat>)
    requires cb > 0 && Doubled(cb, t, d1, s1, d2, s2) && t.At(d1, s1).entry.IsDirectory()
    requires Inside(t, d2, t.At(d1, s1).entry.stream.first)
    ensures !AllHomed(Moved(t, d1, s1, d2, s2).(rank := rank))
  {
    var t', m := Moved(t, d1, s1, d2, s2).(rank := rank), t.At(d1, s1).entry.stream.first;
    MovedOwners(cb, t, d1, s1, d2, s2);
    if AllHomed(t') {
      assert Homed(t', m);
      hide Moved, Homed, NodeOk, HeadsOk, OwnersOk, Inside;
      BelowRanks(t, t', d2, m);
    }
  }

  /** Moving keeps the tree a tree, under some ranks, exactly when a directory does not go
      into itself. */
  lemma MoveExact(cb: nat, up: Upcase, t: Tree, d1: nat, s1: nat, d2: nat, s2: nat)
    requires cb > 0 && Doubled(cb, t, d1, s1, d2, s2) && Shape(cb, up, t, {}, {NodeId(d2, s2)})
    ensures (exists rank :: Shape(cb, up, Moved(t, d1, s1, d2, s2).(rank := rank), {}, {})) <==>
            !(t.At(d1, s1).entry.IsDirectory() && Inside(t, d2, t.At(d1, s1).entry.stream.first))
  {
    var t' := Moved(t, d1, s1, d2, s2);
    if t.At(d1, s1).entry.IsDirectory() && Inside(t, d2, t.At(d1, s1).entry.stream.first) {
      forall rank ensures !Shape(cb, up, t'.(rank := rank), {}, {}) {
        CutOff(cb, t, d1, s1, d2, s2, rank);
      }
    } else {
      ShapeMoved(cb, up, t, d1, s1, d2, s2);
      assert t'.(rank := t'.rank) == t';
    }
  }

  // ----------------------------------------------------------- the root regrown

  lemma ShapeRooted(cb: nat, up: Upcase, t: Tree, extra: set<Id>, skip: set<Id>, lay': Layout, root: Stream,
                    cs: seq<nat>)
    requires cb > 0 && Shape(cb, up, t, extra, skip)
    requires Relisted(t, lay', RootId, Head(root.first, root.contiguous), cs) && |cs| == CeilDiv(root.length, cb)
    requires !root.contiguous && DirectoryStream(cb, root) && root.first == t.root.first
    ensures Shape(cb, up, t.(lay := lay', root := root), extra, skip)
  {
    hide Shape, NodeOk, Homed, NamesApart, Known, RootOk, OwnersOk, Relisted;
    var t' := t.(lay := lay', root := root);
    ShapeOf(cb, up, t, extra, skip);
    forall e, q | t'.Has(e, q) && NodeId(e, q) !in skip ensures NodeOk(cb, t', e, q) {
      ShapeNode(cb, up, t, extra, skip, e, q);
      RelistedNode(cb, t, lay', RootId, Head(root.first, root.contiguous), cs, e, q);
      SameNode(cb, t.(lay := lay'), t', e, q);
    }
    forall e | e in t'.dirs ensures Homed(t', e) && NamesApart(up, t'.dirs[e]) {
      ShapeHome(cb, up, t, extra, skip, e);
      RelistedHome(t, lay', RootId, Head(root.first, root.contiguous), cs, e);
      SameHome(t.(lay := lay'), t', e);
    }
    forall i | i in lay'.chain ensures Known(t', extra, i) {
      RelistedKnown(cb, up, t, extra, skip, lay', RootId, Head(root.first, root.contiguous), cs, i);
      SameKnown(t.(lay := lay'), t', extra, i);
    }
    RootedRoot(cb, t, lay', root, cs);
    ShapeMade(cb, up, t', extra, skip);
  }

  lemma SameNode(cb: nat, t: Tree, t': Tree, e: nat, q: nat)
    requires cb > 0 && t.Has(e, q) && NodeOk(cb, t, e, q) && t'.dirs == t.dirs && t'.lay == t.lay
    ensures NodeOk(cb, t', e, q)
  {
  }

  lemma SameHome(t: Tree, t': Tree, e: nat)
    requires Homed(t, e) && t'.dirs == t.dirs && t'.lay == t.lay && t'.rank == t.rank
    ensures Homed(t', e)
  {
  }

  lemma SameKnown(t: Tree, t': Tree, extra: set<Id>, i: Id)
    requires Known(t, extra, i) && t'.dirs == t.dirs
    ensures Known(t', extra, i)
  {
  }

  lemma RootedRoot(cb: nat, t: Tree, lay': Layout, root: Stream, cs: seq<nat>)
    requires cb > 0 && RootOk(cb, t)
    requires Relisted(t, lay', RootId, Head(root.first, root.contiguous), cs) && |cs| == CeilDiv(root.length, cb)
    requires !root.contiguous && DirectoryStream(cb, root) && root.first == t.root.first
    ensures OwnersOk(lay') && RootOk(cb, t.(lay := lay', root := root))
  {
    hide OwnersOk;
  }

  lemma LayoutHeads(count: nat, fat: seq<nat>, bits: seq<byte>, lay: Layout)
    requires |fat| == count + 2 && Covers(count, bits) && LayoutOk(count, fat, bits, lay)
    ensures ChainsInHeap(count, lay) && HeadsOk(lay)
  {
    forall id | id in lay.chain
      ensures Clusters(count, lay.chain[id]) && (lay.chain[id] != [] ==> lay.chain[id][0] == lay.heads[id].first)
    {
      assert ChainOk(count, fat, lay.heads[id].first, lay.heads[id].contiguous, lay.chain[id]);
    }
  }

  lemma OpenedDir(cb: nat, t: Tree, s: Stream, p: Id)
    requires cb > 0 && OwnersOk(t.lay) && HeadsOk(t.lay) && cb % ENTRY_BYTES == 0
    requires Sized(cb, t.lay, p, s) && DirectoryStream(cb, s) && s.first in t.dirs
    ensures s.first in t.lay.owner && t.lay.owner[s.first] == Place(p, 0)
    ensures p in t.lay.chain && p in t.lay.heads && t.lay.heads[p] == Head(s.first, s.contiguous)
            && t.lay.chain[p] != []
    ensures s.length == |t.lay.chain[p]| * cb && s.length % 32 == 0
  {
    NonEmptyChain(cb, t.lay, p, s);
    assert t.lay.chain[p][0] == s.first;
    WholeClusters(s.length, cb);
    hide CeilDiv, HeadsOk;
    WholeSlots(|t.lay.chain[p]|, cb);
  }

  lemma FirstOf(lay: Layout, p: Id)
    requires HeadsOk(lay) && p in lay.chain && lay.chain[p] != []
    ensures p in lay.heads && lay.chain[p][0] == lay.heads[p].first
  {
  }

  lemma AdoptableNew(cb: nat, t: Tree, d: nat, s: nat)
    requires cb > 0 && Adoptable(cb, t, PendingId, d, s)
    ensures t.Has(d, s) && (t.At(d, s).entry.IsDirectory() ==> t.At(d, s).entry.stream.first !in t.dirs)
  {
  }

  lemma AdoptReady(cb: nat, t: Tree, d: nat, s: nat, stream: Stream)
    requires cb > 0 && t.Has(d, s) && t.At(d, s).entry.stream == stream && NodeId(d, s) !in t.lay.chain && d in t.rank
    requires PendingId in t.lay.chain && t.lay.heads.Keys == t.lay.chain.Keys
             && t.lay.heads[PendingId] == Head(stream.first, stream.contiguous)
    requires |t.lay.chain[PendingId]| == CeilDiv(stream.length, cb) && OwnersOk(t.lay) && HeadsOk(t.lay)
    requires t.At(d, s).entry.IsDirectory() ==> DirectoryStream(cb, stream)
    requires forall e :: e in t.dirs ==> e in t.lay.owner && t.lay.owner[e].id != PendingId
    ensures Adoptable(cb, t, PendingId, d, s)
  {
    if t.At(d, s).entry.IsDirectory() {
      NonEmptyChain(cb, t.lay, PendingId, stream);
      assert t.lay.owner[t.lay.chain[PendingId][0]].id == PendingId;
    }
  }

  lemma AdoptedTree(t: Tree, d: nat, s: nat)
    requires t.Has(d, s) && PendingId in t.lay.chain && PendingId in t.lay.heads && d in t.rank
    requires t.At(d, s).entry.IsDirectory() ==> t.At(d, s).entry.stream.first !in t.dirs
    ensures var t', e := Adopted(t, PendingId, d, s), t.At(d, s).entry;
            && t'.lay == Renamed(t.lay, PendingId, NodeId(d, s))
            && t'.dirs.Keys == t.dirs.Keys + (if e.IsDirectory() then {e.stream.first} else {})
            && (forall x, q :: t'.Has(x, q) <==> t.Has(x, q))
            && (forall x, q :: t.Has(x, q) ==> t'.At(x, q) == t.At(x, q))
            && (e.IsDirectory() ==> e.stream.first in t'.dirs && t'.dirs[e.stream.first] == map[])
  {
  }

  lemma RemovableMake(t: Tree, d: nat, s: nat)
    requires t.Has(d, s) && HeadsOk(t.lay)
    requires t.At(d, s).entry.IsDirectory() ==>
             t.At(d, s).entry.stream.first in t.dirs && t.dirs[t.At(d, s).entry.stream.first] == map[]
    ensures Removable(t, d, s)
  {
    hide HeadsOk;
  }

  lemma RemovableHas(t: Tree, d: nat, s: nat)
    requires Removable(t, d, s)
    ensures t.Has(d, s) && HeadsOk(t.lay)
  {
    hide HeadsOk;
  }

  lemma WithoutIs(t: Tree, t': Tree, d: nat, s: nat, gone: set<nat>)
    requires t.Has(d, s) && t'.root == t.root && t'.lay == t.lay && t'.rank == t.rank
    requires gone == if t.At(d, s).entry.IsDirectory() then {t.At(d, s).entry.stream.first} else {}
    requires t'.dirs == t.dirs[d := t.dirs[d] - {s}] - gone
    ensures t' == Without(t, d, s)
  {
    var ents: map<nat, Rec> := t.dirs[d] - {s};
    assert t.dirs[d := ents] - {} == t.dirs[d := ents];
  }

  /** With its directory gone, no other directory's stream is the removed one. */
  lemma WithoutOwners(cb: nat, up: Upcase, t: Tree, d: nat, s: nat)
    requires cb > 0 && Removable(t, d, s) && Shape(cb, up, t, {}, {})
    ensures forall e :: e in Without(t, d, s).dirs ==>
            e in t.lay.owner && t.lay.owner[e].index == 0 && t.lay.owner[e].id != NodeId(d, s)
  {
    WithoutFacts(t, d, s);
    ShapeOf(cb, up, t, {}, {});
    hide Shape, Without;
    forall e | e in Without(t, d, s).dirs ensures t.lay.owner[e].id != NodeId(d, s) {
      ShapeHome(cb, up, t, {}, {}, e);
      if t.lay.owner[e].id == NodeId(d, s) {
        assert t.lay.chain[NodeId(d, s)][0] == e;
        ShapeNode(cb, up, t, {}, {}, d, s);
      }
    }
  }
}
