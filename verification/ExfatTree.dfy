/** The directory tree of a volume: which entry sets live in which directory, and
    which clusters each of them owns. */
module ExfatTree {
  import opened Common
  import opened ExfatDisk
  import opened ExfatLayout
  import opened ExfatEntries
  import opened ExfatDirectory

  const MAX_DIRECTORY_BYTES: nat := 0x1000_0000

  /** `dirs` maps the first cluster of each directory to its entry sets by slot;
      `rank` orders directories below their parents. */
  datatype Tree = Tree(root: Stream, lay: Layout, dirs: map<nat, map<nat, Rec>>, rank: map<nat, nat>) {
    predicate Has(d: nat, s: nat) { d in dirs && s in dirs[d] }

    function At(d: nat, s: nat): Rec
      requires Has(d, s)
    {
      dirs[d][s]
    }

    function With(d: nat, s: nat, rec: Rec): Tree
      requires d in dirs
    {
      var ents: map<nat, Rec> := dirs[d];
      var ents' := ents[s := rec];
      this.(dirs := dirs[d := ents'])
    }

    function WithStream(d: nat, s: nat, stream: Stream): Tree
      requires Has(d, s)
    {
      With(d, s, At(d, s).(entry := At(d, s).entry.(stream := stream)))
    }
  }

  /** The stream's cluster list has the length its data length asks for. */
  ghost predicate Sized(cb: nat, lay: Layout, id: Id, s: Stream)
    requires cb > 0
  {
    && id in lay.chain && id in lay.heads
    && lay.heads[id] == Head(s.first, s.contiguous)
    && |lay.chain[id]| == CeilDiv(s.length, cb)
  }

  predicate DirectoryStream(cb: nat, s: Stream)
    requires cb > 0
  {
    0 < s.length <= MAX_DIRECTORY_BYTES && s.length % cb == 0 && s.valid == s.length
  }

  ghost predicate NodeOk(cb: nat, t: Tree, d: nat, s: nat)
    requires cb > 0 && t.Has(d, s)
  {
    var e := t.At(d, s).entry;
    && Sized(cb, t.lay, NodeId(d, s), e.stream)
    && (e.IsDirectory() ==> DirectoryStream(cb, e.stream) && e.stream.first in t.dirs)
  }

  ghost predicate RootOk(cb: nat, t: Tree)
    requires cb > 0
  {
    && Sized(cb, t.lay, RootId, t.root) && !t.root.contiguous
    && DirectoryStream(cb, t.root) && t.root.first in t.dirs
  }

  /** A directory's first cluster is the head of the root's list or of the list of a
      directory entry in another directory, which ranks lower. */
  ghost predicate Homed(t: Tree, d: nat) {
    && d in t.lay.owner && d in t.rank && t.lay.owner[d].index == 0
    && (t.lay.owner[d].id == RootId ||
        (&& t.lay.owner[d].id.NodeId?
         && var p := t.lay.owner[d].id;
         && t.Has(p.dir, p.slot) && t.At(p.dir, p.slot).entry.IsDirectory()
         && p.dir in t.rank && t.rank[p.dir] < t.rank[d]))
  }

  ghost predicate NamesApart(up: Upcase, ents: map<nat, Rec>) {
    forall s, s' :: s in ents && s' in ents && s != s' ==> Up(up, ents[s].entry.name) != Up(up, ents[s'].entry.name)
  }

  predicate Known(t: Tree, extra: set<Id>, id: Id) {
    id == RootId || id == BitmapId || id == UpcaseId || id in extra || (id.NodeId? && t.Has(id.dir, id.slot))
  }

  /** Every live stream is accounted for: it is the root, the bitmap, the up-case
      table, one entry set's stream, or one of `extra`.  Every entry set's stream is
      accounted for, except those in `skip`.  Both are empty between operations. */
  ghost predicate Shape(cb: nat, up: Upcase, t: Tree, extra: set<Id>, skip: set<Id>) {
    && cb > 0
    && OwnersOk(t.lay)
    && RootOk(cb, t)
    && (forall d, s :: t.Has(d, s) && NodeId(d, s) !in skip ==> NodeOk(cb, t, d, s))
    && (forall id :: id in t.lay.chain ==> Known(t, extra, id))
    && (forall d :: d in t.dirs ==> Homed(t, d) && NamesApart(up, t.dirs[d]))
  }

  ghost function DirChain(t: Tree, d: nat): (cs: seq<nat>)
    requires OwnersOk(t.lay) && d in t.lay.owner
    ensures t.lay.owner[d].id in t.lay.chain
  {
    t.lay.chain[t.lay.owner[d].id]
  }

  ghost predicate ChainsInHeap(count: nat, lay: Layout) {
    forall id :: id in lay.chain ==> Clusters(count, lay.chain[id])
  }

  /** The bytes of directory `d` hold exactly its entry sets. */
  ghost predicate Here(count: nat, cb: nat, up: Upcase, data: seq<seq<byte>>, t: Tree, d: nat)
    requires DataOk(count, cb, data) && ChainsInHeap(count, t.lay) && OwnersOk(t.lay)
    requires d in t.dirs && d in t.lay.owner
  {
    DirOk(count, cb, up, Content(count, cb, data, DirChain(t, d)), t.dirs[d])
  }

  ghost predicate OnDisk(count: nat, cb: nat, up: Upcase, data: seq<seq<byte>>, t: Tree) {
    && DataOk(count, cb, data) && ChainsInHeap(count, t.lay) && OwnersOk(t.lay)
    && forall d :: d in t.dirs ==> d in t.lay.owner && Here(count, cb, up, data, t, d)
  }

  /** The bytes of one live stream's clusters; nothing for a stream that is not live. */
  ghost function Held(count: nat, cb: nat, data: seq<seq<byte>>, lay: Layout, id: Id): seq<byte> {
    if DataOk(count, cb, data) && id in lay.chain && Clusters(count, lay.chain[id])
    then Content(count, cb, data, lay.chain[id]) else []
  }

  lemma WholeClusters(length: nat, cb: nat)
    requires cb > 0 && length % cb == 0
    ensures CeilDiv(length, cb) * cb == length
  {
    var q := length / cb;
    assert length == q * cb;
    DivModUnique(length + cb - 1, cb, q, cb - 1);
  }

  // --------------------------------------------------- framing the disk contents

  /** Directory contents depend only on the clusters of the directory. */
  lemma HereFrame(count: nat, cb: nat, up: Upcase, data: seq<seq<byte>>, data': seq<seq<byte>>, t: Tree, t': Tree,
                  d: nat)
    requires DataOk(count, cb, data) && DataOk(count, cb, data')
    requires ChainsInHeap(count, t.lay) && OwnersOk(t.lay) && ChainsInHeap(count, t'.lay) && OwnersOk(t'.lay)
    requires d in t.dirs && d in t.lay.owner && d in t'.dirs && d in t'.lay.owner
    requires t'.dirs[d] == t.dirs[d] && DirChain(t', d) == DirChain(t, d)
    requires forall k :: 0 <= k < |DirChain(t, d)| ==> data'[DirChain(t, d)[k]] == data[DirChain(t, d)[k]]
    requires Here(count, cb, up, data, t, d)
    ensures Here(count, cb, up, data', t', d)
  {
    ContentFrame(count, cb, data, data', DirChain(t, d));
  }

  /** A write inside one directory changes that directory's sets and no other's. */
  lemma OnDiskWrite(count: nat, cb: nat, up: Upcase, data: seq<seq<byte>>, data': seq<seq<byte>>, t: Tree, d: nat,
                    ents: map<nat, Rec>)
    requires DataOk(count, cb, data) && DataOk(count, cb, data')
    requires ChainsInHeap(count, t.lay) && OwnersOk(t.lay)
    requires forall d :: d in t.dirs ==> d in t.lay.owner && t.lay.owner[d].index == 0
    requires OnDisk(count, cb, up, data, t) && d in t.dirs
    requires SameOutside(data, data', DirChain(t, d))
    requires DirOk(count, cb, up, Content(count, cb, data', DirChain(t, d)), ents)
    ensures OnDisk(count, cb, up, data', t.(dirs := t.dirs[d := ents]))
  {
    var t' := t.(dirs := t.dirs[d := ents]);
    forall e | e in t.dirs && e != d ensures Here(count, cb, up, data', t', e) {
      var cs, id := DirChain(t, e), t.lay.owner[e].id;
      assert t.lay.chain[id][0] == e && t.lay.chain[t.lay.owner[d].id][0] == d;
      forall k | 0 <= k < |cs| ensures data'[cs[k]] == data[cs[k]] {
        assert t.lay.chain[id][k] == cs[k];
        ChainsApart(t.lay, id, t.lay.owner[d].id, cs[k]);
      }
      HereFrame(count, cb, up, data, data', t, t', e);
    }
    assert Here(count, cb, up, data', t', d);
  }

  // -------------------------------------------------------- changing the layout

  /** Replacing one cluster list keeps the heads of all directories where they are. */
  lemma HomesKept(t: Tree, lay': Layout, id: Id, cs: seq<nat>, d: nat)
    requires OwnersOk(t.lay) && OwnersOk(lay') && id in t.lay.chain && lay'.chain == t.lay.chain[id := cs]
    requires d in t.lay.owner && t.lay.owner[d].index == 0
    requires t.lay.owner[d].id == id ==> cs != [] && cs[0] == t.lay.chain[id][0]
    ensures d in lay'.owner && lay'.owner[d] == t.lay.owner[d]
  {
    var i := t.lay.owner[d].id;
    assert t.lay.chain[i][0] == d;
    assert lay'.chain[i][0] == d;
  }

  lemma ShapeOf(cb: nat, up: Upcase, t: Tree, extra: set<Id>, skip: set<Id>)
    requires cb > 0 && Shape(cb, up, t, extra, skip)
    ensures OwnersOk(t.lay) && RootOk(cb, t)
    ensures forall d :: d in t.dirs ==> d in t.lay.owner && t.lay.owner[d].index == 0
  {
  }

  lemma ShapeNode(cb: nat, up: Upcase, t: Tree, extra: set<Id>, skip: set<Id>, d: nat, s: nat)
    requires cb > 0 && Shape(cb, up, t, extra, skip) && t.Has(d, s) && NodeId(d, s) !in skip
    ensures NodeOk(cb, t, d, s)
  {
  }

  lemma ShapeHome(cb: nat, up: Upcase, t: Tree, extra: set<Id>, skip: set<Id>, d: nat)
    requires cb > 0 && Shape(cb, up, t, extra, skip) && d in t.dirs
    ensures Homed(t, d) && NamesApart(up, t.dirs[d])
  {
  }

  lemma ShapeKnown(cb: nat, up: Upcase, t: Tree, extra: set<Id>, skip: set<Id>, id: Id)
    requires cb > 0 && Shape(cb, up, t, extra, skip) && id in t.lay.chain
    ensures Known(t, extra, id)
  {
  }

  lemma ShapeMade(cb: nat, up: Upcase, t: Tree, extra: set<Id>, skip: set<Id>)
    requires cb > 0 && OwnersOk(t.lay) && RootOk(cb, t)
    requires forall d, s :: t.Has(d, s) && NodeId(d, s) !in skip ==> NodeOk(cb, t, d, s)
    requires forall id :: id in t.lay.chain ==> Known(t, extra, id)
    requires forall d :: d in t.dirs ==> Homed(t, d) && NamesApart(up, t.dirs[d])
    ensures Shape(cb, up, t, extra, skip)
  {
  }

  // ---- one node's cluster list replaced, its entry set not yet rewritten

  /** `lay'` is `lay` with the cluster list of `id` replaced by `cs`; if it had a
      first cluster that is a directory, it keeps it. */
  ghost predicate Relisted(t: Tree, lay': Layout, id: Id, head: Head, cs: seq<nat>) {
    && id in t.lay.chain && id in t.lay.heads && OwnersOk(lay')
    && lay'.chain == t.lay.chain[id := cs] && lay'.heads == t.lay.heads[id := head]
    && (t.lay.chain[id] != [] && t.lay.chain[id][0] in t.dirs ==> cs != [] && cs[0] == t.lay.chain[id][0])
  }

  lemma ShapeRelisted(cb: nat, up: Upcase, t: Tree, extra: set<Id>, skip: set<Id>, lay': Layout, id: Id, head: Head,
                      cs: seq<nat>)
    requires cb > 0 && Shape(cb, up, t, extra, skip) && id != RootId && Relisted(t, lay', id, head, cs)
    ensures Shape(cb, up, t.(lay := lay'), extra, skip + {id})
  {
    hide Shape, NodeOk, Homed, NamesApart, Known, RootOk, OwnersOk, Relisted;
    var t' := t.(lay := lay');
    forall e, q | t'.Has(e, q) && NodeId(e, q) !in skip + {id} ensures NodeOk(cb, t', e, q) {
      ShapeNode(cb, up, t, extra, skip, e, q);
      RelistedNode(cb, t, lay', id, head, cs, e, q);
    }
    forall e | e in t'.dirs ensures Homed(t', e) && NamesApart(up, t'.dirs[e]) {
      ShapeOf(cb, up, t, extra, skip);
      ShapeHome(cb, up, t, extra, skip, e);
      RelistedHome(t, lay', id, head, cs, e);
    }
    forall i | i in lay'.chain ensures Known(t', extra, i) {
      RelistedKnown(cb, up, t, extra, skip, lay', id, head, cs, i);
    }
    ShapeOf(cb, up, t, extra, skip);
    RelistedRoot(cb, t, lay', id, head, cs);
    ShapeMade(cb, up, t', extra, skip + {id});
  }

  lemma RelistedNode(cb: nat, t: Tree, lay': Layout, id: Id, head: Head, cs: seq<nat>, e: nat, q: nat)
    requires cb > 0 && t.Has(e, q) && NodeOk(cb, t, e, q) && NodeId(e, q) != id && Relisted(t, lay', id, head, cs)
    ensures NodeOk(cb, t.(lay := lay'), e, q)
  {
  }

  lemma RelistedHome(t: Tree, lay': Layout, id: Id, head: Head, cs: seq<nat>, e: nat)
    requires OwnersOk(t.lay) && Homed(t, e) && e in t.dirs && Relisted(t, lay', id, head, cs)
    ensures Homed(t.(lay := lay'), e)
  {
    assert t.lay.chain[t.lay.owner[e].id][0] == e;
    HomesKept(t, lay', id, cs, e);
  }

  lemma RelistedKnown(cb: nat, up: Upcase, t: Tree, extra: set<Id>, skip: set<Id>, lay': Layout, id: Id, head: Head,
                      cs: seq<nat>, i: Id)
    requires cb > 0 && Shape(cb, up, t, extra, skip) && Relisted(t, lay', id, head, cs) && i in lay'.chain
    ensures Known(t.(lay := lay'), extra, i)
  {
    ShapeKnown(cb, up, t, extra, skip, i);
    hide Shape;
  }

  lemma RelistedRoot(cb: nat, t: Tree, lay': Layout, id: Id, head: Head, cs: seq<nat>)
    requires cb > 0 && RootOk(cb, t) && id != RootId && Relisted(t, lay', id, head, cs)
    ensures OwnersOk(lay') && RootOk(cb, t.(lay := lay'))
  {
    hide OwnersOk;
  }

  // ---- one entry set's stream rewritten

  lemma WithStreamFacts(t: Tree, d: nat, s: nat, stream: Stream)
    requires t.Has(d, s)
    ensures var t' := t.WithStream(d, s, stream);
            && t'.dirs.Keys == t.dirs.Keys && t'.root == t.root && t'.lay == t.lay && t'.rank == t.rank
            && (forall e, q :: t'.Has(e, q) <==> t.Has(e, q))
            && (forall e, q :: t.Has(e, q) && (e != d || q != s) ==> t'.At(e, q) == t.At(e, q))
            && t'.At(d, s) == t.At(d, s).(entry := t.At(d, s).entry.(stream := stream))
  {
  }

  lemma StoredHome(up: Upcase, t: Tree, d: nat, s: nat, stream: Stream, e: nat)
    requires t.Has(d, s) && e in t.dirs && Homed(t, e) && NamesApart(up, t.dirs[e])
    ensures var t' := t.WithStream(d, s, stream);
            e in t'.dirs && Homed(t', e) && NamesApart(up, t'.dirs[e])
  {
    hide Tree.WithStream, Tree.With;
    var t' := t.WithStream(d, s, stream);
    WithStreamFacts(t, d, s, stream);
    forall q | q in t'.dirs[e] ensures q in t.dirs[e] && t'.dirs[e][q].entry.name == t.dirs[e][q].entry.name {
      assert t'.Has(e, q) && t'.At(e, q).entry.name == t.At(e, q).entry.name;
    }
  }

  lemma StoredKnown(t: Tree, extra: set<Id>, d: nat, s: nat, stream: Stream, i: Id)
    requires t.Has(d, s) && Known(t, extra, i)
    ensures Known(t.WithStream(d, s, stream), extra, i)
  {
  }

  lemma StoredRoot(cb: nat, t: Tree, d: nat, s: nat, stream: Stream)
    requires cb > 0 && t.Has(d, s) && RootOk(cb, t)
    ensures RootOk(cb, t.WithStream(d, s, stream))
  {
  }

  /** A set not yet accounted for may have its stream rewritten freely. */
  lemma ShapeRestreamed(cb: nat, up: Upcase, t: Tree, extra: set<Id>, skip: set<Id>, d: nat, s: nat, stream: Stream)
    requires cb > 0 && t.Has(d, s) && NodeId(d, s) in skip && Shape(cb, up, t, extra, skip)
    ensures Shape(cb, up, t.WithStream(d, s, stream), extra, skip)
  {
    hide Shape, NodeOk, Homed, NamesApart, Known, RootOk, OwnersOk, Tree.WithStream, Tree.With;
    var t' := t.WithStream(d, s, stream);
    WithStreamFacts(t, d, s, stream);
    forall e, q | t'.Has(e, q) && NodeId(e, q) !in skip ensures NodeOk(cb, t', e, q) {
      ShapeNode(cb, up, t, extra, skip, e, q);
      RestreamedNode(cb, t, d, s, stream, e, q);
    }
    forall e | e in t'.dirs ensures Homed(t', e) && NamesApart(up, t'.dirs[e]) {
      ShapeHome(cb, up, t, extra, skip, e);
      StoredHome(up, t, d, s, stream, e);
    }
    forall i | i in t'.lay.chain ensures Known(t', extra, i) {
      ShapeKnown(cb, up, t, extra, skip, i);
      StoredKnown(t, extra, d, s, stream, i);
    }
    ShapeOf(cb, up, t, extra, skip);
    StoredRoot(cb, t, d, s, stream);
    ShapeMade(cb, up, t', extra, skip);
  }

  lemma RestreamedNode(cb: nat, t: Tree, d: nat, s: nat, stream: Stream, e: nat, q: nat)
    requires cb > 0 && t.Has(d, s) && t.Has(e, q) && (e != d || q != s) && NodeOk(cb, t, e, q)
    ensures t.WithStream(d, s, stream).Has(e, q) && NodeOk(cb, t.WithStream(d, s, stream), e, q)
  {
    hide Tree.WithStream, Tree.With, Sized, DirectoryStream;
    WithStreamFacts(t, d, s, stream);
  }

  /** A set whose stream is in order need no longer be skipped. */
  lemma ShapeUnskip(cb: nat, up: Upcase, t: Tree, extra: set<Id>, skip: set<Id>, d: nat, s: nat)
    requires cb > 0 && t.Has(d, s) && Shape(cb, up, t, extra, skip + {NodeId(d, s)}) && NodeOk(cb, t, d, s)
    ensures Shape(cb, up, t, extra, skip)
  {
    hide NodeOk, Homed, NamesApart, Known, RootOk, OwnersOk;
  }

  /** Skipping more asks for less. */
  lemma ShapeSkip(cb: nat, up: Upcase, t: Tree, extra: set<Id>, skip: set<Id>, more: set<Id>)
    requires Shape(cb, up, t, extra, skip)
    ensures Shape(cb, up, t, extra, skip + more)
  {
    hide NodeOk, Homed, NamesApart, Known, RootOk, OwnersOk;
  }

  /** No directory's clusters are a file's. */
  lemma FileApart(cb: nat, up: Upcase, t: Tree, extra: set<Id>, skip: set<Id>, d: nat, s: nat)
    requires Shape(cb, up, t, extra, skip) && t.Has(d, s) && !t.At(d, s).entry.IsDirectory()
    ensures forall e :: e in t.dirs && e in t.lay.owner ==> t.lay.owner[e].id != NodeId(d, s)
  {
    forall e | e in t.dirs && e in t.lay.owner ensures t.lay.owner[e].id != NodeId(d, s) {
      ShapeHome(cb, up, t, extra, skip, e);
    }
  }

  lemma NodeParts(cb: nat, t: Tree, d: nat, s: nat)
    requires cb > 0 && t.Has(d, s) && NodeOk(cb, t, d, s)
    ensures Sized(cb, t.lay, NodeId(d, s), t.At(d, s).entry.stream)
    ensures var id, e := NodeId(d, s), t.At(d, s).entry.stream;
            id in t.lay.chain && id in t.lay.heads && t.lay.heads[id] == Head(e.first, e.contiguous)
              && |t.lay.chain[id]| == CeilDiv(e.length, cb)
    ensures var e := t.At(d, s).entry; e.IsDirectory() ==> DirectoryStream(cb, e.stream) && e.stream.first in t.dirs
  {
  }

  /** Directories whose cluster lists and clusters are untouched are as they were. */
  lemma OnDiskKept(count: nat, cb: nat, up: Upcase, data: seq<seq<byte>>, data': seq<seq<byte>>, t: Tree, t': Tree)
    requires DataOk(count, cb, data) && DataOk(count, cb, data')
    requires ChainsInHeap(count, t.lay) && OwnersOk(t.lay) && ChainsInHeap(count, t'.lay) && OwnersOk(t'.lay)
    requires forall d :: d in t.dirs ==> d in t.lay.owner
    requires t'.dirs == t.dirs && forall d :: d in t.dirs ==> d in t'.lay.owner
    requires forall d :: d in t.dirs ==> SameClusters(t, t', data, data', d)
    requires OnDisk(count, cb, up, data, t)
    ensures OnDisk(count, cb, up, data', t')
  {
    hide OwnersOk, DirOk, ChainsInHeap;
    forall d | d in t'.dirs ensures Here(count, cb, up, data', t', d) {
      assert Here(count, cb, up, data, t, d);
      assert SameClusters(t, t', data, data', d);
      HereFrame(count, cb, up, data, data', t, t', d);
    }
  }

  ghost predicate SameClusters(t: Tree, t': Tree, data: seq<seq<byte>>, data': seq<seq<byte>>, d: nat)
    requires OwnersOk(t.lay) && OwnersOk(t'.lay) && d in t.lay.owner && d in t'.lay.owner
  {
    && DirChain(t', d) == DirChain(t, d)
    && forall k :: 0 <= k < |DirChain(t, d)| ==>
         DirChain(t, d)[k] < |data| && DirChain(t, d)[k] < |data'|
           && data'[DirChain(t, d)[k]] == data[DirChain(t, d)[k]]
  }

  lemma SetWithin(count: nat, cb: nat, up: Upcase, content: seq<byte>, ents: map<nat, Rec>, slot: nat)
    requires cb > 0 && DirOk(count, cb, up, content, ents) && slot in ents && |content| <= MAX_DIRECTORY_BYTES
    ensures ents[slot].size >= 3 && slot + ents[slot].size <= Slots(content) <= MAX_SLOT + 1
  {
    SetOf(count, cb, up, content, ents, slot);
  }

  lemma SameTree(t: Tree, t': Tree)
    requires t.root == t'.root && t.lay == t'.lay && t.dirs == t'.dirs && t.rank == t'.rank
    ensures t == t'
  {
  }

  lemma RedrawnDisk(count: nat, cb: nat, up: Upcase, data: seq<seq<byte>>, data': seq<seq<byte>>, t: Tree, d: nat,
                    ents: map<nat, Rec>, gone: set<nat>)
    requires DataOk(count, cb, data) && DataOk(count, cb, data')
    requires ChainsInHeap(count, t.lay) && OwnersOk(t.lay)
    requires forall d :: d in t.dirs ==> d in t.lay.owner && t.lay.owner[d].index == 0
    requires OnDisk(count, cb, up, data, t) && d in t.dirs && t.lay.owner[d].id in t.lay.chain
    requires SameOutside(data, data', t.lay.chain[t.lay.owner[d].id])
    requires Clusters(count, t.lay.chain[t.lay.owner[d].id])
    requires DirOk(count, cb, up, Content(count, cb, data', t.lay.chain[t.lay.owner[d].id]), ents)
    ensures OnDisk(count, cb, up, data', t.(dirs := t.dirs[d := ents] - gone))
  {
    OnDiskWrite(count, cb, up, data, data', t, d, ents);
    var t1, t2 := t.(dirs := t.dirs[d := ents]), t.(dirs := t.dirs[d := ents] - gone);
    hide DirOk, OwnersOk;
    forall e | e in t2.dirs ensures Here(count, cb, up, data', t2, e) {
      assert Here(count, cb, up, data', t1, e);
    }
  }

  /** Another stream's list replaced: no directory is concerned. */
  lemma FileRelisted(t: Tree, lay': Layout, id: Id, head: Head, cs: seq<nat>)
    requires OwnersOk(t.lay) && OwnersOk(lay') && id in t.lay.chain && id in t.lay.heads
    requires lay'.chain == t.lay.chain[id := cs] && lay'.heads == t.lay.heads[id := head]
    requires forall d :: d in t.dirs && d in t.lay.owner ==> t.lay.owner[d].id != id
    ensures Relisted(t, lay', id, head, cs)
  {
    if t.lay.chain[id] != [] { assert t.lay.owner[t.lay.chain[id][0]] == Place(id, 0); }
  }

  lemma ApartFromDir(count: nat, data: seq<seq<byte>>, data': seq<seq<byte>>, t: Tree, id: Id, d: nat)
    requires |data| == |data'| == count + 2 && ChainsInHeap(count, t.lay) && OwnersOk(t.lay) && id in t.lay.chain
    requires d in t.lay.owner && t.lay.owner[d].id != id
    requires SameOutside(data, data', t.lay.chain[id])
    ensures SameClusters(t, t, data, data', d)
  {
    var p := t.lay.owner[d].id;
    assert p in t.lay.chain && Clusters(count, t.lay.chain[p]);
    hide OwnersOk;
    forall k | 0 <= k < |DirChain(t, d)|
      ensures DirChain(t, d)[k] < |data| && data'[DirChain(t, d)[k]] == data[DirChain(t, d)[k]]
    {
      ChainsApart(t.lay, p, id, DirChain(t, d)[k]);
    }
  }

  lemma HeldIs(count: nat, cb: nat, data: seq<seq<byte>>, lay: Layout, id: Id)
    requires DataOk(count, cb, data) && id in lay.chain && Clusters(count, lay.chain[id])
    ensures Held(count, cb, data, lay, id) == Content(count, cb, data, lay.chain[id])
  {
  }

  lemma ChainClusters(count: nat, lay: Layout, id: Id)
    requires ChainsInHeap(count, lay) && id in lay.chain
    ensures Clusters(count, lay.chain[id])
  {
  }

  lemma StoredFile(cb: nat, t: Tree, d: nat, s: nat, stream: Stream)
    requires cb > 0 && t.Has(d, s) && !t.At(d, s).entry.IsDirectory()
    requires NodeId(d, s) in t.lay.chain && NodeId(d, s) in t.lay.heads
    requires t.lay.heads[NodeId(d, s)] == Head(stream.first, stream.contiguous)
             && |t.lay.chain[NodeId(d, s)]| == CeilDiv(stream.length, cb)
    ensures var t' := t.WithStream(d, s, stream);
            && t'.Has(d, s) && NodeOk(cb, t', d, s) && t'.At(d, s).entry.stream == stream
            && !t'.At(d, s).entry.IsDirectory()
  {
  }

  lemma MoreDirectory(s: Stream, s': Stream, n: nat, cb: nat)
    requires cb > 0 && s.length == n * cb && s'.length == s'.valid == s.length + cb <= MAX_DIRECTORY_BYTES
    ensures DirectoryStream(cb, s') && CeilDiv(s'.length, cb) == n + 1
  {
    OneMore(n, cb);
    DivModUnique(s'.length, cb, n + 1, 0);
    DivModUnique(s'.length + cb - 1, cb, n + 1, cb - 1);
  }

  lemma RelistedDir(t: Tree, lay': Layout, id: Id, head: Head, cs: seq<nat>)
    requires OwnersOk(lay') && id in t.lay.chain && id in t.lay.heads && t.lay.chain[id] != [] && t.lay.chain[id] <= cs
    requires lay'.chain == t.lay.chain[id := cs] && lay'.heads == t.lay.heads[id := head]
    ensures Relisted(t, lay', id, head, cs) && cs != [] && cs[0] == t.lay.chain[id][0]
  {
  }

  lemma RootParts(cb: nat, t: Tree)
    requires cb > 0 && RootOk(cb, t)
    ensures Sized(cb, t.lay, RootId, t.root) && !t.root.contiguous && DirectoryStream(cb, t.root)
            && t.root.first in t.dirs
    ensures RootId in t.lay.heads && t.lay.heads[RootId] == Head(t.root.first, false)
  {
  }

  lemma RelistedParts(t: Tree, lay': Layout, id: Id, head: Head, cs: seq<nat>)
    requires Relisted(t, lay', id, head, cs)
    ensures id in t.lay.chain && id in t.lay.heads && OwnersOk(lay')
    ensures lay'.chain == t.lay.chain[id := cs] && lay'.heads == t.lay.heads[id := head]
  {
  }

  lemma KindKept(t: Tree, d: nat, s: nat, stream: Stream)
    requires t.Has(d, s)
    ensures var t' := t.WithStream(d, s, stream);
            && t'.Has(d, s) && t'.At(d, s).entry.stream == stream
            && t'.At(d, s).entry.IsDirectory() == t.At(d, s).entry.IsDirectory()
  {
  }

  lemma StoredDir(cb: nat, t: Tree, d: nat, s: nat, stream: Stream)
    requires cb > 0 && t.Has(d, s) && t.At(d, s).entry.IsDirectory() && DirectoryStream(cb, stream)
             && stream.first in t.dirs
    requires NodeId(d, s) in t.lay.chain && NodeId(d, s) in t.lay.heads
    requires t.lay.heads[NodeId(d, s)] == Head(stream.first, stream.contiguous)
             && |t.lay.chain[NodeId(d, s)]| == CeilDiv(stream.length, cb)
    ensures var t' := t.WithStream(d, s, stream);
            && t'.Has(d, s) && NodeOk(cb, t', d, s) && t'.At(d, s).entry.stream == stream
            && t'.At(d, s).entry.IsDirectory()
  {
  }

  lemma RunSlots(content: seq<byte>, slot: nat, n: nat, length: nat)
    requires RunUpTo(content, slot + n, n) && |content| == length && length % 32 == 0 && length <= MAX_DIRECTORY_BYTES
             && n > 0
    ensures slot * 32 + n * 32 <= length && (slot + n) * 32 <= length && slot <= MAX_SLOT && slot + n <= Slots(content)
  {
  }

  lemma FreshSlot(t: Tree, d: nat, slot: nat)
    requires d in t.dirs && slot !in t.dirs[d]
    ensures !t.Has(d, slot)
  {
  }

  lemma HomedRank(t: Tree, d: nat)
    requires Homed(t, d)
    ensures d in t.rank && d in t.lay.owner
  {
  }

  lemma StoredParts(t: Tree, d: nat, s: nat, stream: Stream)
    requires t.Has(d, s)
    ensures var t' := t.WithStream(d, s, stream);
            && t'.Has(d, s) && t'.At(d, s) == t.At(d, s).(entry := t.At(d, s).entry.(stream := stream))
            && t'.At(d, s).entry.IsDirectory() == t.At(d, s).entry.IsDirectory()
  {
  }

  lemma OneCluster(s: Stream, cb: nat)
    requires 0 < cb <= 0x200_0000 && cb % ENTRY_BYTES == 0 && s.length == cb && s.valid == cb
    ensures DirectoryStream(cb, s) && CeilDiv(s.length, cb) == 1 && cb % 32 == 0
  {
    DivModUnique(cb + cb - 1, cb, 1, cb - 1);
    DivModUnique(cb, cb, 1, 0);
  }

  lemma SlotBound(content: seq<byte>, length: nat)
    requires |content| == length <= MAX_DIRECTORY_BYTES
    ensures Slots(content) <= MAX_SLOT + 1
  {
  }

  lemma LayHas(t: Tree, lay': Layout, d: nat, s: nat)
    ensures t.(lay := lay').Has(d, s) == t.Has(d, s)
  {
  }

  lemma UnknownGone(t: Tree, d: nat, s: nat)
    requires !t.Has(d, s)
    ensures !Known(t, {}, NodeId(d, s))
  {
  }

  lemma OwnersStill(t: Tree, lay': Layout, id: Id, cs: seq<nat>)
    requires OwnersOk(t.lay) && OwnersOk(lay') && id in t.lay.chain && lay'.chain == t.lay.chain[id := cs]
    requires forall e :: e in t.dirs ==> e in t.lay.owner && t.lay.owner[e].index == 0 && t.lay.owner[e].id != id
    ensures forall e :: e in t.dirs ==> e in lay'.owner && lay'.owner[e] == t.lay.owner[e]
  {
    hide OwnersOk;
    forall e | e in t.dirs ensures e in lay'.owner && lay'.owner[e] == t.lay.owner[e] {
      HomesKept(t, lay', id, cs, e);
    }
  }

  lemma HasOf(t: Tree, d: nat, s: nat)
    requires d in t.dirs && s in t.dirs[d]
    ensures t.Has(d, s) && t.At(d, s) == t.dirs[d][s]
  {
  }

  lemma SameStream(t: Tree, d: nat, s: nat)
    requires t.Has(d, s)
    ensures t.WithStream(d, s, t.At(d, s).entry.stream) == t
  {
    var rec := t.At(d, s);
    assert rec.(entry := rec.entry.(stream := rec.entry.stream)) == rec;
    var ents: map<nat, Rec> := t.dirs[d];
    assert ents[s := rec] == ents;
    assert t.dirs[d := ents] == t.dirs;
  }

  lemma OneFirst(t: Tree, d: nat, e: nat)
    requires OwnersOk(t.lay) && d in t.lay.owner && e in t.lay.owner && t.lay.owner[d] == t.lay.owner[e]
    ensures d == e
  {
  }
}
