/** Node identifiers of kernel/fs/exfat.cpp: the parent directory's first cluster, the
    slot of the entry set, and whether the parent was contiguous at the time. */
module ExfatIds {
  import opened Common
  import opened ExfatDisk
  import opened ExfatLayout
  import opened ExfatEntries
  import opened ExfatDirectory
  import opened ExfatTree

  const ROOT_ID: nat := 0

  /** `encode_id`. */
  function EncodeId(first: nat, slot: nat, contiguous: bool): nat {
    first + slot * 0x1_0000_0000 + (if contiguous then 0x80_0000_0000_0000 else 0)
  }

  function IdFirst(id: nat): nat { id % 0x1_0000_0000 }

  function IdSlot(id: nat): nat { id / 0x1_0000_0000 % 0x80_0000 }

  predicate IdContiguous(id: nat) { id / 0x80_0000_0000_0000 % 2 == 1 }

  lemma IdRoundTrip(first: nat, slot: nat, contiguous: bool)
    requires first < 0x1_0000_0000 && slot <= MAX_SLOT
    ensures var id := EncodeId(first, slot, contiguous);
            IdFirst(id) == first && IdSlot(id) == slot && IdContiguous(id) == contiguous
  {
  }

  /** How many clusters of the parent reach the end of a set. */
  function Span(cb: nat, slot: nat, size: nat): nat
    requires cb > 0
  {
    CeilDiv((slot + size) * ENTRY_BYTES, cb)
  }

  /** The identifier names an entry set: either way of walking the parent that its
      contiguity bit may ask for reaches the set. */
  ghost predicate Handle(cb: nat, t: Tree, id: nat)
    requires cb > 0
  {
    var d, s := IdFirst(id), IdSlot(id);
    && t.Has(d, s) && d in t.lay.owner
    && var p := t.lay.owner[d].id;
    && p in t.lay.chain && p in t.lay.heads
    && var cs, n := t.lay.chain[p], Span(cb, s, t.At(d, s).size);
    && n <= |cs|
    && (if IdContiguous(id) then forall k :: 0 <= k < n ==> cs[k] == d + k else !t.lay.heads[p].contiguous)
  }

  /** The stream `locate` makes of an identifier. */
  function ParentStream(id: nat): Stream {
    var length := (IdSlot(id) + MAX_SET) * ENTRY_BYTES;
    Stream(IdFirst(id), length, length, IdContiguous(id))
  }

  /** The part of the parent directory an identifier reaches. */
  ghost function ParentChain(cb: nat, t: Tree, id: nat): seq<nat>
    requires cb > 0 && Handle(cb, t, id)
  {
    t.lay.chain[t.lay.owner[IdFirst(id)].id][..Span(cb, IdSlot(id), t.At(IdFirst(id), IdSlot(id)).size)]
  }

  lemma HandleReaches(count: nat, fat: seq<nat>, cb: nat, t: Tree, id: nat)
    requires |fat| == count + 2 && cb > 0 && Handle(cb, t, id) && ChainsOk(count, fat, t.lay) && OwnersOk(t.lay)
    requires t.lay.owner[IdFirst(id)].index == 0
    ensures Reaches(count, fat, ParentStream(id), ParentChain(cb, t, id))
  {
    var d := IdFirst(id);
    var p := t.lay.owner[d].id;
    var cs, head, n := t.lay.chain[p], t.lay.heads[p], |ParentChain(cb, t, id)|;
    assert ChainOk(count, fat, head.first, head.contiguous, cs) && cs[0] == d;
    ChainReaches(count, fat, Stream(head.first, 0, 0, head.contiguous), cs);
    forall k | 0 <= k < n ensures InHeap(count, cs[k]) && ClusterRef(count, fat, ParentStream(id), k) == Some(cs[k]) {
    }
  }

  lemma SpanCovers(cb: nat, slot: nat, size: nat)
    requires cb > 0
    ensures (slot + size) * ENTRY_BYTES <= Span(cb, slot, size) * cb
  {
    var a := (slot + size) * ENTRY_BYTES;
    var q := (a + cb - 1) / cb;
    assert a + cb - 1 == q * cb + (a + cb - 1) % cb;
  }

  /** What any single operation may do to the directories it keeps: cluster lists only
      grow, contiguous ones may become chained, sets do not move. */
  ghost predicate Evolves(t: Tree, t': Tree) {
    forall d :: d in t.dirs && d in t'.dirs && d in t.lay.owner && d in t'.lay.owner ==>
      var p, p' := t.lay.owner[d].id, t'.lay.owner[d].id;
      && (p in t.lay.chain && p in t.lay.heads && p' in t'.lay.chain && p' in t'.lay.heads ==>
            t.lay.chain[p] <= t'.lay.chain[p'] && (t'.lay.heads[p'].contiguous ==> t.lay.heads[p].contiguous))
      && forall s :: s in t.dirs[d] && s in t'.dirs[d] ==> t'.dirs[d][s].size == t.dirs[d][s].size
  }

  lemma EvolvesSame(t: Tree)
    ensures Evolves(t, t)
  {
  }

  /** A change that leaves every directory's own clusters alone. */
  lemma EvolvesAside(t: Tree, t': Tree)
    requires forall d :: d in t.dirs && d in t'.dirs && d in t.lay.owner && d in t'.lay.owner ==>
               var p, p' := t.lay.owner[d].id, t'.lay.owner[d].id;
               && (p in t.lay.chain && p in t.lay.heads && p' in t'.lay.chain && p' in t'.lay.heads ==>
                     t.lay.chain[p] == t'.lay.chain[p'] && t'.lay.heads[p'].contiguous == t.lay.heads[p].contiguous)
    requires forall e, q :: t.Has(e, q) && t'.Has(e, q) ==> t'.At(e, q).size == t.At(e, q).size
    ensures Evolves(t, t')
  {
    forall d | d in t.dirs && d in t'.dirs && d in t.lay.owner && d in t'.lay.owner
      ensures forall s :: s in t.dirs[d] && s in t'.dirs[d] ==> t'.dirs[d][s].size == t.dirs[d][s].size
    {
      forall s | s in t.dirs[d] && s in t'.dirs[d] ensures t'.dirs[d][s].size == t.dirs[d][s].size {
        assert t.Has(d, s) && t'.Has(d, s) && t'.At(d, s).size == t.At(d, s).size;
      }
    }
  }

  /** A file resized and its set rewritten. */
  lemma EvolvesFile(t: Tree, lay': Layout, id: Id, head: Head, cs: seq<nat>, d: nat, s: nat, stream: Stream)
    requires OwnersOk(t.lay) && OwnersOk(lay') && id in t.lay.chain && t.Has(d, s)
    requires lay'.chain == t.lay.chain[id := cs] && lay'.heads == t.lay.heads[id := head]
    requires forall e :: e in t.dirs ==> e in t.lay.owner && t.lay.owner[e].index == 0 && t.lay.owner[e].id != id
    ensures Evolves(t, t.(lay := lay').WithStream(d, s, stream))
  {
    var t' := t.(lay := lay').WithStream(d, s, stream);
    WithStreamFacts(t.(lay := lay'), d, s, stream);
    hide Tree.WithStream, Tree.With;
    forall e | e in t.dirs ensures e in lay'.owner && lay'.owner[e] == t.lay.owner[e] {
      HomesKept(t, lay', id, cs, e);
    }
    hide OwnersOk;
    forall e, q | t.Has(e, q) && t'.Has(e, q) ensures t'.At(e, q).size == t.At(e, q).size {
      assert t.(lay := lay').Has(e, q);
    }
    EvolvesAside(t, t');
  }

  /** One directory lengthened, perhaps no longer contiguous. */
  lemma EvolvesGrown(t: Tree, t': Tree, p: Id, head: Head, cs: seq<nat>)
    requires p in t.lay.chain && p in t.lay.heads && t'.lay.chain == t.lay.chain[p := cs]
             && t'.lay.heads == t.lay.heads[p := head]
    requires t.lay.chain[p] <= cs && (head.contiguous ==> t.lay.heads[p].contiguous)
    requires forall d :: d in t.dirs ==> d in t.lay.owner && d in t'.lay.owner && t'.lay.owner[d] == t.lay.owner[d]
    requires forall e, q :: t.Has(e, q) && t'.Has(e, q) ==> t'.At(e, q).size == t.At(e, q).size
    ensures Evolves(t, t')
  {
    forall d | d in t.dirs && d in t'.dirs && d in t.lay.owner && d in t'.lay.owner
      ensures forall s :: s in t.dirs[d] && s in t'.dirs[d] ==> t'.dirs[d][s].size == t.dirs[d][s].size
    {
      forall s | s in t.dirs[d] && s in t'.dirs[d] ensures t'.dirs[d][s].size == t.dirs[d][s].size {
        assert t.Has(d, s) && t'.Has(d, s) && t'.At(d, s).size == t.At(d, s).size;
      }
    }
  }

  /** A directory does not hold the set that names it. */
  lemma NotOwnHolder(t: Tree, d: nat, s: nat)
    requires Homed(t, d)
    ensures d in t.lay.owner && t.lay.owner[d].id != NodeId(d, s)
  {
  }

  lemma EvolvesTwice(t: Tree, t1: Tree, t2: Tree)
    requires Evolves(t, t1) && Evolves(t1, t2) && OwnersOk(t1.lay) && t1.lay.heads.Keys == t1.lay.chain.Keys
    requires forall d :: d in t.dirs && d in t2.dirs ==> d in t1.dirs && d in t1.lay.owner
    requires forall d, s :: t.Has(d, s) && t2.Has(d, s) ==> t1.Has(d, s)
    ensures Evolves(t, t2)
  {
    forall d | d in t.dirs && d in t2.dirs && d in t.lay.owner && d in t2.lay.owner
      ensures forall s :: s in t.dirs[d] && s in t2.dirs[d] ==> t2.dirs[d][s].size == t.dirs[d][s].size
      ensures var p, p' := t.lay.owner[d].id, t2.lay.owner[d].id;
              p in t.lay.chain && p in t.lay.heads && p' in t2.lay.chain && p' in t2.lay.heads ==>
                t.lay.chain[p] <= t2.lay.chain[p'] && (t2.lay.heads[p'].contiguous ==> t.lay.heads[p].contiguous)
    {
      forall s | s in t.dirs[d] && s in t2.dirs[d] ensures t2.dirs[d][s].size == t.dirs[d][s].size {
        assert t.Has(d, s) && t2.Has(d, s) && t1.Has(d, s);
      }
    }
  }

  /** A set added. */
  lemma EvolvesWith(t: Tree, d: nat, s: nat, rec: Rec)
    requires d in t.dirs && !t.Has(d, s)
    ensures Evolves(t, t.With(d, s, rec))
  {
  }

  /** Resizing a file leaves every identifier as it is. */
  lemma HandleAside(cb: nat, t: Tree, lay': Layout, id: Id, head: Head, cs: seq<nat>, h: nat)
    requires cb > 0 && Handle(cb, t, h) && OwnersOk(t.lay) && OwnersOk(lay') && id in t.lay.chain
    requires lay'.chain == t.lay.chain[id := cs] && lay'.heads == t.lay.heads[id := head]
    requires IdFirst(h) in t.dirs && t.lay.owner[IdFirst(h)].index == 0 && t.lay.owner[IdFirst(h)].id != id
    ensures Handle(cb, t.(lay := lay'), h)
    ensures ParentChain(cb, t.(lay := lay'), h) == ParentChain(cb, t, h)
  {
    HomesKept(t, lay', id, cs, IdFirst(h));
    hide OwnersOk;
  }

  /** An identifier handed out earlier still names its set, although the bit in it may
      no longer say how the parent is laid out. */
  lemma HandleKept(cb: nat, t: Tree, t': Tree, id: nat)
    requires cb > 0 && Handle(cb, t, id) && Evolves(t, t')
    requires OwnersOk(t'.lay) && t'.lay.heads.Keys == t'.lay.chain.Keys
    requires t'.Has(IdFirst(id), IdSlot(id)) && IdFirst(id) in t'.lay.owner
    ensures Handle(cb, t', id)
  {
  }

  /** The identifier of a set, made while its directory looks as it does now. */
  lemma FreshHandle(cb: nat, t: Tree, d: nat, s: nat, contiguous: bool)
    requires cb > 0 && d < 0x1_0000_0000 && s <= MAX_SLOT && t.Has(d, s) && d in t.lay.owner
             && t.lay.owner[d].index == 0
    requires var p := t.lay.owner[d].id;
             && p in t.lay.chain && p in t.lay.heads && t.lay.heads[p].contiguous == contiguous
             && (contiguous ==> forall k :: 0 <= k < |t.lay.chain[p]| ==> t.lay.chain[p][k] == d + k)
             && (s + t.At(d, s).size) * ENTRY_BYTES <= |t.lay.chain[p]| * cb
    ensures Handle(cb, t, EncodeId(d, s, contiguous))
  {
    IdRoundTrip(d, s, contiguous);
    SpanAtMost(cb, s, t.At(d, s).size, |t.lay.chain[t.lay.owner[d].id]|);
  }

  lemma SpanAtMost(cb: nat, slot: nat, size: nat, n: nat)
    requires cb > 0 && (slot + size) * ENTRY_BYTES <= n * cb
    ensures Span(cb, slot, size) <= n
  {
    var a := (slot + size) * ENTRY_BYTES;
    var q := (a + cb - 1) / cb;
    assert a + cb - 1 == q * cb + (a + cb - 1) % cb;
    MulMono(n + 1, q, cb);
    assert (n + 1) * cb == n * cb + cb;
  }

  /** The identifier names a directory. */
  ghost predicate DirNamed(t: Tree, h: nat) {
    h == ROOT_ID || (t.Has(IdFirst(h), IdSlot(h)) && t.At(IdFirst(h), IdSlot(h)).entry.IsDirectory())
  }

  /** The stream of the directory an identifier names. */
  ghost function DirStreamIn(t: Tree, h: nat): Stream {
    if h == ROOT_ID then t.root
    else if t.Has(IdFirst(h), IdSlot(h)) then t.At(IdFirst(h), IdSlot(h)).entry.stream
    else Stream(0, 0, 0, false)
  }

  lemma HandleParts(cb: nat, t: Tree, id: nat)
    requires cb > 0 && Handle(cb, t, id)
    ensures var d, s := IdFirst(id), IdSlot(id);
            && d in t.dirs && s in t.dirs[d] && t.Has(d, s) && t.At(d, s) == t.dirs[d][s]
            && d in t.lay.owner && t.lay.owner[d].id in t.lay.chain && t.lay.owner[d].id in t.lay.heads
            && s <= MAX_SLOT
  {
  }

  lemma Constants()
    ensures ENTRY_BYTES == 32 && MAX_SET == 19 && MAX_SLOT == 0x7F_FFFF && MAX_DIRECTORY_BYTES == 0x1000_0000
            && ROOT_ID == 0
  {
  }

  lemma HandleHas(cb: nat, t: Tree, h: nat)
    requires cb > 0 && Handle(cb, t, h)
    ensures t.Has(IdFirst(h), IdSlot(h)) && IdFirst(h) in t.lay.owner
  {
  }

  lemma ParentPart(cb: nat, t: Tree, h: nat)
    requires cb > 0 && Handle(cb, t, h)
    ensures var d := IdFirst(h);
            && d in t.lay.owner && t.lay.owner[d].id in t.lay.chain && t.Has(d, IdSlot(h))
            && ParentChain(cb, t, h) <= t.lay.chain[t.lay.owner[d].id]
            && |ParentChain(cb, t, h)| == Span(cb, IdSlot(h), t.At(d, IdSlot(h)).size)
  {
  }

  lemma ParentLength(h: nat, size: nat)
    requires size <= MAX_SET
    ensures (IdSlot(h) + size) * ENTRY_BYTES <= ParentStream(h).length
  {
  }

  /** Rewriting a stream keeps the sizes identifiers depend on. */
  lemma HandleStored(cb: nat, t: Tree, d: nat, s: nat, stream: Stream, h: nat)
    requires cb > 0 && t.Has(d, s) && Handle(cb, t, h)
    ensures Handle(cb, t.WithStream(d, s, stream), h)
  {
  }

  lemma EvolvesOn(t: Tree, t1: Tree, t': Tree)
    requires t1.dirs == t.dirs && Evolves(t, t1) && Evolves(t1, t') && OwnersOk(t1.lay)
             && t1.lay.heads.Keys == t1.lay.chain.Keys
    requires forall d :: d in t1.dirs ==> d in t1.lay.owner
    ensures Evolves(t, t')
  {
    hide Evolves, OwnersOk;
    forall d, s | t.Has(d, s) && t'.Has(d, s) ensures t1.Has(d, s) {
    }
    EvolvesTwice(t, t1, t');
  }

  lemma NamedHas(t: Tree, h: nat)
    requires DirNamed(t, h) && h != ROOT_ID
    ensures t.Has(IdFirst(h), IdSlot(h)) && t.At(IdFirst(h), IdSlot(h)).entry.IsDirectory()
  {
  }

  lemma HandleMade(count: nat, fat: seq<nat>, cb: nat, t: Tree, s: Stream, p: Id, slot: nat)
    requires |fat| == count + 2 && count < END_OF_CHAIN - 1 && cb > 0 && slot <= MAX_SLOT && t.Has(s.first, slot)
    requires s.first in t.lay.owner && t.lay.owner[s.first] == Place(p, 0) && p in t.lay.chain && p in t.lay.heads
    requires t.lay.heads[p] == Head(s.first, s.contiguous) && t.lay.chain[p] != []
    requires ChainOk(count, fat, s.first, s.contiguous, t.lay.chain[p])
    requires (slot + t.At(s.first, slot).size) * ENTRY_BYTES <= |t.lay.chain[p]| * cb
    ensures Handle(cb, t, EncodeId(s.first, slot, s.contiguous)) && s.first < 0x1_0000_0000
  {
    assert InHeap(count, t.lay.chain[p][0]);
    FreshHandle(cb, t, s.first, slot, s.contiguous);
  }
}
