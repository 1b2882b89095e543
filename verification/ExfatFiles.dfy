/** File content on an exFAT volume: the bytes stored up to ValidDataLength, then
    zeros up to DataLength. */
module ExfatFiles {
  import opened Common
  import opened ExfatDisk
  import opened ExfatLayout
  import opened ExfatEntries
  import opened ExfatDirectory
  import opened ExfatTree
  import opened ExfatIds

  // ------------------------------------------------------------ the byte model

  /** What a reader sees of a stream whose clusters hold `held`. */
  function FileOf(held: seq<byte>, s: Stream): (r: seq<byte>)
    ensures s.valid <= s.length && s.valid <= |held| ==> |r| == s.length
  {
    if s.valid <= s.length && s.valid <= |held| then held[..s.valid] + Zeros(s.length - s.valid) else []
  }

  /** At most `length` bytes of `f` from `offset` on. */
  function Window(f: seq<byte>, offset: nat, length: nat): seq<byte> {
    if offset >= |f| then [] else f[offset..Min(offset + length, |f|)]
  }

  /** The stored part of a window, then zeros. */
  lemma ReadWindow(held: seq<byte>, s: Stream, offset: nat, length: nat)
    requires s.valid <= s.length <= |held|
    ensures offset >= s.length ==> Window(FileOf(held, s), offset, length) == []
    ensures offset < s.length ==>
              var wanted := if length > s.length - offset then s.length - offset else length;
              var stored := if offset >= s.valid then 0 else if s.valid - offset < wanted then s.valid - offset
                            else wanted;
              Window(FileOf(held, s), offset, length) == held[offset..offset + stored] + Zeros(wanted - stored)
  {
  }

  /** `f` with `bytes` at `offset`, zero-padded up to there when it is shorter. */
  function Patched(f: seq<byte>, offset: nat, bytes: seq<byte>): (r: seq<byte>) {
    var end := offset + |bytes|;
    var padded := if |f| < end then f + Zeros(end - |f|) else f;
    padded[..offset] + bytes + padded[end..]
  }

  /** `f` cut or zero-extended to `size` bytes. */
  function CutTo(f: seq<byte>, size: nat): (r: seq<byte>)
    ensures |r| == size
  {
    if size <= |f| then f[..size] else f + Zeros(size - |f|)
  }

  /** `after` is `before` with zeros from `valid` to `offset` and `bytes` from there. */
  ghost predicate Filled(before: seq<byte>, valid: nat, offset: nat, bytes: seq<byte>, after: seq<byte>) {
    exists middle :: Between(before, valid, offset, middle) && Spliced(middle, offset, bytes, after)
  }

  ghost predicate Between(before: seq<byte>, valid: nat, offset: nat, middle: seq<byte>) {
    if offset > valid then Spliced(before, valid, Zeros(offset - valid), middle) else middle == before
  }

  lemma FilledIs(before: seq<byte>, valid: nat, offset: nat, bytes: seq<byte>, middle: seq<byte>, after: seq<byte>)
    requires if offset > valid then Spliced(before, valid, Zeros(offset - valid), middle) else middle == before
    requires Spliced(middle, offset, bytes, after)
    ensures Filled(before, valid, offset, bytes, after)
  {
    assert Between(before, valid, offset, middle);
  }

  /** What `write` does to the held bytes is, to a reader, a splice into the padded
      content: neither the gap nor the tail shows what the clusters held before. */
  lemma WriteModel(held: seq<byte>, grown: seq<byte>, after: seq<byte>, s: Stream, offset: nat, bytes: seq<byte>,
                   s': Stream)
    requires s.valid <= s.length <= |held| && held <= grown && 0 < |bytes| && offset + |bytes| <= |grown|
    requires Filled(grown, s.valid, offset, bytes, after)
    requires s'.length == (if offset + |bytes| > s.length then offset + |bytes| else s.length)
    requires s'.valid == (if offset + |bytes| > s.valid then offset + |bytes| else s.valid)
    ensures FileOf(after, s') == Patched(FileOf(held, s), offset, bytes)
  {
    var middle :| Between(grown, s.valid, offset, middle) && Spliced(middle, offset, bytes, after);
    var f, end := FileOf(held, s), offset + |bytes|;
    var lhs, rhs := FileOf(after, s'), Patched(f, offset, bytes);
    assert |lhs| == |rhs| == s'.length;
    forall i | 0 <= i < |lhs| ensures lhs[i] == rhs[i] {
      if i < offset {
        assert rhs[i] == if i < |f| then f[i] else 0;
        assert i < s.valid ==> f[i] == held[i] == grown[i];
      } else if i >= end {
        assert rhs[i] == f[i];
        assert i < s.valid ==> f[i] == held[i] == grown[i];
      }
    }
  }

  /** What `truncate` does to the lengths is, to a reader, a cut or a zero-extension. */
  lemma TruncateModel(held: seq<byte>, after: seq<byte>, s: Stream, size: nat, s': Stream)
    requires s.valid <= s.length <= |held| && (held <= after || after <= held) && size <= |after|
    requires s'.length == size && s'.valid == Min(s.valid, size)
    ensures FileOf(after, s') == CutTo(FileOf(held, s), size)
  {
    var lhs, rhs := FileOf(after, s'), CutTo(FileOf(held, s), size);
    forall i | 0 <= i < size ensures lhs[i] == rhs[i] {
      if i < s'.valid { assert after[i] == held[i]; }
    }
  }

  // ------------------------------------------------------------------- lengths

  lemma CeilCovers(n: nat, cb: nat)
    requires cb > 0
    ensures n <= CeilDiv(n, cb) * cb && (n == 0 <==> CeilDiv(n, cb) == 0)
  {
    var q := (n + cb - 1) / cb;
    assert n + cb - 1 == q * cb + (n + cb - 1) % cb;
    if n == 0 { DivModUnique(cb - 1, cb, 0, cb - 1); }
  }

  lemma CeilMono(a: nat, b: nat, cb: nat)
    requires cb > 0 && a <= b
    ensures CeilDiv(a, cb) <= CeilDiv(b, cb)
  {
    var p, q := (a + cb - 1) / cb, (b + cb - 1) / cb;
    assert a + cb - 1 == p * cb + (a + cb - 1) % cb && b + cb - 1 == q * cb + (b + cb - 1) % cb;
    MulMono(q + 1, p, cb);
    assert (q + 1) * cb == q * cb + cb;
  }

  /** A write that needs no more clusters than are there, or exactly what it asked
      for, leaves a list of the length its data length asks for. */
  lemma WriteLength(cb: nat, length: nat, end: nat, clusters: nat)
    requires cb > 0
    requires clusters == (if CeilDiv(end, cb) > CeilDiv(length, cb) then CeilDiv(end, cb) else CeilDiv(length, cb))
    ensures clusters == CeilDiv(if end > length then end else length, cb)
  {
    if end > length { CeilMono(length, end, cb); } else { CeilMono(end, length, cb); }
  }

  /** A stream over a well-formed list fits the on-disk fields and the checks
      `next_entry` makes of them. */
  lemma StreamFits(count: nat, cb: nat, fat: seq<nat>, s: Stream, cs: seq<nat>)
    requires |fat| == count + 2 && 0 < cb <= 0x200_0000 && count < END_OF_CHAIN - 1
    requires ChainOk(count, fat, s.first, s.contiguous, cs) && |cs| == CeilDiv(s.length, cb) && s.valid <= s.length
    ensures Storable(s) && ContentOk(count, cb, s)
  {
    CeilCovers(s.length, cb);
    MulMono(|cs|, count, cb);
    assert |cs| <= count;
    FitsWord(count, cb);
    if cs != [] { assert InHeap(count, cs[0]) && InHeap(count, cs[|cs| - 1]); }
  }

  lemma FitsWord(count: nat, cb: nat)
    requires cb <= 0x200_0000 && count < END_OF_CHAIN - 1
    ensures count * cb < 0x1_0000_0000_0000_0000
  {
    MulMono(count, END_OF_CHAIN, cb);
    MulMono(cb, 0x200_0000, END_OF_CHAIN);
  }

  // -------------------------------------------------- streams left as they were

  /** Every live stream outside `touched` keeps its clusters and their bytes. */
  ghost predicate StreamsKept(lay: Layout, data: seq<seq<byte>>, lay': Layout, data': seq<seq<byte>>,
                              touched: set<Id>) {
    forall i :: i in lay.chain && i !in touched ==> Kept(lay, data, lay', data', i)
  }

  ghost predicate Kept(lay: Layout, data: seq<seq<byte>>, lay': Layout, data': seq<seq<byte>>, i: Id) {
    && i in lay.chain && i in lay'.chain && lay'.chain[i] == lay.chain[i]
    && (i in lay.heads ==> i in lay'.heads && lay'.heads[i] == lay.heads[i])
    && (forall k :: 0 <= k < |lay.chain[i]| ==>
          lay.chain[i][k] < |data| && lay.chain[i][k] < |data'| && data'[lay.chain[i][k]] == data[lay.chain[i][k]])
  }

  lemma KeptTwice(lay: Layout, data: seq<seq<byte>>, lay1: Layout, data1: seq<seq<byte>>, lay2: Layout,
                  data2: seq<seq<byte>>, a: set<Id>, b: set<Id>)
    requires StreamsKept(lay, data, lay1, data1, a) && StreamsKept(lay1, data1, lay2, data2, b)
    ensures StreamsKept(lay, data, lay2, data2, a + b)
  {
    forall i | i in lay.chain && i !in a + b ensures Kept(lay, data, lay2, data2, i) {
      assert Kept(lay, data, lay1, data1, i) && Kept(lay1, data1, lay2, data2, i);
    }
  }

  lemma KeptSame(count: nat, lay: Layout, data: seq<seq<byte>>)
    requires |data| == count + 2 && ChainsInHeap(count, lay)
    ensures StreamsKept(lay, data, lay, data, {})
  {
    forall i | i in lay.chain ensures Kept(lay, data, lay, data, i) {
      assert Clusters(count, lay.chain[i]);
    }
  }

  /** A write inside one stream's clusters. */
  lemma KeptWrite(count: nat, lay: Layout, data: seq<seq<byte>>, data': seq<seq<byte>>, x: Id)
    requires |data| == count + 2 && ChainsInHeap(count, lay) && OwnersOk(lay) && x in lay.chain
    requires SameOutside(data, data', lay.chain[x])
    ensures StreamsKept(lay, data, lay, data', {x})
  {
    hide OwnersOk;
    forall i | i in lay.chain && i != x ensures Kept(lay, data, lay, data', i) {
      assert Clusters(count, lay.chain[i]);
      forall k | 0 <= k < |lay.chain[i]| ensures data'[lay.chain[i][k]] == data[lay.chain[i][k]] {
        ChainsApart(lay, i, x, lay.chain[i][k]);
      }
    }
  }

  /** One stream resized, and the bitmap with it. */
  lemma KeptResize(count: nat, lay: Layout, data: seq<seq<byte>>, lay': Layout, data': seq<seq<byte>>, x: Id,
                   head: Head, cs: seq<nat>)
    requires |data| == count + 2 && ChainsInHeap(count, lay) && OwnersOk(lay) && x in lay.chain && BitmapId in lay.chain
    requires lay'.chain == lay.chain[x := cs] && lay'.heads == lay.heads[x := head]
    requires SameOutside(data, data', lay.chain[BitmapId])
    ensures StreamsKept(lay, data, lay', data', {x, BitmapId})
  {
    KeptWrite(count, lay, data, data', BitmapId);
    hide OwnersOk, ChainsInHeap, SameOutside;
    forall i | i in lay.chain && i !in {x, BitmapId} ensures Kept(lay, data, lay', data', i) {
      assert Kept(lay, data, lay, data', i);
    }
  }

  lemma KeptHeld(count: nat, cb: nat, lay: Layout, data: seq<seq<byte>>, lay': Layout, data': seq<seq<byte>>, i: Id)
    requires Kept(lay, data, lay', data', i) && DataOk(count, cb, data) && DataOk(count, cb, data')
             && Clusters(count, lay.chain[i])
    ensures Held(count, cb, data', lay', i) == Held(count, cb, data, lay, i)
  {
    ContentFrame(count, cb, data, data', lay.chain[i]);
  }

  /** Growing or cutting a list keeps the bytes of the common part. */
  lemma ResizedHeld(count: nat, cb: nat, lay: Layout, data: seq<seq<byte>>, lay': Layout, data': seq<seq<byte>>, x: Id)
    requires DataOk(count, cb, data) && DataOk(count, cb, data') && ChainsInHeap(count, lay)
             && ChainsInHeap(count, lay') && OwnersOk(lay)
    requires x in lay.chain && x in lay'.chain && BitmapId in lay.chain && x != BitmapId
    requires lay.chain[x] <= lay'.chain[x] || lay'.chain[x] <= lay.chain[x]
    requires SameOutside(data, data', lay.chain[BitmapId])
    ensures |Held(count, cb, data, lay, x)| == |lay.chain[x]| * cb
            && |Held(count, cb, data', lay', x)| == |lay'.chain[x]| * cb
    ensures lay.chain[x] <= lay'.chain[x] ==> Held(count, cb, data, lay, x) <= Held(count, cb, data', lay', x)
    ensures lay'.chain[x] <= lay.chain[x] ==> Held(count, cb, data', lay', x) <= Held(count, cb, data, lay, x)
  {
    KeptWrite(count, lay, data, data', BitmapId);
    assert Kept(lay, data, lay, data', x) && Clusters(count, lay.chain[x]) && Clusters(count, lay'.chain[x]);
    hide OwnersOk, ChainsInHeap, SameOutside, Kept, StreamsKept;
    KeptHeld(count, cb, lay, data, lay, data', x);
    var cs, cs' := lay.chain[x], lay'.chain[x];
    if cs <= cs' {
      ContentPrefix(count, cb, data', cs, cs');
      IsPrefix(Content(count, cb, data', cs'), Content(count, cb, data', cs));
    }
    if cs' <= cs {
      ContentPrefix(count, cb, data', cs', cs);
      IsPrefix(Content(count, cb, data', cs), Content(count, cb, data', cs'));
    }
  }

  lemma IsPrefix<T>(all: seq<T>, part: seq<T>)
    requires |part| <= |all| && all[..|part|] == part
    ensures part <= all
  {
  }

  // ----------------------------------------------------- files left as they were

  /** The content of the file whose set is at `d`, `s`. */
  ghost function FileIn(count: nat, cb: nat, data: seq<seq<byte>>, t: Tree, d: nat, s: nat): seq<byte> {
    if t.Has(d, s) then FileOf(Held(count, cb, data, t.lay, NodeId(d, s)), t.At(d, s).entry.stream) else []
  }

  /** Every file outside `but` that is in both trees reads as before. */
  ghost predicate FilesKept(count: nat, cb: nat, t: Tree, data: seq<seq<byte>>, t': Tree, data': seq<seq<byte>>,
                            but: set<Id>) {
    forall e, q :: t.Has(e, q) && t'.Has(e, q) && !t.At(e, q).entry.IsDirectory() && NodeId(e, q) !in but ==>
      FileIn(count, cb, data', t', e, q) == FileIn(count, cb, data, t, e, q)
  }

  /** Streams kept, and entry sets of files kept, keep files as they were. */
  lemma FilesFollow(count: nat, cb: nat, t: Tree, data: seq<seq<byte>>, t': Tree, data': seq<seq<byte>>,
                    touched: set<Id>, but: set<Id>)
    requires DataOk(count, cb, data) && DataOk(count, cb, data') && ChainsInHeap(count, t.lay)
    requires StreamsKept(t.lay, data, t'.lay, data', touched)
    requires forall e, q :: t.Has(e, q) && t'.Has(e, q) && !t.At(e, q).entry.IsDirectory() && NodeId(e, q) !in but ==>
               && NodeId(e, q) in t.lay.chain && NodeId(e, q) !in touched
               && t'.At(e, q).entry.stream == t.At(e, q).entry.stream
    ensures FilesKept(count, cb, t, data, t', data', but)
  {
    hide FileOf, Held, Kept;
    forall e, q | t.Has(e, q) && t'.Has(e, q) && !t.At(e, q).entry.IsDirectory() && NodeId(e, q) !in but
      ensures FileIn(count, cb, data', t', e, q) == FileIn(count, cb, data, t, e, q)
    {
      assert Kept(t.lay, data, t'.lay, data', NodeId(e, q));
      assert Clusters(count, t.lay.chain[NodeId(e, q)]);
      KeptHeld(count, cb, t.lay, data, t'.lay, data', NodeId(e, q));
    }
  }

  lemma LayAside(t: Tree, lay': Layout, d: nat, s: nat)
    requires t.Has(d, s)
    ensures t.(lay := lay').Has(d, s) && t.(lay := lay').At(d, s) == t.At(d, s)
  {
  }

  lemma HasParts(t: Tree, d: nat, s: nat)
    requires t.Has(d, s)
    ensures d in t.dirs && s in t.dirs[d] && t.At(d, s) == t.dirs[d][s]
  {
  }

  /** One file's set rewritten: every other file reads as before. */
  lemma FilesStored(count: nat, cb: nat, up: Upcase, t: Tree, data: seq<seq<byte>>, lay': Layout, data': seq<seq<byte>>,
                    touched: set<Id>, d: nat, s: nat, stream: Stream)
    requires DataOk(count, cb, data) && DataOk(count, cb, data') && ChainsInHeap(count, t.lay)
    requires cb > 0 && Shape(cb, up, t, {}, {}) && t.Has(d, s) && d in t.lay.owner
    requires touched == {NodeId(d, s), BitmapId, t.lay.owner[d].id}
    requires StreamsKept(t.lay, data, lay', data', touched)
    ensures FilesKept(count, cb, t, data, t.(lay := lay').WithStream(d, s, stream), data', {NodeId(d, s)})
  {
    hide *;
    ShapeOf(cb, up, t, {}, {});
    LayAside(t, lay', d, s);
    var t' := t.(lay := lay').WithStream(d, s, stream);
    WithStreamFacts(t.(lay := lay'), d, s, stream);
    forall e, q | t.Has(e, q) && t'.Has(e, q) && !t.At(e, q).entry.IsDirectory() && NodeId(e, q) != NodeId(d, s)
      ensures NodeId(e, q) in t.lay.chain && NodeId(e, q) !in touched
      ensures t'.At(e, q).entry.stream == t.At(e, q).entry.stream
    {
      ShapeNode(cb, up, t, {}, {}, e, q);
      NodeParts(cb, t, e, q);
      FileApart(cb, up, t, {}, {}, e, q);
      LayAside(t, lay', e, q);
      HasParts(t, d, s);
    }
    FilesFollow(count, cb, t, data, t', data', touched, {NodeId(d, s)});
  }

  lemma FilesSame(count: nat, cb: nat, t: Tree, data: seq<seq<byte>>, but: set<Id>)
    ensures FilesKept(count, cb, t, data, t, data, but)
  {
  }

  lemma FilesMore(count: nat, cb: nat, t: Tree, data: seq<seq<byte>>, t': Tree, data': seq<seq<byte>>, but: set<Id>,
                  more: set<Id>)
    requires FilesKept(count, cb, t, data, t', data', but) && but <= more
    ensures FilesKept(count, cb, t, data, t', data', more)
  {
    hide FileIn;
  }

  /** Only the bitmap's bytes were rewritten. */
  lemma FilesAside(count: nat, cb: nat, up: Upcase, t: Tree, data: seq<seq<byte>>, data': seq<seq<byte>>)
    requires DataOk(count, cb, data) && DataOk(count, cb, data') && ChainsInHeap(count, t.lay)
    requires cb > 0 && Shape(cb, up, t, {}, {}) && StreamsKept(t.lay, data, t.lay, data', {BitmapId})
    ensures FilesKept(count, cb, t, data, t, data', {})
  {
    hide *;
    forall e, q | t.Has(e, q) && !t.At(e, q).entry.IsDirectory() ensures NodeId(e, q) in t.lay.chain {
      ShapeNode(cb, up, t, {}, {}, e, q);
      NodeParts(cb, t, e, q);
    }
    FilesFollow(count, cb, t, data, t, data', {BitmapId}, {});
  }

  /** Nothing in the tree differs but the stream of one set. */
  ghost predicate OnlyStream(t: Tree, t': Tree, d: nat, s: nat) {
    && t.Has(d, s) && t'.Has(d, s) && t'.root == t.root && t'.rank == t.rank
    && t'.dirs == t.WithStream(d, s, t'.At(d, s).entry.stream).dirs
  }

  lemma OneStream(t: Tree, lay': Layout, d: nat, s: nat, stream: Stream)
    requires t.Has(d, s)
    ensures OnlyStream(t, t.(lay := lay').WithStream(d, s, stream), d, s)
  {
  }

  // ---------------------------------------------- directories left as they were

  lemma DirNotBitmap(cb: nat, up: Upcase, t: Tree, extra: set<Id>, skip: set<Id>, d: nat)
    requires cb > 0 && Shape(cb, up, t, extra, skip) && d in t.dirs
    ensures d in t.lay.owner && t.lay.owner[d].id != BitmapId && t.lay.owner[d].id != UpcaseId
            && t.lay.owner[d].id != PendingId
  {
    ShapeHome(cb, up, t, extra, skip, d);
  }

  lemma DirChainIs(t: Tree, d: nat)
    requires OwnersOk(t.lay) && d in t.lay.owner
    ensures t.lay.owner[d].id in t.lay.chain && DirChain(t, d) == t.lay.chain[t.lay.owner[d].id]
  {
  }

  lemma HereOf(count: nat, cb: nat, up: Upcase, data: seq<seq<byte>>, t: Tree, d: nat)
    requires DataOk(count, cb, data) && ChainsInHeap(count, t.lay) && OwnersOk(t.lay)
    requires forall d :: d in t.dirs ==> d in t.lay.owner
    requires OnDisk(count, cb, up, data, t) && d in t.dirs
    ensures Clusters(count, DirChain(t, d)) && DirOk(count, cb, up, Content(count, cb, data, DirChain(t, d)), t.dirs[d])
  {
    assert Here(count, cb, up, data, t, d);
  }

  /** A directory whose stream is kept holds the same sets. */
  lemma DirKept(count: nat, cb: nat, up: Upcase, t: Tree, data: seq<seq<byte>>, lay': Layout, data': seq<seq<byte>>,
                d: nat)
    requires DataOk(count, cb, data) && DataOk(count, cb, data')
    requires ChainsInHeap(count, t.lay) && OwnersOk(t.lay) && ChainsInHeap(count, lay') && OwnersOk(lay')
    requires d in t.dirs && d in t.lay.owner && d in lay'.owner && lay'.owner[d] == t.lay.owner[d]
    requires Kept(t.lay, data, lay', data', t.lay.owner[d].id) && Here(count, cb, up, data, t, d)
    ensures Here(count, cb, up, data', t.(lay := lay'), d)
  {
    hide OwnersOk, ChainsInHeap, DirOk;
    HereFrame(count, cb, up, data, data', t, t.(lay := lay'), d);
  }

  /** The heads of kept streams stay where they are. */
  lemma HomeKept(t: Tree, lay': Layout, data: seq<seq<byte>>, data': seq<seq<byte>>, d: nat)
    requires OwnersOk(t.lay) && OwnersOk(lay') && d in t.lay.owner && t.lay.owner[d].index == 0
    requires Kept(t.lay, data, lay', data', t.lay.owner[d].id)
    ensures d in lay'.owner && lay'.owner[d] == t.lay.owner[d]
  {
    assert t.lay.chain[t.lay.owner[d].id][0] == d;
    assert lay'.chain[t.lay.owner[d].id][0] == d;
  }

  /** Only streams that are no directory's were touched. */
  lemma DisksKept(count: nat, cb: nat, up: Upcase, t: Tree, data: seq<seq<byte>>, lay': Layout, data': seq<seq<byte>>,
                  touched: set<Id>)
    requires DataOk(count, cb, data) && DataOk(count, cb, data')
    requires ChainsInHeap(count, t.lay) && OwnersOk(t.lay) && ChainsInHeap(count, lay') && OwnersOk(lay')
    requires StreamsKept(t.lay, data, lay', data', touched) && OnDisk(count, cb, up, data, t)
    requires forall d :: d in t.dirs ==> d in t.lay.owner && t.lay.owner[d].index == 0 && t.lay.owner[d].id !in touched
    ensures OnDisk(count, cb, up, data', t.(lay := lay'))
    ensures forall d :: d in t.dirs ==> d in lay'.owner && lay'.owner[d] == t.lay.owner[d]
  {
    hide Kept, OwnersOk, ChainsInHeap, DirOk, Here;
    forall d | d in t.dirs
           ensures d in lay'.owner && lay'.owner[d] == t.lay.owner[d]
           && Here(count, cb, up, data', t.(lay := lay'), d) {
      DirChainIs(t, d);
      assert Kept(t.lay, data, lay', data', t.lay.owner[d].id);
      HomeKept(t, lay', data, data', d);
      DirKept(count, cb, up, t, data, lay', data', d);
    }
  }

  /** One directory extended by zeroed clusters; every other stream kept. */
  lemma DisksExtended(count: nat, cb: nat, up: Upcase, t: Tree, data: seq<seq<byte>>, lay': Layout,
                      data': seq<seq<byte>>, d: nat, more: nat)
    requires DataOk(count, cb, data) && DataOk(count, cb, data') && more % ENTRY_BYTES == 0
    requires ChainsInHeap(count, t.lay) && OwnersOk(t.lay) && ChainsInHeap(count, lay') && OwnersOk(lay')
    requires OnDisk(count, cb, up, data, t) && d in t.dirs
    requires forall e :: e in t.dirs ==> e in t.lay.owner && t.lay.owner[e].index == 0 && t.lay.owner[e].id != BitmapId
    requires StreamsKept(t.lay, data, lay', data', {t.lay.owner[d].id, BitmapId})
    requires d in lay'.owner && lay'.owner[d] == t.lay.owner[d]
    requires Held(count, cb, data', lay', t.lay.owner[d].id) == Held(count, cb, data, t.lay,
                                                                     t.lay.owner[d].id) + Zeros(more)
    ensures OnDisk(count, cb, up, data', t.(lay := lay'))
    ensures forall e :: e in t.dirs ==> e in lay'.owner && lay'.owner[e] == t.lay.owner[e]
  {
    hide Kept, OwnersOk, ChainsInHeap, DirOk, Here, Held;
    forall e | e in t.dirs
           ensures e in lay'.owner && lay'.owner[e] == t.lay.owner[e]
           && Here(count, cb, up, data', t.(lay := lay'), e) {
      DirChainIs(t, e);
      if e == d {
        DirGrown(count, cb, up, t, data, lay', data', d, more);
      } else {
        OneHead(t, d, e);
        assert Kept(t.lay, data, lay', data', t.lay.owner[e].id);
        HomeKept(t, lay', data, data', e);
        DirKept(count, cb, up, t, data, lay', data', e);
      }
    }
  }

  lemma OneHead(t: Tree, d: nat, e: nat)
    requires OwnersOk(t.lay) && d in t.lay.owner && e in t.lay.owner && t.lay.owner[d].index == t.lay.owner[e].index
             && d != e
    ensures t.lay.owner[d].id != t.lay.owner[e].id
  {
  }

  lemma DirGrown(count: nat, cb: nat, up: Upcase, t: Tree, data: seq<seq<byte>>, lay': Layout, data': seq<seq<byte>>,
                 d: nat, more: nat)
    requires DataOk(count, cb, data) && DataOk(count, cb, data') && more % ENTRY_BYTES == 0
    requires ChainsInHeap(count, t.lay) && OwnersOk(t.lay) && ChainsInHeap(count, lay') && OwnersOk(lay')
    requires d in t.dirs && d in t.lay.owner && d in lay'.owner && lay'.owner[d] == t.lay.owner[d]
    requires Held(count, cb, data', lay', t.lay.owner[d].id) == Held(count, cb, data, t.lay,
                                                                     t.lay.owner[d].id) + Zeros(more)
    requires Here(count, cb, up, data, t, d)
    ensures Here(count, cb, up, data', t.(lay := lay'), d)
  {
    var p := t.lay.owner[d].id;
    assert Clusters(count, t.lay.chain[p]) && Clusters(count, lay'.chain[p]);
    hide OwnersOk, ChainsInHeap, DirOk;
    GrowKeeps(count, cb, up, Content(count, cb, data, t.lay.chain[p]), t.dirs[d], more);
  }

  /** The streams of all directories, and the bitmap. */
  ghost function DirIds(t: Tree): set<Id> {
    (set d | d in t.dirs && d in t.lay.owner :: t.lay.owner[d].id) + {BitmapId}
  }

  lemma DirIdsIn(t: Tree, d: nat)
    requires d in t.dirs && d in t.lay.owner
    ensures t.lay.owner[d].id in DirIds(t) && BitmapId in DirIds(t)
  {
  }

  lemma DirIdsSame(t: Tree, t': Tree)
    requires t'.dirs.Keys == t.dirs.Keys
    requires forall d :: d in t.dirs ==>
             d in t.lay.owner && d in t'.lay.owner && t'.lay.owner[d].id == t.lay.owner[d].id
    ensures DirIds(t') == DirIds(t)
  {
    assert (set d | d in t.dirs && d in t.lay.owner :: t.lay.owner[d].id) == (set d | d in t'.dirs
                                                                              && d in t'.lay.owner ::
                                                                              t'.lay.owner[d].id);
  }

  /** Nothing but directories and the bitmap is in `DirIds`. */
  lemma NotDirIds(cb: nat, up: Upcase, t: Tree, extra: set<Id>, skip: set<Id>)
    requires cb > 0 && Shape(cb, up, t, extra, skip)
    ensures PendingId !in DirIds(t) && UpcaseId !in DirIds(t)
    ensures forall d, s :: t.Has(d, s) && !t.At(d, s).entry.IsDirectory() ==> NodeId(d, s) !in DirIds(t)
  {
    hide *;
    forall d | d in t.dirs && d in t.lay.owner ensures t.lay.owner[d].id != PendingId && t.lay.owner[d].id != UpcaseId {
      DirNotBitmap(cb, up, t, extra, skip, d);
    }
    NoDirId(t, PendingId);
    NoDirId(t, UpcaseId);
    forall d, s | t.Has(d, s) && !t.At(d, s).entry.IsDirectory() ensures NodeId(d, s) !in DirIds(t) {
      FileApart(cb, up, t, extra, skip, d, s);
      NoDirId(t, NodeId(d, s));
    }
  }

  lemma NoDirId(t: Tree, id: Id)
    requires id != BitmapId && forall d :: d in t.dirs && d in t.lay.owner ==> t.lay.owner[d].id != id
    ensures id !in DirIds(t)
  {
  }

  /** The same sets in the same slots; only a directory's length may differ. */
  ghost predicate SameSets(t: Tree, t': Tree) {
    && t'.dirs.Keys == t.dirs.Keys
    && (forall e, q :: t'.Has(e, q) <==> t.Has(e, q))
    && (forall e, q :: t.Has(e, q) ==> SameSet(t.At(e, q), t'.At(e, q)))
  }

  ghost predicate SameSet(r: Rec, r': Rec) {
    && r'.size == r.size && r'.entry.name == r.entry.name && r'.entry.attributes == r.entry.attributes
    && (r'.entry.stream == r.entry.stream || (r.entry.IsDirectory() && r'.entry.stream.first == r.entry.stream.first))
  }

  /** Every set but the one named `p` is the same, and every directory has the same
      home. */
  ghost predicate OthersSame(t: Tree, t': Tree, p: Id) {
    && (forall e, q :: t.Has(e, q) && t'.Has(e, q) && NodeId(e, q) != p ==> t'.At(e, q) == t.At(e, q))
    && (forall d :: d in t.dirs ==> d in t.lay.owner && d in t'.lay.owner && t'.lay.owner[d] == t.lay.owner[d])
  }

  lemma SetsSame(t: Tree, lay': Layout, root': Stream)
    ensures SameSets(t, t.(lay := lay', root := root'))
    ensures forall p ::
            (forall d :: d in t.dirs ==> d in t.lay.owner && d in lay'.owner && lay'.owner[d] == t.lay.owner[d]) ==>
              OthersSame(t, t.(lay := lay', root := root'), p)
  {
  }

  lemma SetsRestreamed(t: Tree, lay': Layout, d: nat, s: nat, stream: Stream)
    requires t.Has(d, s) && t.At(d, s).entry.IsDirectory() && t.At(d, s).entry.stream.first == stream.first
    ensures SameSets(t, t.(lay := lay').WithStream(d, s, stream))
    ensures (forall d :: d in t.dirs ==> d in t.lay.owner && d in lay'.owner && lay'.owner[d] == t.lay.owner[d]) ==>
              OthersSame(t, t.(lay := lay').WithStream(d, s, stream), NodeId(d, s))
  {
    WithStreamFacts(t.(lay := lay'), d, s, stream);
    hide Tree.WithStream, Tree.With;
    var t' := t.(lay := lay').WithStream(d, s, stream);
    forall e, q | t.Has(e, q) ensures t'.Has(e, q) && SameSet(t.At(e, q), t'.At(e, q)) {
      LayAside(t, lay', e, q);
    }
    forall e, q | t'.Has(e, q) ensures t.Has(e, q) && (NodeId(e, q) != NodeId(d, s) ==> t'.At(e, q) == t.At(e, q)) {
      assert t.(lay := lay').Has(e, q);
      LayAside(t, lay', e, q);
    }
  }

  lemma OnDiskRoot(count: nat, cb: nat, up: Upcase, data: seq<seq<byte>>, t: Tree, root': Stream)
    requires OnDisk(count, cb, up, data, t)
    ensures OnDisk(count, cb, up, data, t.(root := root'))
  {
    hide DirOk, OwnersOk, ChainsInHeap;
    var t' := t.(root := root');
    forall d | d in t'.dirs ensures d in t'.lay.owner && Here(count, cb, up, data, t', d) {
      assert Here(count, cb, up, data, t, d);
      assert DirChain(t', d) == DirChain(t, d);
    }
  }

  /** The same bytes under another layout: each directory keeps its clusters, or is new
      and holds what it should. */
  lemma OnDiskRelaid(count: nat, cb: nat, up: Upcase, data: seq<seq<byte>>, t: Tree, t': Tree)
    requires OnDisk(count, cb, up, data, t) && ChainsInHeap(count, t'.lay) && OwnersOk(t'.lay)
    requires forall d :: d in t'.dirs ==> d in t'.lay.owner
    requires forall d :: d in t'.dirs && d in t.dirs ==>
             t'.dirs[d] == t.dirs[d] && DirChain(t', d) == t.lay.chain[t.lay.owner[d].id]
    requires forall d :: d in t'.dirs && d !in t.dirs ==>
             DirOk(count, cb, up, Held(count, cb, data, t'.lay, t'.lay.owner[d].id), t'.dirs[d])
    ensures OnDisk(count, cb, up, data, t')
  {
    hide DirOk, OwnersOk, DataOk;
    forall d | d in t'.dirs ensures Here(count, cb, up, data, t', d) {
      DirChainIs(t', d);
      if d in t.dirs {
        assert Here(count, cb, up, data, t, d);
      }
    }
  }

  // ------------------------------------------------------- collections of sets

  /** `t'` has one set more than `t`, holding `e` at `d`, `s`; a directory's own length
      aside, every other set is as it was. */
  ghost predicate Adds(t: Tree, t': Tree, d: nat, s: nat, e: Entry) {
    && !t.Has(d, s) && t'.Has(d, s) && t'.At(d, s).entry == e
    && (forall x, q :: t'.Has(x, q) <==> t.Has(x, q) || (x == d && q == s))
    && (forall x, q :: t.Has(x, q) ==> SameSet(t.At(x, q), t'.At(x, q)))
    && t'.dirs.Keys == t.dirs.Keys + (if e.IsDirectory() then {e.stream.first} else {})
  }

  /** Sets added and streams kept leave every file as it was. */
  lemma FilesAdded(count: nat, cb: nat, up: Upcase, t: Tree, data: seq<seq<byte>>, t': Tree, data': seq<seq<byte>>)
    requires DataOk(count, cb, data) && DataOk(count, cb, data') && ChainsInHeap(count, t.lay)
    requires cb > 0 && Shape(cb, up, t, {}, {})
    requires StreamsKept(t.lay, data, t'.lay, data', DirIds(t) + {PendingId})
    requires forall x, q :: t.Has(x, q) && t'.Has(x, q) ==> SameSet(t.At(x, q), t'.At(x, q))
    ensures FilesKept(count, cb, t, data, t', data', {})
  {
    NotDirIds(cb, up, t, {}, {});
    hide Shape, StreamsKept, DirIds, NodeOk;
    forall e, q | t.Has(e, q) && t'.Has(e, q) && !t.At(e, q).entry.IsDirectory()
      ensures NodeId(e, q) in t.lay.chain && NodeId(e, q) !in DirIds(t) + {PendingId}
      ensures t'.At(e, q).entry.stream == t.At(e, q).entry.stream
    {
      ShapeNode(cb, up, t, {}, {}, e, q);
      NodeParts(cb, t, e, q);
      assert SameSet(t.At(e, q), t'.At(e, q));
    }
    FilesFollow(count, cb, t, data, t', data', DirIds(t) + {PendingId}, {});
  }

  lemma KeptRenamed(count: nat, lay: Layout, data: seq<seq<byte>>, from: Id, to: Id)
    requires |data| == count + 2 && ChainsInHeap(count, lay) && from in lay.chain && from in lay.heads
             && to !in lay.chain && to !in lay.heads
    ensures StreamsKept(lay, data, Renamed(lay, from, to), data, {from})
  {
    forall i | i in lay.chain && i != from ensures Kept(lay, data, Renamed(lay, from, to), data, i) {
      assert Clusters(count, lay.chain[i]);
    }
  }

  /** Changes that touch no directory's stream. */
  lemma EvolvesKept(t: Tree, t': Tree, data: seq<seq<byte>>, data': seq<seq<byte>>, touched: set<Id>)
    requires OwnersOk(t.lay) && OwnersOk(t'.lay) && t.lay.heads.Keys == t.lay.chain.Keys && t'.dirs == t.dirs
    requires StreamsKept(t.lay, data, t'.lay, data', touched)
    requires forall d :: d in t.dirs ==> d in t.lay.owner && t.lay.owner[d].index == 0 && t.lay.owner[d].id !in touched
    ensures Evolves(t, t') && DirIds(t') == DirIds(t)
    ensures forall d :: d in t.dirs ==> d in t'.lay.owner && t'.lay.owner[d] == t.lay.owner[d]
  {
    hide OwnersOk, Evolves, DirIds;
    forall d | d in t.dirs
           ensures d in t'.lay.owner && t'.lay.owner[d] == t.lay.owner[d]
           && Kept(t.lay, data, t'.lay, data', t.lay.owner[d].id) {
      DirChainIs(t, d);
      HomeKept(t, t'.lay, data, data', d);
    }
    EvolvesAside(t, t');
    DirIdsSame(t, t');
  }

  /** Counting from any tree with the same sets. */
  lemma AddsFrom(t: Tree, t1: Tree, t': Tree, d: nat, s: nat, e: Entry)
    requires Adds(t1, t', d, s, e) && t1.dirs == t.dirs
    ensures Adds(t, t', d, s, e)
  {
    hide SameSet;
    forall x, q | t.Has(x, q) ensures t1.Has(x, q) && t1.At(x, q) == t.At(x, q) {
    }
    forall x, q | t1.Has(x, q) ensures t.Has(x, q) {
    }
  }

  lemma SetsFrom(t: Tree, t1: Tree, t': Tree)
    requires SameSets(t1, t') && t1.dirs == t.dirs
    ensures SameSets(t, t')
  {
    hide SameSet;
    forall x, q | t.Has(x, q) ensures t1.Has(x, q) && t1.At(x, q) == t.At(x, q) {
    }
    forall x, q | t1.Has(x, q) ensures t.Has(x, q) {
    }
  }

  lemma SetsUpTo(t: Tree, t1: Tree, t': Tree)
    requires SameSets(t, t1) && t1.dirs == t'.dirs
    ensures SameSets(t, t')
  {
    hide SameSet;
    forall x, q | t1.Has(x, q) ensures t'.Has(x, q) && t1.At(x, q) == t'.At(x, q) {
    }
    forall x, q | t'.Has(x, q) ensures t1.Has(x, q) {
    }
  }

  /** `t'` has one set less than `t`, the one at `d`, `s`, and lacks the directory that
      set named; every other set is as it was. */
  ghost predicate Removes(t: Tree, t': Tree, d: nat, s: nat) {
    && t.Has(d, s) && !t'.Has(d, s)
    && (forall x, q :: t'.Has(x, q) <==> t.Has(x, q) && (x != d || q != s))
    && (forall x, q :: t'.Has(x, q) ==> t'.At(x, q) == t.At(x, q))
    && t'.dirs.Keys == t.dirs.Keys - (if t.At(d, s).entry.IsDirectory() then {t.At(d, s).entry.stream.first} else {})
  }

  /** A set removed and its clusters freed leave every file as it was. */
  lemma FilesRemoved(count: nat, cb: nat, up: Upcase, t: Tree, data: seq<seq<byte>>, t': Tree, data': seq<seq<byte>>,
                     d: nat, s: nat)
    requires DataOk(count, cb, data) && DataOk(count, cb, data') && ChainsInHeap(count, t.lay)
    requires cb > 0 && Shape(cb, up, t, {}, {}) && Removes(t, t', d, s)
    requires StreamsKept(t.lay, data, t'.lay, data', DirIds(t) + {NodeId(d, s)})
    ensures FilesKept(count, cb, t, data, t', data', {})
  {
    NotDirIds(cb, up, t, {}, {});
    hide Shape, StreamsKept, DirIds, NodeOk;
    forall e, q | t.Has(e, q) && t'.Has(e, q) && !t.At(e, q).entry.IsDirectory()
      ensures NodeId(e, q) in t.lay.chain && NodeId(e, q) !in DirIds(t) + {NodeId(d, s)}
      ensures t'.At(e, q).entry.stream == t.At(e, q).entry.stream
    {
      ShapeNode(cb, up, t, {}, {}, e, q);
      NodeParts(cb, t, e, q);
    }
    FilesFollow(count, cb, t, data, t', data', DirIds(t) + {NodeId(d, s)}, {});
  }

  /** The set reads the same through the part of the parent the identifier reaches. */
  lemma ReadThrough(count: nat, cb: nat, up: Upcase, data: seq<seq<byte>>, t: Tree, id: nat)
    requires DataOk(count, cb, data) && ChainsInHeap(count, t.lay) && OwnersOk(t.lay) && Handle(cb, t, id)
    requires DirOk(count, cb, up, Content(count, cb, data, DirChain(t, IdFirst(id))), t.dirs[IdFirst(id)])
    ensures var cs, rec := ParentChain(cb, t, id), t.At(IdFirst(id), IdSlot(id));
            && Clusters(count, cs) && rec.size <= MAX_SET
            && SetAt(count, cb, up, Content(count, cb, data, cs), IdSlot(id), rec)
  {
    hide *;
    var d, s := IdFirst(id), IdSlot(id);
    HandleParts(cb, t, id);
    ParentPart(cb, t, id);
    DirChainIs(t, d);
    var cs, all, rec := ParentChain(cb, t, id), DirChain(t, d), t.At(d, s);
    ChainClusters(count, t.lay, t.lay.owner[d].id);
    PrefixClusters(count, cs, all);
    SetOf(count, cb, up, Content(count, cb, data, all), t.dirs[d], s);
    ContentPrefix(count, cb, data, cs, all);
    SpanCovers(cb, s, rec.size);
    PrefixSet(count, cb, up, Content(count, cb, data, cs), Content(count, cb, data, all), s, rec);
  }

  lemma FileDisk(count: nat, cb: nat, up: Upcase, data: seq<seq<byte>>, data': seq<seq<byte>>, t: Tree, lay': Layout,
                 extra: set<Id>, skip: set<Id>, id: Id, cs: seq<nat>)
    requires DataOk(count, cb, data) && DataOk(count, cb, data')
    requires ChainsInHeap(count, t.lay) && OwnersOk(t.lay) && (forall d :: d in t.dirs ==> d in t.lay.owner)
    requires Shape(cb, up, t, extra, skip) && OnDisk(count, cb, up, data, t)
    requires ChainsInHeap(count, lay') && OwnersOk(lay') && id in t.lay.chain && BitmapId in t.lay.chain
             && id != BitmapId
    requires lay'.chain == t.lay.chain[id := cs]
    requires forall d :: d in t.dirs && d in t.lay.owner ==> t.lay.owner[d].id != id
    requires SameOutside(data, data', t.lay.chain[BitmapId])
    ensures forall d :: d in t.dirs ==> d in lay'.owner
    ensures OnDisk(count, cb, up, data', t.(lay := lay'))
  {
    var t' := t.(lay := lay');
    hide *;
    forall d | d in t.dirs ensures d in lay'.owner && SameClusters(t, t', data, data', d) {
      FileDir(count, cb, up, data, data', t, lay', extra, skip, id, cs, d);
    }
    OnDiskKept(count, cb, up, data, data', t, t');
  }

  lemma FileDir(count: nat, cb: nat, up: Upcase, data: seq<seq<byte>>, data': seq<seq<byte>>, t: Tree, lay': Layout,
                extra: set<Id>, skip: set<Id>, id: Id, cs: seq<nat>, d: nat)
    requires DataOk(count, cb, data) && DataOk(count, cb, data')
    requires ChainsInHeap(count, t.lay) && Shape(cb, up, t, extra, skip)
    requires OwnersOk(lay') && id in t.lay.chain && BitmapId in t.lay.chain && id != BitmapId
    requires lay'.chain == t.lay.chain[id := cs]
    requires d in t.dirs && d in t.lay.owner && t.lay.owner[d].id != id
    requires SameOutside(data, data', t.lay.chain[BitmapId])
    ensures OwnersOk(t.lay) && d in lay'.owner && SameClusters(t, t.(lay := lay'), data, data', d)
  {
    DirNotBitmap(cb, up, t, extra, skip, d);
    ShapeOf(cb, up, t, extra, skip);
    hide Shape, OwnersOk;
    HomesKept(t, lay', id, cs, d);
    var p := t.lay.owner[d].id;
    forall k | 0 <= k < |DirChain(t, d)|
      ensures DirChain(t, d)[k] < |data| && data'[DirChain(t, d)[k]] == data[DirChain(t, d)[k]]
    {
      assert Clusters(count, t.lay.chain[p]);
      ChainsApart(t.lay, p, BitmapId, DirChain(t, d)[k]);
    }
  }

  lemma KeptOne(lay: Layout, data: seq<seq<byte>>, lay': Layout, data': seq<seq<byte>>, touched: set<Id>, i: Id)
    requires StreamsKept(lay, data, lay', data', touched) && i in lay.chain && i !in touched
    ensures Kept(lay, data, lay', data', i)
  {
  }

  lemma KeptMore(lay: Layout, data: seq<seq<byte>>, lay': Layout, data': seq<seq<byte>>, a: set<Id>, b: set<Id>)
    requires StreamsKept(lay, data, lay', data', a) && a <= b
    ensures StreamsKept(lay, data, lay', data', b)
  {
  }

  lemma SetsParts(t: Tree, t': Tree)
    requires SameSets(t, t')
    ensures forall e, q :: t'.Has(e, q) <==> t.Has(e, q)
    ensures forall e, q :: t.Has(e, q) && t'.Has(e, q) ==> SameSet(t.At(e, q), t'.At(e, q))
  {
  }

  lemma SameSizes(t: Tree, t': Tree)
    requires SameSets(t, t')
    ensures t'.dirs.Keys == t.dirs.Keys
    ensures forall e, q :: t.Has(e, q) && t'.Has(e, q) ==> t'.At(e, q).size == t.At(e, q).size
  {
  }

  lemma KeptAgain(lay: Layout, data: seq<seq<byte>>, lay1: Layout, data1: seq<seq<byte>>, lay2: Layout,
                  data2: seq<seq<byte>>, a: set<Id>, p: Id)
    requires StreamsKept(lay, data, lay1, data1, a) && StreamsKept(lay1, data1, lay2, data2, {p}) && p in a
    ensures StreamsKept(lay, data, lay2, data2, a)
  {
    KeptTwice(lay, data, lay1, data1, lay2, data2, a, {p});
    assert a + {p} == a;
  }

  lemma AddedDisk(count: nat, cb: nat, up: Upcase, data: seq<seq<byte>>, t: Tree)
    requires OnDisk(count, cb, up, data, t) && PendingId !in t.lay.chain && cb > 0
    ensures OnDisk(count, cb, up, data, t.(lay := Added(t.lay, PendingId)))
  {
    var t' := t.(lay := Added(t.lay, PendingId));
    assert OwnersOk(t'.lay) && ChainsInHeap(count, t'.lay);
    hide DirOk, Here;
    OnDiskRelaid(count, cb, up, data, t, t');
  }

  lemma DroppedDisk(count: nat, cb: nat, up: Upcase, data: seq<seq<byte>>, t: Tree, id: Id)
    requires OnDisk(count, cb, up, data, t) && id in t.lay.chain && t.lay.chain[id] == [] && cb > 0
    requires forall d :: d in t.dirs ==> d in t.lay.owner && t.lay.owner[d].id != id
    ensures OnDisk(count, cb, up, data, t.(lay := Dropped(t.lay, id)))
  {
    var t' := t.(lay := Dropped(t.lay, id));
    assert OwnersOk(t'.lay) && ChainsInHeap(count, t'.lay);
    hide DirOk, Here;
    OnDiskRelaid(count, cb, up, data, t, t');
  }

  lemma KeptAdded(count: nat, lay: Layout, data: seq<seq<byte>>, id: Id)
    requires |data| == count + 2 && ChainsInHeap(count, lay) && id !in lay.chain
    ensures StreamsKept(lay, data, Added(lay, id), data, {})
  {
    forall i | i in lay.chain ensures Kept(lay, data, Added(lay, id), data, i) {
      assert Clusters(count, lay.chain[i]);
    }
  }

  lemma KeptDropped(count: nat, lay: Layout, data: seq<seq<byte>>, id: Id)
    requires |data| == count + 2 && ChainsInHeap(count, lay)
    ensures StreamsKept(lay, data, Dropped(lay, id), data, {id})
  {
    forall i | i in lay.chain && i != id ensures Kept(lay, data, Dropped(lay, id), data, i) {
      assert Clusters(count, lay.chain[i]);
    }
  }

  lemma KeptIs(lay: Layout, data: seq<seq<byte>>, lay': Layout, data': seq<seq<byte>>, i: Id)
    requires Kept(lay, data, lay', data', i) && i in lay.heads
    ensures i in lay.chain && i in lay'.chain && lay'.chain[i] == lay.chain[i] && i in lay'.heads
            && lay'.heads[i] == lay.heads[i]
  {
  }

  lemma EnterAdds(t0: Tree, mid: Tree, t1: Tree, t2: Tree, t3: Tree, d: nat, s: nat, rec: Rec, stream: Stream)
    requires SameSets(t0, mid) && d in mid.dirs && !mid.Has(d, s)
    requires t1.dirs.Keys == mid.dirs.Keys && t2.dirs.Keys == t1.dirs.Keys
    requires (forall e, q :: t1.Has(e, q) <==> mid.Has(e, q) || (e == d && q == s))
    requires (forall e, q :: mid.Has(e, q) && (e != d || q != s) ==> t1.At(e, q) == mid.At(e, q)) && t1.At(d, s) == rec
    requires forall e, q :: t2.Has(e, q) <==> t1.Has(e, q)
    requires forall e, q :: t1.Has(e, q) && (e != d || q != s) ==> t2.At(e, q) == t1.At(e, q)
    requires t2.At(d, s) == rec.(entry := rec.entry.(stream := stream))
    requires t3.dirs.Keys == t2.dirs.Keys + (if t2.At(d, s).entry.IsDirectory() then {stream.first} else {})
    requires forall x, q :: t3.Has(x, q) <==> t2.Has(x, q)
    requires forall x, q :: t2.Has(x, q) ==> t3.At(x, q) == t2.At(x, q)
    ensures Adds(t0, t3, d, s, rec.entry.(stream := stream))
    ensures forall x, q :: mid.Has(x, q) ==> t3.Has(x, q) && t3.At(x, q) == mid.At(x, q)
  {
    hide Tree.Has, Tree.At, SameSet;
    HasKeys(t0, mid, d, s);
    forall x, q | t0.Has(x, q) ensures t3.Has(x, q) && t3.At(x, q) == mid.At(x, q) {
      assert mid.Has(x, q);
    }
  }

  lemma HasKeys(t: Tree, t': Tree, d: nat, s: nat)
    requires SameSets(t, t') && !t'.Has(d, s)
    ensures !t.Has(d, s)
  {
  }

  /** A stream added and dropped again leaves what was kept. */
  lemma KeptStill(lay: Layout, data: seq<seq<byte>>, lay1: Layout, data': seq<seq<byte>>, touched: set<Id>)
    requires StreamsKept(lay, data, lay1, data', touched) && PendingId !in lay.chain && lay.heads.Keys == lay.chain.Keys
             && lay1 == Added(lay, PendingId)
    ensures StreamsKept(lay, data, lay, data', touched)
  {
    forall i | i in lay.chain && i !in touched ensures Kept(lay, data, lay, data', i) {
      assert Kept(lay, data, lay1, data', i);
    }
  }

  /** What `create` has done when it succeeds, counted from the tree it found. */
  lemma CreateDone(count: nat, cb: nat, up: Upcase, t: Tree, data: seq<seq<byte>>, t1: Tree, data1: seq<seq<byte>>,
                   t': Tree, data': seq<seq<byte>>,
                   d: nat, s: nat, e: Entry)
    requires DataOk(count, cb, data) && DataOk(count, cb, data') && ChainsInHeap(count, t.lay) && cb > 0
             && Shape(cb, up, t, {}, {})
    requires t1.dirs == t.dirs && Evolves(t, t1) && DirIds(t1) == DirIds(t) && OwnersOk(t1.lay)
             && t1.lay.heads.Keys == t1.lay.chain.Keys
    requires forall d :: d in t1.dirs ==> d in t1.lay.owner
    requires Adds(t1, t', d, s, e) && Evolves(t1, t')
    requires StreamsKept(t.lay, data, t1.lay, data1, {PendingId, BitmapId})
             && StreamsKept(t1.lay, data1, t'.lay, data', DirIds(t1) + {PendingId})
    ensures Adds(t, t', d, s, e) && Evolves(t, t') && FilesKept(count, cb, t, data, t', data', {})
  {
    hide *;
    AddsFrom(t, t1, t', d, s, e);
    EvolvesOn(t, t1, t');
    BitmapInDirIds(t);
    KeptTwice(t.lay, data, t1.lay, data1, t'.lay, data', {PendingId, BitmapId}, DirIds(t1) + {PendingId});
    KeptMore(t.lay, data, t'.lay, data', {PendingId, BitmapId} + (DirIds(t1) + {PendingId}), DirIds(t) + {PendingId});
    AddsSets(t, t', d, s, e);
    FilesAdded(count, cb, up, t, data, t', data');
  }

  /** What `create` has done when it runs out of space: perhaps a longer directory. */
  lemma CreateUndone(count: nat, cb: nat, up: Upcase, t: Tree, data: seq<seq<byte>>, t1: Tree, data1: seq<seq<byte>>,
                     t2: Tree, data2: seq<seq<byte>>,
                     t': Tree, data': seq<seq<byte>>)
    requires DataOk(count, cb, data) && DataOk(count, cb, data') && ChainsInHeap(count, t.lay) && cb > 0
             && Shape(cb, up, t, {}, {})
    requires t1.dirs == t.dirs && Evolves(t, t1) && DirIds(t1) == DirIds(t) && OwnersOk(t1.lay)
             && t1.lay.heads.Keys == t1.lay.chain.Keys
    requires forall d :: d in t1.dirs ==> d in t1.lay.owner
    requires SameSets(t1, t2) && Evolves(t1, t2) && OwnersOk(t2.lay) && t2.lay.heads.Keys == t2.lay.chain.Keys
    requires forall d :: d in t2.dirs ==> d in t2.lay.owner
    requires t'.dirs == t2.dirs && Evolves(t2, t')
    requires StreamsKept(t.lay, data, t1.lay, data1, {PendingId, BitmapId})
             && StreamsKept(t1.lay, data1, t2.lay, data2, DirIds(t1))
    requires StreamsKept(t2.lay, data2, t'.lay, data', {PendingId, BitmapId})
    ensures SameSets(t, t') && Evolves(t, t') && FilesKept(count, cb, t, data, t', data', {})
  {
    hide *;
    SetsFrom(t, t1, t2);
    SetsUpTo(t, t2, t');
    EvolvesOn(t, t1, t2);
    SetsEvolve(t, t2, t');
    BitmapInDirIds(t);
    KeptTwice(t.lay, data, t1.lay, data1, t2.lay, data2, {PendingId, BitmapId}, DirIds(t1));
    KeptTwice(t.lay, data, t2.lay, data2, t'.lay, data', {PendingId, BitmapId} + DirIds(t1), {PendingId, BitmapId});
    KeptMore(t.lay, data, t'.lay, data', {PendingId, BitmapId} + DirIds(t1) + {PendingId, BitmapId},
             DirIds(t) + {PendingId});
    SetsParts(t, t');
    FilesAdded(count, cb, up, t, data, t', data');
  }

  lemma SetsEvolve(t: Tree, t1: Tree, t': Tree)
    requires SameSets(t, t1) && Evolves(t, t1) && Evolves(t1, t') && OwnersOk(t1.lay)
             && t1.lay.heads.Keys == t1.lay.chain.Keys
    requires forall d :: d in t1.dirs ==> d in t1.lay.owner
    ensures Evolves(t, t')
  {
    hide Evolves, OwnersOk, SameSet;
    EvolvesTwice(t, t1, t');
  }

  lemma BitmapInDirIds(t: Tree)
    ensures BitmapId in DirIds(t)
  {
  }

  lemma SameKind(t: Tree, t': Tree, d: nat, s: nat)
    requires SameSets(t, t') && t.Has(d, s) && t'.Has(d, s)
    ensures t'.At(d, s).entry.IsDirectory() == t.At(d, s).entry.IsDirectory()
  {
    assert SameSet(t.At(d, s), t'.At(d, s));
  }

  lemma NotInDirIds(t: Tree, id: Id)
    requires OwnersOk(t.lay) && id !in t.lay.chain && id != BitmapId
    ensures id !in DirIds(t)
  {
  }

  lemma AddsSets(t: Tree, t': Tree, d: nat, s: nat, e: Entry)
    requires Adds(t, t', d, s, e)
    ensures forall x, q :: t.Has(x, q) && t'.Has(x, q) ==> SameSet(t.At(x, q), t'.At(x, q))
  {
  }
}
