/** The disk side of kernel/fs/exfat.cpp as values: FAT, cluster heap, streams.

    A stream is a list of clusters.  It is either contiguous or follows the FAT
    (section 4.1 of the exFAT file system specification). */
module ExfatDisk {
  import opened Common

  const FIRST_DATA_CLUSTER: nat := 2
  const END_OF_CHAIN: nat := 0xFFFF_FFFF

  datatype Stream = Stream(first: nat, length: nat, valid: nat, contiguous: bool)

  /** Where the last FAT walk ended; `first == 0` means nowhere. */
  datatype Cursor = Cursor(first: nat, index: nat, cluster: nat)

  const NO_CURSOR := Cursor(0, 0, 0)

  predicate InHeap(count: nat, c: nat) { FIRST_DATA_CLUSTER <= c <= count + 1 }

  // --------------------------------------------------------------- FAT walking

  /** `n` FAT links from `c`; `None` when a link leaves the cluster heap. */
  ghost function Walk(count: nat, fat: seq<nat>, c: nat, n: nat): Option<nat>
    requires |fat| == count + 2
  {
    if n == 0 then Some(c)
    else
      match Walk(count, fat, c, n - 1)
      case None => None
      case Some(m) => if InHeap(count, m) && InHeap(count, fat[m]) then Some(fat[m]) else None
  }

  /** Cluster `index` of a stream, counted from its first cluster every time. */
  ghost function ClusterRef(count: nat, fat: seq<nat>, s: Stream, index: nat): Option<nat>
    requires |fat| == count + 2
  {
    if !InHeap(count, s.first) || index >= count then None
    else if s.contiguous then
      if s.first + index > count + 1 then None else Some(s.first + index)
    else Walk(count, fat, s.first, index)
  }

  ghost predicate CursorOk(count: nat, fat: seq<nat>, cursor: Cursor)
    requires |fat| == count + 2
  {
    cursor.first == 0 ||
    (InHeap(count, cursor.first) && Walk(count, fat, cursor.first, cursor.index) == Some(cursor.cluster))
  }

  lemma {:induction false} WalkNone(count: nat, fat: seq<nat>, c: nat, n: nat, m: nat)
    requires |fat| == count + 2 && n <= m
    requires Walk(count, fat, c, n).None?
    ensures Walk(count, fat, c, m).None?
    decreases m
  {
    if n < m { WalkNone(count, fat, c, n, m - 1); }
  }

  // -------------------------------------------------------------------- chains

  /** What stands after cluster `k` of a chain in the FAT. */
  function Link(cs: seq<nat>, k: nat): nat
    requires k < |cs|
  {
    if k + 1 < |cs| then cs[k + 1] else END_OF_CHAIN
  }

  /** `cs` is exactly the cluster list of a stream starting at `first`. */
  ghost predicate ChainOk(count: nat, fat: seq<nat>, first: nat, contiguous: bool, cs: seq<nat>)
    requires |fat| == count + 2
  {
    && |cs| <= count
    && (cs == [] <==> first == 0)
    && (cs != [] ==> cs[0] == first)
    && (forall k :: 0 <= k < |cs| ==> InHeap(count, cs[k]))
    && (contiguous ==> forall k :: 0 <= k < |cs| ==> cs[k] == first + k)
    && (!contiguous ==> forall k {:trigger fat[cs[k]]} :: 0 <= k < |cs| ==> fat[cs[k]] == Link(cs, k))
  }

  /** Every cluster of `cs` is what the stream's walk finds at that index. */
  ghost predicate Reaches(count: nat, fat: seq<nat>, s: Stream, cs: seq<nat>)
    requires |fat| == count + 2
    ensures Reaches(count, fat, s, cs) ==> Clusters(count, cs)
  {
    forall k :: 0 <= k < |cs| ==> InHeap(count, cs[k]) && ClusterRef(count, fat, s, k) == Some(cs[k])
  }

  /** `cs` is linked in the FAT up to cluster `n`. */
  ghost predicate Linked(count: nat, fat: seq<nat>, cs: seq<nat>, n: nat)
    requires |fat| == count + 2
  {
    && n <= |cs|
    && (forall k :: 0 <= k < n ==> InHeap(count, cs[k]))
    && (forall k {:trigger fat[cs[k]]} :: 0 <= k < n - 1 ==> fat[cs[k]] == cs[k + 1])
  }

  lemma {:induction false} LinkedWalk(count: nat, fat: seq<nat>, cs: seq<nat>, n: nat, k: nat)
    requires |fat| == count + 2 && Linked(count, fat, cs, n)
    requires k < n
    ensures Walk(count, fat, cs[0], k) == Some(cs[k])
  {
    if k > 0 {
      LinkedWalk(count, fat, cs, n, k - 1);
      assert fat[cs[k - 1]] == cs[k];
    }
  }

  lemma ChainWalk(count: nat, fat: seq<nat>, first: nat, cs: seq<nat>, k: nat)
    requires |fat| == count + 2 && ChainOk(count, fat, first, false, cs)
    requires k < |cs|
    ensures Walk(count, fat, first, k) == Some(cs[k])
  {
    assert Linked(count, fat, cs, |cs|);
    LinkedWalk(count, fat, cs, |cs|, k);
  }

  /** A well-formed chain is what the walk finds. */
  lemma ChainReaches(count: nat, fat: seq<nat>, s: Stream, cs: seq<nat>)
    requires |fat| == count + 2 && ChainOk(count, fat, s.first, s.contiguous, cs)
    ensures Reaches(count, fat, s, cs)
  {
    if !s.contiguous {
      forall k | 0 <= k < |cs| ensures ClusterRef(count, fat, s, k) == Some(cs[k]) {
        ChainWalk(count, fat, s.first, cs, k);
      }
    }
  }

  /** Past its last cluster a chained stream has nothing. */
  lemma ChainEnds(count: nat, fat: seq<nat>, first: nat, cs: seq<nat>, n: nat)
    requires |fat| == count + 2 && count < END_OF_CHAIN - 1
    requires ChainOk(count, fat, first, false, cs) && cs != [] && n >= |cs|
    ensures Walk(count, fat, first, n).None?
  {
    var last := |cs| - 1;
    ChainWalk(count, fat, first, cs, last);
    assert fat[cs[last]] == Link(cs, last);
    assert Walk(count, fat, first, |cs|).None?;
    WalkNone(count, fat, first, |cs|, n);
  }

  /** A cursor on a chain survives any FAT change that leaves the chain alone. */
  lemma CursorSurvives(count: nat, fat: seq<nat>, fat': seq<nat>, first: nat, cs: seq<nat>, cursor: Cursor)
    requires |fat| == |fat'| == count + 2 && count < END_OF_CHAIN - 1
    requires ChainOk(count, fat, first, false, cs) && ChainOk(count, fat', first, false, cs)
    requires CursorOk(count, fat, cursor) && (cursor.first == 0 || cursor.first == first)
    ensures CursorOk(count, fat', cursor)
  {
    if cursor.first != 0 {
      if cursor.index >= |cs| { ChainEnds(count, fat, first, cs, cursor.index); }
      ChainWalk(count, fat, first, cs, cursor.index);
      ChainWalk(count, fat', first, cs, cursor.index);
    }
  }

  /** A chain depends on the FAT only at its own clusters. */
  lemma ChainFrame(count: nat, fat: seq<nat>, fat': seq<nat>, first: nat, contiguous: bool, cs: seq<nat>)
    requires |fat| == |fat'| == count + 2
    requires ChainOk(count, fat, first, contiguous, cs)
    requires forall k :: 0 <= k < |cs| ==> fat'[cs[k]] == fat[cs[k]]
    ensures ChainOk(count, fat', first, contiguous, cs)
  {
    forall k | 0 <= k < |cs| && !contiguous ensures fat'[cs[k]] == Link(cs, k) {
      assert fat[cs[k]] == Link(cs, k);
    }
  }

  // --------------------------------------------------------------------- bytes

  ghost predicate DataOk(count: nat, cb: nat, data: seq<seq<byte>>)
    ensures DataOk(count, cb, data) ==> cb > 0 && |data| == count + 2
  {
    && cb > 0
    && |data| == count + 2
    && forall c :: 0 <= c < |data| ==> |data[c]| == cb
  }

  ghost predicate Clusters(count: nat, cs: seq<nat>) {
    forall k :: 0 <= k < |cs| ==> InHeap(count, cs[k])
  }

  ghost predicate Distinct(cs: seq<nat>) {
    forall i, j :: 0 <= i < j < |cs| ==> cs[i] != cs[j]
  }

  lemma DivBound(k: nat, n: nat, cb: nat)
    requires cb > 0 && k < n * cb
    ensures 0 <= k / cb < n && 0 <= k % cb < cb
  {
    MulMono(n, k / cb, cb);
    assert k == k / cb * cb + k % cb;
  }

  /** Byte `k` of the content held by `cs`. */
  ghost function ByteAt(count: nat, cb: nat, data: seq<seq<byte>>, cs: seq<nat>, k: nat): byte
    requires DataOk(count, cb, data) && Clusters(count, cs) && k < |cs| * cb
  {
    DivBound(k, |cs|, cb);
    data[cs[k / cb]][k % cb]
  }

  /** All the bytes held by `cs`, in order. */
  ghost function Content(count: nat, cb: nat, data: seq<seq<byte>>, cs: seq<nat>): (r: seq<byte>)
    requires DataOk(count, cb, data) && Clusters(count, cs)
    ensures |r| == |cs| * cb
    ensures forall k :: 0 <= k < |cs| * cb ==> r[k] == ByteAt(count, cb, data, cs, k)
  {
    seq<byte>(|cs| * cb, k requires 0 <= k < |cs| * cb => ByteAt(count, cb, data, cs, k))
  }

  /** `base` with `bytes` written at `offset` of `base`. */
  function Splice<T>(base: seq<T>, offset: nat, bytes: seq<T>): (r: seq<T>)
    requires offset + |bytes| <= |base|
    ensures |r| == |base|
    ensures forall i :: 0 <= i < |base| ==>
              r[i] == if offset <= i < offset + |bytes| then bytes[i - offset] else base[i]
  {
    base[..offset] + bytes + base[offset + |bytes|..]
  }

  lemma WithinCluster(at: nat, i: nat, cb: nat)
    requires cb > 0 && i < cb - at % cb
    ensures (at + i) / cb == at / cb && (at + i) % cb == at % cb + i
  {
    var q := at / cb;
    assert at + i == q * cb + (at % cb + i);
    DivModUnique(at + i, cb, q, at % cb + i);
  }

  /** Two heaps differ at most in the clusters `cs`. */
  ghost predicate SameOutside(data: seq<seq<byte>>, data': seq<seq<byte>>, cs: seq<nat>) {
    |data'| == |data| && forall c :: 0 <= c < |data| && c !in cs ==> data'[c] == data[c]
  }

  /** `after` is `before` with `bytes` written at `offset`. */
  ghost predicate Spliced(before: seq<byte>, offset: nat, bytes: seq<byte>, after: seq<byte>) {
    offset + |bytes| <= |before| && after == Splice(before, offset, bytes)
  }

  /** Content depends only on the clusters it lies in. */
  lemma ContentFrame(count: nat, cb: nat, data: seq<seq<byte>>, data': seq<seq<byte>>, cs: seq<nat>)
    requires DataOk(count, cb, data) && DataOk(count, cb, data') && Clusters(count, cs)
    requires forall k :: 0 <= k < |cs| ==> data'[cs[k]] == data[cs[k]]
    ensures Content(count, cb, data', cs) == Content(count, cb, data, cs)
  {
    forall k | 0 <= k < |cs| * cb
      ensures ByteAt(count, cb, data', cs, k) == ByteAt(count, cb, data, cs, k)
    {
      DivBound(k, |cs|, cb);
    }
  }

  /** A longer list of clusters only adds bytes at the end. */
  lemma ContentPrefix(count: nat, cb: nat, data: seq<seq<byte>>, cs: seq<nat>, cs': seq<nat>)
    requires DataOk(count, cb, data) && Clusters(count, cs) && Clusters(count, cs') && cs <= cs'
    ensures |cs| * cb <= |cs'| * cb
    ensures Content(count, cb, data, cs')[..|cs| * cb] == Content(count, cb, data, cs)
  {
    MulMono(|cs|, |cs'|, cb);
    forall k | 0 <= k < |cs| * cb
      ensures ByteAt(count, cb, data, cs', k) == ByteAt(count, cb, data, cs, k)
    {
      DivBound(k, |cs|, cb);
    }
  }

  /** One cluster's slice is a slice of the content. */
  lemma ChunkContent(count: nat, cb: nat, data: seq<seq<byte>>, cs: seq<nat>, at: nat, take: nat)
    requires DataOk(count, cb, data) && Clusters(count, cs)
    requires at + take <= |cs| * cb && at < |cs| * cb && at % cb + take <= cb
    ensures at / cb < |cs|
    ensures data[cs[at / cb]][at % cb..at % cb + take] == Content(count, cb, data, cs)[at..at + take]
  {
    DivBound(at, |cs|, cb);
    var slice := data[cs[at / cb]][at % cb..at % cb + take];
    forall i | 0 <= i < take
      ensures slice[i] == Content(count, cb, data, cs)[at + i]
    {
      WithinCluster(at, i, cb);
    }
  }

  /** Writing a slice of one cluster writes that slice of the content. */
  lemma ChunkWrite(count: nat, cb: nat, data: seq<seq<byte>>, data': seq<seq<byte>>, cs: seq<nat>, at: nat,
                   chunk: seq<byte>)
    requires DataOk(count, cb, data) && Clusters(count, cs) && Distinct(cs)
    requires at + |chunk| <= |cs| * cb && at < |cs| * cb && at % cb + |chunk| <= cb
    requires at / cb < |cs|
    requires data' == data[cs[at / cb] := Splice(data[cs[at / cb]], at % cb, chunk)]
    ensures DataOk(count, cb, data')
    ensures Content(count, cb, data', cs) == Splice(Content(count, cb, data, cs), at, chunk)
  {
    var before, after := Content(count, cb, data, cs), Content(count, cb, data', cs);
    var q, r := at / cb, at % cb;
    forall k | 0 <= k < |cs| * cb
      ensures after[k] == Splice(before, at, chunk)[k]
    {
      DivBound(k, |cs|, cb);
      assert after[k] == data'[cs[k / cb]][k % cb] && before[k] == data[cs[k / cb]][k % cb];
      if k / cb == q {
        assert k == q * cb + k % cb && at == q * cb + r;
      } else {
        if at <= k < at + |chunk| { WithinCluster(at, k - at, cb); }
      }
    }
  }

  lemma SpliceTwice<T>(base: seq<T>, offset: nat, bytes: seq<T>, done: nat, more: nat)
    requires offset + |bytes| <= |base| && done <= more <= |bytes|
    ensures Splice(Splice(base, offset, bytes[..done]), offset + done, bytes[done..more]) == Splice(base, offset,
        bytes[..more])
  {
  }

  lemma ChainFacts(count: nat, fat: seq<nat>, first: nat, contiguous: bool, cs: seq<nat>)
    requires |fat| == count + 2 && ChainOk(count, fat, first, contiguous, cs)
    ensures |cs| <= count && forall k :: 0 <= k < |cs| ==> InHeap(count, cs[k])
    ensures cs != [] ==> cs[0] == first
  {
  }

  lemma FreshChain(count: nat, fat: seq<nat>, cs: seq<nat>, c: nat)
    requires |fat| == count + 2 && cs == [] && InHeap(count, c) && count > 0
    ensures ChainOk(count, fat, c, true, cs + [c])
  {
  }

  lemma ContiguousMore(count: nat, fat: seq<nat>, first: nat, cs: seq<nat>, c: nat)
    requires |fat| == count + 2 && ChainOk(count, fat, first, true, cs) && cs != [] && |cs| < count
    requires InHeap(count, c) && c == cs[|cs| - 1] + 1
    ensures ChainOk(count, fat, first, true, cs + [c])
  {
  }

  lemma ChainLinked(count: nat, fat: seq<nat>, first: nat, cs: seq<nat>)
    requires |fat| == count + 2 && ChainOk(count, fat, first, false, cs)
    ensures Linked(count, fat, cs, |cs|)
  {
  }

  lemma AppendLinked(count: nat, fat: seq<nat>, fat': seq<nat>, cs: seq<nat>, c: nat)
    requires |fat| == count + 2 && Linked(count, fat, cs, |cs|) && cs != [] && |cs| < count
    requires InHeap(count, c) && Distinct(cs + [c])
    requires fat' == fat[cs[|cs| - 1] := c][c := END_OF_CHAIN]
    ensures ChainOk(count, fat', cs[0], false, cs + [c])
  {
    var more := cs + [c];
    forall k | 0 <= k < |more| ensures fat'[more[k]] == Link(more, k) {
      assert more[|cs|] == c;
      if k < |cs| {
        assert more[k] != c;
        if k < |cs| - 1 {
          assert more[k] != more[|cs| - 1];
          assert fat[cs[k]] == cs[k + 1];
        }
      }
    }
  }

  lemma EmptyChain(count: nat, fat: seq<nat>, cs: seq<nat>)
    requires |fat| == count + 2
    ensures ChainOk(count, fat, 0, false, cs[..0])
  {
  }

  lemma CutContiguous(count: nat, fat0: seq<nat>, fat: seq<nat>, first: nat, cs: seq<nat>, keep: nat)
    requires |fat0| == |fat| == count + 2 && ChainOk(count, fat0, first, true, cs) && 0 < keep <= |cs|
    ensures ChainOk(count, fat, first, true, cs[..keep])
  {
  }

  /** Ending a chain after `keep` clusters. */
  lemma CutChain(count: nat, fat: seq<nat>, fat': seq<nat>, cs: seq<nat>, keep: nat)
    requires |fat| == count + 2 && 0 < keep <= |cs| <= count && Distinct(cs)
    requires Linked(count, fat, cs, keep)
    requires fat' == fat[cs[keep - 1] := END_OF_CHAIN]
    ensures ChainOk(count, fat', cs[0], false, cs[..keep])
  {
    var cut := cs[..keep];
    forall k | 0 <= k < keep ensures fat'[cut[k]] == Link(cut, k) {
      assert k < keep - 1 ==> fat[cs[k]] == cs[k + 1];
    }
  }

  lemma PrefixDistinct(pcs: seq<nat>, cs: seq<nat>)
    requires pcs <= cs && Distinct(cs)
    ensures Distinct(pcs)
  {
  }

  lemma TailUnchanged(count: nat, cb: nat, data: seq<seq<byte>>, data': seq<seq<byte>>, pcs: seq<nat>, cs: seq<nat>,
                      k: nat)
    requires DataOk(count, cb, data) && DataOk(count, cb, data') && Clusters(count, cs)
    requires pcs <= cs && Distinct(cs) && |pcs| * cb <= k < |cs| * cb
    requires SameOutside(data, data', pcs)
    ensures Content(count, cb, data', cs)[k] == Content(count, cb, data, cs)[k]
  {
    DivBound(k, |cs|, cb);
    MulMono(k / cb + 1, |pcs|, cb);
    assert (k / cb + 1) * cb == k / cb * cb + cb && k == k / cb * cb + k % cb;
    var q := k / cb;
    assert q >= |pcs|;
    assert forall i :: 0 <= i < |pcs| ==> pcs[i] == cs[i] != cs[q];
    assert Content(count, cb, data', cs)[k] == ByteAt(count, cb, data', cs, k);
  }

  lemma PrefixClusters(count: nat, pcs: seq<nat>, cs: seq<nat>)
    requires pcs <= cs && Clusters(count, cs)
    ensures Clusters(count, pcs)
  {
  }

  lemma SplicedIs(before: seq<byte>, offset: nat, bytes: seq<byte>)
    requires offset + |bytes| <= |before|
    ensures Spliced(before, offset, bytes, Splice(before, offset, bytes))
  {
  }

  lemma SplicedParts(before: seq<byte>, offset: nat, bytes: seq<byte>, after: seq<byte>)
    requires Spliced(before, offset, bytes, after)
    ensures |after| == |before|
  {
  }

  lemma ZeroTail(h0: seq<byte>, h1: seq<byte>, h2: seq<byte>, cb: nat)
    requires h0 <= h1 && |h1| == |h0| + cb && h2 == Splice(h1, |h0|, Zeros(cb))
    ensures h2 == h0 + Zeros(cb)
  {
  }

  lemma SameFirst(count: nat, fat: seq<nat>, cs0: seq<nat>, cs: seq<nat>, first0: nat, first: nat, contiguous: bool)
    requires |fat| == count + 2 && ChainOk(count, fat, first, contiguous, cs) && cs0 != [] && cs0[0] == first0
             && cs0 <= cs
    ensures first == first0 && cs != []
  {
  }

  lemma AllZero(before: seq<byte>, n: nat, after: seq<byte>)
    requires |before| == n && Spliced(before, 0, Zeros(n), after)
    ensures after == Zeros(n)
  {
  }

  lemma ReachesAt(count: nat, fat: seq<nat>, s: Stream, cs: seq<nat>, k: nat)
    requires |fat| == count + 2 && Reaches(count, fat, s, cs) && k < |cs|
    ensures InHeap(count, cs[k]) && ClusterRef(count, fat, s, k) == Some(cs[k])
  {
  }

  lemma NoChange(data: seq<seq<byte>>, cs: seq<nat>)
    ensures SameOutside(data, data, cs)
  {
  }

  lemma SameTwice(a: seq<seq<byte>>, b: seq<seq<byte>>, c: seq<seq<byte>>, cs: seq<nat>)
    requires SameOutside(a, b, cs) && SameOutside(b, c, cs)
    ensures SameOutside(a, c, cs)
  {
  }

  lemma NoSplice(base: seq<byte>, offset: nat, bytes: seq<byte>)
    requires offset <= |base|
    ensures Spliced(base, offset, bytes[..0], base)
  {
  }

  lemma SplicedEquals(before: seq<byte>, offset: nat, bytes: seq<byte>, after: seq<byte>)
    requires Spliced(before, offset, bytes, after)
    ensures offset + |bytes| <= |before| && after == Splice(before, offset, bytes)
  {
  }

  /** Two writes one after the other are one write. */
  lemma SplicedOn(before: seq<byte>, offset: nat, bytes: seq<byte>, m: nat, n: nat, mid: seq<byte>, after: seq<byte>)
    requires m <= n <= |bytes| && offset + |bytes| <= |before| && Spliced(before, offset, bytes[..m], mid)
    requires Spliced(mid, offset + m, bytes[m..n], after)
    ensures Spliced(before, offset, bytes[..n], after)
  {
    SpliceTwice(before, offset, bytes, m, n);
  }
}
