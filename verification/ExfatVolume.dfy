/** kernel/fs/exfat.cpp: the mounted volume and its operations.

    The device never fails here, so every `DeviceError` branch of the source is
    kept and proved not to be taken on a well-formed volume. */
module ExfatVolume {
  import opened Common
  import opened Utf
  import opened ExfatDisk
  import opened ExfatLayout
  import opened ExfatEntries
  import opened ExfatDirectory
  import opened ExfatTree
  import opened ExfatMoves
  import opened ExfatIds
  import opened ExfatFiles
  import opened ExfatRename

  class Volume {
    const count: nat
    const cb: nat
    var fat: seq<nat>
    var data: seq<seq<byte>>
    const bitmap: Stream
    const up: Upcase
    const writable: bool
    var root: Stream
    var cursor: Cursor
    var hint: nat
    /** The cluster lists of all live streams, as they stand on disk. */
    ghost var lay: Layout
    /** The entry sets of every directory, and an order of directories below their
        parents. */
    ghost var dirs: map<nat, map<nat, Rec>>
    ghost var rank: map<nat, nat>

    ghost predicate Base()
      reads `fat, `data, `cursor
    {
      && 1 <= count < END_OF_CHAIN - 1
      && |fat| == count + 2
      && DataOk(count, cb, data)
      && CursorOk(count, fat, cursor)
    }

    // ---------------------------------------------------------- stream access

    /** `cluster_at`: resumes at the cursor when it can, and always answers as a
        walk from the first cluster under the current FAT would. */
    method ClusterAt(s: Stream, index: nat) returns (r: Option<nat>)
      requires Base()
      modifies `cursor
      ensures Base()
      ensures r == ClusterRef(count, fat, s, index)
      ensures cursor == old(cursor) || cursor.first == s.first
      ensures r.Some? && !s.contiguous ==> cursor.first == s.first
    {
      var last := count + 1;
      if s.first < FIRST_DATA_CLUSTER || s.first > last || index >= count { return None; }
      if s.contiguous {
        if s.first + index > last { return None; }
        return Some(s.first + index);
      }
      var current, at := s.first, 0;
      if cursor.first == s.first && cursor.index <= index {
        current, at := cursor.cluster, cursor.index;
      }
      while at < index
        invariant at <= index
        invariant Walk(count, fat, s.first, at) == Some(current)
        invariant cursor == old(cursor)
      {
        var next := FatNext(current);
        if next.None? || next.value < FIRST_DATA_CLUSTER || next.value > last {
          WalkNone(count, fat, s.first, at + 1, index);
          return None;
        }
        current := next.value;
        at := at + 1;
      }
      cursor := Cursor(s.first, index, current);
      return Some(current);
    }

    /** `fat_next`. */
    method FatNext(cluster: nat) returns (next: Option<nat>)
      requires |fat| == count + 2
      ensures next == if InHeap(count, cluster) then Some(fat[cluster]) else None
    {
      if cluster < FIRST_DATA_CLUSTER || cluster > count + 1 { return None; }
      return Some(fat[cluster]);
    }

    /** `read_stream`: the bytes from `offset`, cut at the stream's length. */
    method ReadStream(s: Stream, offset: nat, length: nat, ghost cs: seq<nat>) returns (out: seq<byte>, error: Error)
      requires Base() && Reaches(count, fat, s, cs)
      requires offset < s.length ==> offset + Available(s, offset, length) <= |cs| * cb
      modifies `cursor
      ensures Base()
      ensures cursor == old(cursor) || cursor.first == s.first
      ensures error == NoError
      ensures out == if offset >= s.length then []
                     else Content(count, cb, data, cs)[offset..offset + Available(s, offset, length)]
      ensures out != [] && !s.contiguous ==> cursor.first == s.first
    {
      if offset >= s.length { return [], NoError; }
      var wanted := Available(s, offset, length);
      ghost var content := Content(count, cb, data, cs);
      BaseParts();
      hide *;
      var done := 0;
      out := [];
      while done < wanted
        invariant 0 <= done <= wanted
        invariant Base() && (cursor == old(cursor) || cursor.first == s.first)
        invariant out == content[offset..offset + done]
        invariant done > 0 && !s.contiguous ==> cursor.first == s.first
      {
        var at := offset + done;
        var within := at % cb;
        var take := Min(cb - within, wanted - done);
        var chunk := ReadChunk(s, at, take, cs);
        if chunk.None? { return out, DeviceError; }
        out := out + chunk.value;
        done := done + take;
      }
      return out, NoError;
    }

    lemma BaseParts()
      requires Base()
      ensures cb > 0 && |fat| == count + 2 && DataOk(count, cb, data)
    {
    }

    /** The bytes of a stream within one cluster. */
    method ReadChunk(s: Stream, at: nat, take: nat, ghost cs: seq<nat>) returns (chunk: Option<seq<byte>>)
      requires Base() && Reaches(count, fat, s, cs) && take > 0 && at + take <= |cs| * cb && at % cb + take <= cb
      modifies `cursor
      ensures Base() && (cursor == old(cursor) || cursor.first == s.first)
      ensures !s.contiguous ==> cursor.first == s.first
      ensures chunk == Some(Content(count, cb, data, cs)[at..at + take])
    {
      hide Content, CursorOk, ClusterRef;
      DivBound(at, |cs|, cb);
      ReachesAt(count, fat, s, cs, at / cb);
      var cluster := ClusterAt(s, at / cb);
      if cluster.None? { return None; }
      ChunkContent(count, cb, data, cs, at, take);
      return Some(data[cluster.value][at % cb..at % cb + take]);
    }

    /** `write_stream`: splices `bytes` into the content and touches nothing else. */
    method WriteStream(s: Stream, offset: nat, bytes: seq<byte>, ghost cs: seq<nat>) returns (error: Error)
      requires Base() && Reaches(count, fat, s, cs) && Distinct(cs)
      requires offset + |bytes| <= s.length ==> offset + |bytes| <= |cs| * cb
      modifies `cursor, `data
      ensures Base()
      ensures cursor == old(cursor) || cursor.first == s.first
      ensures error == if offset + |bytes| <= s.length then NoError else OutOfRange
      ensures error != NoError ==> data == old(data)
      ensures error == NoError ==>
                Content(count, cb, data, cs) == Splice(old(Content(count, cb, data, cs)), offset, bytes)
      ensures SameOutside(old(data), data, cs)
    {
      if offset > s.length || |bytes| > s.length - offset { return OutOfRange; }
      ghost var before := Content(count, cb, data, cs);
      BaseParts();
      NoChange(data, cs);
      NoSplice(before, offset, bytes);
      hide *;
      var done := 0;
      while done < |bytes|
        invariant 0 <= done <= |bytes|
        invariant Base() && DataOk(count, cb, data) && (cursor == old(cursor) || cursor.first == s.first)
        invariant Spliced(before, offset, bytes[..done], Content(count, cb, data, cs))
        invariant SameOutside(old(data), data, cs)
      {
        var at := offset + done;
        var within := at % cb;
        var take := Min(cb - within, |bytes| - done);
        ghost var data0, mid := data, Content(count, cb, data, cs);
        var written := WriteChunk(s, at, bytes[done..done + take], cs);
        if !written { return DeviceError; }
        SplicedOn(before, offset, bytes, done, done + take, mid, Content(count, cb, data, cs));
        SameTwice(old(data), data0, data, cs);
        done := done + take;
      }
      assert bytes[..done] == bytes;
      SplicedEquals(before, offset, bytes, Content(count, cb, data, cs));
      return NoError;
    }

    /** Bytes of a stream within one cluster overwritten. */
    method WriteChunk(s: Stream, at: nat, chunk: seq<byte>, ghost cs: seq<nat>) returns (ok: bool)
      requires Base() && Reaches(count, fat, s, cs) && Distinct(cs)
      requires chunk != [] && at + |chunk| <= |cs| * cb && at % cb + |chunk| <= cb
      modifies `cursor, `data
      ensures ok && Base() && DataOk(count, cb, data) && (cursor == old(cursor) || cursor.first == s.first)
      ensures Spliced(old(Content(count, cb, data, cs)), at, chunk, Content(count, cb, data, cs))
      ensures SameOutside(old(data), data, cs)
    {
      hide Content, CursorOk, ClusterRef;
      DivBound(at, |cs|, cb);
      ReachesAt(count, fat, s, cs, at / cb);
      var cluster := ClusterAt(s, at / cb);
      if cluster.None? { return false; }
      ghost var data0 := data;
      data := data[cluster.value := Splice(data[cluster.value], at % cb, chunk)];
      ChunkWrite(count, cb, data0, data, cs, at, chunk);
      return true;
    }

    /** `zero_stream`, in pieces of at most 512 bytes. */
    method ZeroStream(s: Stream, offset: nat, length: nat, ghost cs: seq<nat>) returns (error: Error)
      requires Base() && Reaches(count, fat, s, cs) && Distinct(cs)
      requires offset + length <= s.length && offset + length <= |cs| * cb
      modifies `cursor, `data
      ensures Base()
      ensures cursor == old(cursor) || cursor.first == s.first
      ensures error == NoError
      ensures Content(count, cb, data, cs) == Splice(old(Content(count, cb, data, cs)), offset, Zeros(length))
      ensures SameOutside(old(data), data, cs)
    {
      ghost var before, zeros := Content(count, cb, data, cs), Zeros(length);
      var at, left := offset, length;
      while left != 0
        invariant 0 <= left <= length && at == offset + length - left
        invariant Base() && (cursor == old(cursor) || cursor.first == s.first)
        invariant Content(count, cb, data, cs) == Splice(before, offset, zeros[..length - left])
        invariant SameOutside(old(data), data, cs)
      {
        var take := Min(left, 512);
        var result := WriteStream(s, at, Zeros(take), cs);
        if result != NoError { return result; }
        assert Zeros(take) == zeros[length - left..length - left + take];
        SpliceTwice(before, offset, zeros, length - left, length - left + take);
        at := at + take;
        left := left - take;
      }
      assert zeros[..length] == zeros;
      return NoError;
    }

    // ------------------------------------------------------- allocation bitmap

    ghost predicate BitmapOk(bcs: seq<nat>)
      reads `fat, `data, `cursor
      ensures BitmapOk(bcs) ==> DataOk(count, cb, data) && Clusters(count, bcs)
      ensures BitmapOk(bcs) ==> (count + 7) / 8 <= bitmap.length <= |bcs| * cb
    {
      && Base()
      && !bitmap.contiguous
      && ChainOk(count, fat, bitmap.first, false, bcs) && Distinct(bcs)
      && (count + 7) / 8 <= bitmap.length <= |bcs| * cb
    }

    /** The bytes of the allocation bitmap as they stand on disk. */
    ghost function Bits(bcs: seq<nat>): (bits: seq<byte>)
      requires DataOk(count, cb, data) && Clusters(count, bcs)
      requires (count + 7) / 8 <= bitmap.length <= |bcs| * cb
      reads `data
      ensures Covers(count, bits) && |bits| == bitmap.length
    {
      Content(count, cb, data, bcs)[..bitmap.length]
    }

    /** `bitmap_test`. */
    method BitmapTest(cluster: nat, ghost bcs: seq<nat>) returns (used: Option<bool>)
      requires BitmapOk(bcs) && InHeap(count, cluster)
      modifies `cursor
      ensures BitmapOk(bcs) && cursor.first == bitmap.first
      ensures used == Some(Used(Bits(bcs), cluster))
    {
      ChainReaches(count, fat, bitmap, bcs);
      var index := cluster - FIRST_DATA_CLUSTER;
      var bytes, _ := ReadStream(bitmap, index / 8, 1, bcs);
      if |bytes| != 1 { return None; }
      return Some(Bit(bytes[0], index % 8));
    }

    /** `bitmap_set`: one cluster's mark changes, and no cluster outside the bitmap. */
    method BitmapSet(cluster: nat, used: bool, ghost bcs: seq<nat>) returns (ok: bool)
      requires BitmapOk(bcs) && InHeap(count, cluster)
      modifies `cursor, `data
      ensures BitmapOk(bcs) && cursor.first == bitmap.first
      ensures ok && Bits(bcs) == Marked(old(Bits(bcs)), cluster, used)
      ensures SameOutside(old(data), data, bcs)
    {
      ChainReaches(count, fat, bitmap, bcs);
      var index := cluster - FIRST_DATA_CLUSTER;
      var bytes, _ := ReadStream(bitmap, index / 8, 1, bcs);
      if |bytes| != 1 { return false; }
      var byte := if used then SetBit(bytes[0], index % 8) else ClearBit(bytes[0], index % 8);
      var error := WriteStream(bitmap, index / 8, [byte], bcs);
      return error == NoError;
    }

    /** `read_stream` of the bitmap. */
    method ReadBitmap(index: nat, take: nat, ghost bcs: seq<nat>) returns (chunk: seq<byte>)
      requires BitmapOk(bcs) && take > 0 && index + take <= bitmap.length
      modifies `cursor
      ensures BitmapOk(bcs) && cursor.first == bitmap.first
      ensures chunk == Bits(bcs)[index..index + take]
    {
      ChainReaches(count, fat, bitmap, bcs);
      var bytes, _ := ReadStream(bitmap, index, take, bcs);
      return bytes;
    }

    /** One chunk of the bitmap scan: the first unmarked cluster of bytes
        `at .. at + |chunk|`. */
    method ScanChunk(at: nat, chunk: seq<byte>) returns (cluster: Option<nat>)
      ensures cluster.None? ==> forall i :: 0 <= i < |chunk| ==> ByteFull(count, at + i, chunk[i])
      ensures cluster.Some? ==> InHeap(count, cluster.value)
      ensures cluster.Some? ==> var n := cluster.value - 2; at <= n / 8 < at + |chunk| && !Bit(chunk[n / 8 - at], n % 8)
    {
      for i := 0 to |chunk|
        invariant forall j :: 0 <= j < i ==> ByteFull(count, at + j, chunk[j])
      {
        if chunk[i] == 0xFF {
          FullMark(count, at + i);
          continue;
        }
        for bit := 0 to 8
          invariant forall b :: 0 <= b < bit ==> (at + i) * 8 + b >= count || Bit(chunk[i], b)
        {
          var index := (at + i) * 8 + bit;
          if index >= count { break; }
          if Bit(chunk[i], bit) { continue; }
          return Some(index + FIRST_DATA_CLUSTER);
        }
      }
      return None;
    }

    /** The scan of `allocate_cluster`: one lap over the bitmap from the hint, in
        chunks of 64 bytes; it misses no free cluster. */
    method ScanBitmap(ghost bcs: seq<nat>) returns (cluster: Option<nat>, error: Error)
      requires BitmapOk(bcs)
      modifies `cursor
      ensures BitmapOk(bcs) && cursor.first == bitmap.first
      ensures error == NoError
      ensures cluster.Some? ==> InHeap(count, cluster.value) && !Used(Bits(bcs), cluster.value)
      ensures cluster.None? ==> forall c :: InHeap(count, c) ==> Used(Bits(bcs), c)
    {
      ScanReady(bcs);
      hide *;
      ghost var bits := Bits(bcs);
      var start := if FIRST_DATA_CLUSTER <= hint <= count + 1 then hint - FIRST_DATA_CLUSTER else 0;
      start := start - start % 8;
      var total := (count + 7) / 8;
      FirstByte(count, start);
      var scanned := 0;
      while scanned < total + 64
        invariant BitmapOk(bcs) && Bits(bcs) == bits
        invariant scanned > 0 ==> cursor.first == bitmap.first
        invariant forall t :: 0 <= t < scanned ==> Swept(count, bits, start / 8, t)
      {
        var index := (start / 8 + scanned) % total;
        var take := Min(total - index, 64);
        var chunk;
        cluster, chunk := ScanOne(index, take, bcs);
        if |chunk| != take { return None, DeviceError; }
        if cluster.Some? { return cluster, NoError; }
        SweepChunk(count, bits, start / 8, scanned, chunk);
        scanned := scanned + take;
      }
      forall c | InHeap(count, c) ensures Used(bits, c) {
        LapCovers(count, bits, start / 8, c);
      }
      return None, NoError;
    }

    /** One chunk of the bitmap: a free cluster in it, or none. */
    method ScanOne(index: nat, take: nat, ghost bcs: seq<nat>) returns (cluster: Option<nat>, chunk: seq<byte>)
      requires BitmapOk(bcs) && take > 0 && index + take <= (count + 7) / 8
      modifies `cursor
      ensures BitmapOk(bcs) && cursor.first == bitmap.first
      ensures index + take <= |Bits(bcs)| && |chunk| == take && chunk == Bits(bcs)[index..index + take]
      ensures cluster.Some? ==> InHeap(count, cluster.value) && !Used(Bits(bcs), cluster.value)
      ensures cluster.None? ==> forall i :: 0 <= i < |chunk| ==> ByteFull(count, index + i, chunk[i])
    {
      ScanReady(bcs);
      hide *;
      chunk := ReadBitmap(index, take, bcs);
      cluster := ScanChunk(index, chunk);
      if cluster.Some? { ChunkUsed(Bits(bcs), index, chunk, cluster.value); }
    }

    lemma ScanReady(bcs: seq<nat>)
      requires BitmapOk(bcs)
      ensures count > 0 && FIRST_DATA_CLUSTER == 2 && Covers(count, Bits(bcs)) && |Bits(bcs)| == bitmap.length
      ensures forall c: nat :: InHeap(count, c) <==> 2 <= c <= count + 1
    {
      hide ChainOk, Content, CursorOk;
    }

    /** `allocate_cluster`: takes `prefer` when it is free, fails only on a full
        volume, and marks exactly the cluster it hands out. */
    method AllocateCluster(prefer: nat, ghost bcs: seq<nat>) returns (error: Error, cluster: nat)
      requires BitmapOk(bcs)
      modifies `cursor, `data, `hint
      ensures BitmapOk(bcs) && cursor.first == bitmap.first
      ensures error == NoError || error == NoSpace
      ensures error == NoSpace ==> data == old(data)
      ensures error == NoSpace ==> forall c :: InHeap(count, c) ==> Used(Bits(bcs), c)
      ensures error == NoError ==> InHeap(count, cluster) && !Used(old(Bits(bcs)), cluster)
      ensures error == NoError ==> Bits(bcs) == Marked(old(Bits(bcs)), cluster, true)
      ensures error == NoError && InHeap(count, prefer) && !Used(old(Bits(bcs)), prefer) ==> cluster == prefer
      ensures SameOutside(old(data), data, bcs)
    {
      cluster := 0;
      var last := count + 1;
      var used := Some(true);
      if FIRST_DATA_CLUSTER <= prefer <= last { used := BitmapTest(prefer, bcs); }
      if used == Some(false) {
        cluster := prefer;
      } else {
        var found, failed := ScanBitmap(bcs);
        if failed != NoError { return failed, cluster; }
        if found.None? { return NoSpace, cluster; }
        cluster := found.value;
      }
      var ok := BitmapSet(cluster, true, bcs);
      if !ok { return DeviceError, cluster; }
      hint := if cluster + 1 > last then FIRST_DATA_CLUSTER else cluster + 1;
      return NoError, cluster;
    }

    // ------------------------------------------------------------ FAT and resize

    /** `fat_set`.  The cursor may stand on the bitmap's own chain, which the write
        leaves alone. */
    method FatSet(cluster: nat, value: nat, ghost bcs: seq<nat>) returns (ok: bool)
      requires BitmapOk(bcs) && (cursor.first == 0 || cursor.first == bitmap.first)
      requires InHeap(count, cluster) && cluster !in bcs
      modifies `fat
      ensures BitmapOk(bcs)
      ensures ok && fat == old(fat)[cluster := value]
    {
      if cluster < FIRST_DATA_CLUSTER || cluster > count + 1 { return false; }
      ghost var fat0 := fat;
      fat := fat[cluster := value];
      ChainFrame(count, fat0, fat, bitmap.first, false, bcs);
      CursorSurvives(count, fat0, fat, bitmap.first, bcs, cursor);
      return true;
    }

    /** `release_clusters`: keeps the first `keep` clusters and unmarks the rest. */
    method ReleaseClusters(s: Stream, keep: nat, current: nat, ghost cs: seq<nat>, ghost bcs: seq<nat>)
      returns (error: Error, s': Stream)
      requires BitmapOk(bcs) && Apart(cs, bcs)
      requires ChainOk(count, fat, s.first, s.contiguous, cs) && Distinct(cs) && current == |cs|
      modifies `cursor, `fat, `data
      ensures BitmapOk(bcs) && cursor == NO_CURSOR
      ensures error == NoError
      ensures s'.length == s.length && s'.valid == s.valid
      ensures keep >= current ==> s' == s && fat == old(fat) && data == old(data)
      ensures keep < current ==> ChainOk(count, fat, s'.first, s'.contiguous, cs[..keep])
      ensures keep < current ==> s'.contiguous == (s.contiguous && keep > 0)
      ensures keep < current ==> Unmarked(count, old(Bits(bcs)), Bits(bcs), cs, keep, current)
      ensures forall c :: 0 <= c < |fat| && c !in cs ==> fat[c] == old(fat)[c]
      ensures SameOutside(old(data), data, bcs)
    {
      hide Unmarked, Cleared, ChainOk, Reaches, Linked, Content, Covers;
      cursor := NO_CURSOR;
      if keep >= current { return NoError, s; }
      var start := HeadOfTail(s, keep, cs);
      if start.None? { return DeviceError, s; }
      cursor := NO_CURSOR;
      ghost var fat0 := fat;
      ChainFacts(count, fat, s.first, s.contiguous, cs);
      FreeTail(s, keep, current, start.value, cs, bcs);
      if !s.contiguous { ClearedOutside(fat0, fat, cs, keep, current); }
      s' := s;
      if keep == 0 {
        s' := s.(first := 0, contiguous := false);
        EmptyChain(count, fat, cs);
      } else if s.contiguous {
        CutContiguous(count, fat0, fat, s.first, cs, keep);
      } else {
        ghost var fat1 := fat;
        ClearedLinks(count, fat0, fat1, s.first, cs, keep);
        var tail := ClusterAt(s, keep - 1);
        if tail.None? { return DeviceError, s; }
        cursor := NO_CURSOR;
        var ok := FatSet(tail.value, END_OF_CHAIN, bcs);
        if !ok { return DeviceError, s; }
        CutChain(count, fat1, fat, cs, keep);
      }
      cursor := NO_CURSOR;
      return NoError, s';
    }

    /** Cluster `keep` of the stream. */
    method HeadOfTail(s: Stream, keep: nat, ghost cs: seq<nat>) returns (start: Option<nat>)
      requires Base() && ChainOk(count, fat, s.first, s.contiguous, cs) && keep < |cs|
      modifies `cursor
      ensures Base()
      ensures start == Some(cs[keep]) && InHeap(count, cs[keep])
    {
      ChainReaches(count, fat, s, cs);
      start := ClusterAt(s, keep);
    }

    /** The loop of `release_clusters`: for a chained stream the next cluster is read
        before the current link is cleared. */
    method FreeTail(s: Stream, keep: nat, current: nat, start: nat, ghost cs: seq<nat>, ghost bcs: seq<nat>)
      requires BitmapOk(bcs) && Apart(cs, bcs) && cursor == NO_CURSOR
      requires ChainOk(count, fat, s.first, s.contiguous, cs) && Distinct(cs) && current == |cs|
      requires keep < current && start == cs[keep]
      modifies `cursor, `fat, `data
      ensures BitmapOk(bcs)
      ensures if s.contiguous then fat == old(fat) else Cleared(old(fat), fat, cs, keep, current)
      ensures Unmarked(count, old(Bits(bcs)), Bits(bcs), cs, keep, current)
      ensures SameOutside(old(data), data, bcs)
    {
      hide Unmarked, Cleared, ChainOk, Content, Covers, CursorOk, Distinct;
      ChainFacts(count, fat, s.first, s.contiguous, cs);
      ghost var fat0, bits0 := fat, Bits(bcs);
      var cluster, index := start, keep;
      NothingYet(count, fat0, bits0, cs, keep);
      while index < current
        invariant keep <= index <= current
        invariant BitmapOk(bcs) && (cursor.first == 0 || cursor.first == bitmap.first)
        invariant index < current ==> cluster == cs[index]
        invariant if s.contiguous then fat == fat0 else Cleared(fat0, fat, cs, keep, index)
        invariant Unmarked(count, bits0, Bits(bcs), cs, keep, index)
        invariant SameOutside(old(data), data, bcs)
      {
        ChainStep(count, fat0, fat, s.first, s.contiguous, cs, keep, index);
        var next := Some(0);
        if !s.contiguous && index + 1 < current {
          next := FatNext(cluster);
          if next.None? { return; }
        }
        ghost var bits := Bits(bcs);
        var ok := BitmapSet(cluster, false, bcs);
        if !ok { return; }
        UnmarkedStep(count, bits0, bits, Bits(bcs), cs, keep, index);
        if !s.contiguous {
          ghost var fat1 := fat;
          ok := FatSet(cluster, 0, bcs);
          ClearedStep(fat0, fat1, fat, cs, keep, index);
        }
        cluster := if s.contiguous then cluster + 1 else next.value;
        index := index + 1;
      }
    }

    /** The linking half of `resize`'s loop: the new cluster either continues a
        contiguous stream or is chained, after the clusters so far have been written
        into the FAT. */
    method LinkCluster(s: Stream, size: nat, last: nat, cluster: nat, ghost cs: seq<nat>, ghost bcs: seq<nat>)
      returns (ok: bool, s': Stream)
      requires BitmapOk(bcs) && cursor.first == bitmap.first
      requires ChainOk(count, fat, s.first, s.contiguous, cs) && Distinct(cs + [cluster]) && |cs| < count
      requires InHeap(count, cluster) && Apart(cs + [cluster], bcs)
      requires size == |cs| && (cs != [] ==> last == cs[|cs| - 1])
      modifies `cursor, `fat
      ensures BitmapOk(bcs)
      ensures cursor.first == 0 || cursor.first == bitmap.first
      ensures ok
      ensures s'.length == s.length && s'.valid == s.valid
      ensures ChainOk(count, fat, s'.first, s'.contiguous, cs + [cluster])
      ensures s'.contiguous ==> s.contiguous || cs == []
      ensures forall c :: 0 <= c < |fat| && c !in cs + [cluster] ==> fat[c] == old(fat)[c]
    {
      hide ChainOk, Content, Distinct, Linked, Covers;
      ghost var more := cs + [cluster];
      ChainFacts(count, fat, s.first, s.contiguous, cs);
      assert forall k :: 0 <= k < |cs| ==> cs[k] == more[k];
      assert more[|cs|] == cluster;
      s' := s;
      if size == 0 {
        FreshChain(count, fat, cs, cluster);
        return true, s.(first := cluster, contiguous := true);
      }
      if s.contiguous && cluster == last + 1 {
        ContiguousMore(count, fat, s.first, cs, cluster);
        return true, s;
      }
      if s.contiguous {
        WriteLinks(s, size, cs, bcs);
        s' := s'.(contiguous := false);
        cursor := NO_CURSOR;
      } else {
        ChainLinked(count, fat, s.first, cs);
      }
      ghost var fat1 := fat;
      ok := FatSet(last, cluster, bcs);
      if !ok { return false, s'; }
      ok := FatSet(cluster, END_OF_CHAIN, bcs);
      if !ok { return false, s'; }
      AppendLinked(count, fat1, fat, cs, cluster);
      return true, s';
    }

    /** A contiguous stream's clusters written into the FAT as links. */
    method WriteLinks(s: Stream, size: nat, ghost cs: seq<nat>, ghost bcs: seq<nat>)
      requires BitmapOk(bcs) && cursor.first == bitmap.first && Apart(cs, bcs)
      requires ChainOk(count, fat, s.first, true, cs) && cs != [] && size == |cs|
      modifies `fat
      ensures BitmapOk(bcs)
      ensures Linked(count, fat, cs, |cs|)
      ensures forall c :: 0 <= c < |fat| && c !in cs ==> fat[c] == old(fat)[c]
    {
      hide Content, CursorOk, Covers;
      ghost var fat0 := fat;
      var index := 0;
      while index + 1 < size
        invariant 0 <= index < size
        invariant BitmapOk(bcs)
        invariant forall k {:trigger fat[cs[k]]} :: 0 <= k < index ==> fat[cs[k]] == cs[k + 1]
        invariant |fat| == |fat0| && forall c :: 0 <= c < |fat| && c !in cs ==> fat[c] == fat0[c]
      {
        var here := s.first + index;
        assert here == cs[index] && here + 1 == cs[index + 1];
        var ok := FatSet(here, here + 1, bcs);
        index := index + 1;
      }
    }

    /** The growing half of `resize`, with its undo. */
    method Grow(s: Stream, clusters: nat, current: nat, ghost cs0: seq<nat>, ghost bcs: seq<nat>)
      returns (error: Error, s': Stream, ghost cs: seq<nat>)
      requires BitmapOk(bcs) && Owned(Bits(bcs), cs0, bcs)
      requires ChainOk(count, fat, s.first, s.contiguous, cs0)
      requires |cs0| == current < clusters <= count
      modifies `cursor, `fat, `data, `hint
      ensures BitmapOk(bcs)
      ensures error == NoError || error == NoSpace
      ensures error == NoError <==> clusters - |cs0| <= |FreeClusters(count, old(Bits(bcs)))|
      ensures s'.length == s.length && s'.valid == s.valid
      ensures error == NoError ==> cs0 <= cs && |cs| == clusters
      ensures error == NoError ==> s.contiguous || cs0 == [] || !s'.contiguous
      ensures error == NoSpace ==> Bits(bcs) == old(Bits(bcs)) && cs == cs0
      ensures Reshape(count, old(fat), fat, old(Bits(bcs)), Bits(bcs), cs0,
                      if error == NoError then Head(s'.first, s'.contiguous) else Head(s.first, s.contiguous), cs)
      ensures SameOutside(old(data), data, bcs)
    {
      hide Owned, Grown, ChainOk, Content, CursorOk, FreeClusters, Used, Marked, Reshape, Unmarked, Distinct, Apart;
      ghost var fat0, bits0 := fat, Bits(bcs);
      s', cs := s, cs0;
      var last := 0;
      if current > 0 {
        var tail := HeadOfTail(s, current - 1, cs0);
        if tail.None? { return DeviceError, s', cs; }
        last := tail.value;
      }
      var size := current;
      ChainFacts(count, fat, s.first, s.contiguous, cs0);
      GrownNothing(count, fat, bits0, cs0, bcs);
      while size < clusters
        invariant cs0 <= cs && size == |cs| <= clusters
        invariant BitmapOk(bcs)
        invariant ChainOk(count, fat, s'.first, s'.contiguous, cs)
        invariant Grown(count, fat0, fat, bits0, Bits(bcs), cs0, cs)
        invariant |cs| - |cs0| + |FreeClusters(count, Bits(bcs))| == |FreeClusters(count, bits0)|
        invariant cs != [] ==> last == cs[|cs| - 1]
        invariant s'.length == s.length && s'.valid == s.valid
        invariant s.contiguous || cs0 == [] || !s'.contiguous
        invariant SameOutside(old(data), data, bcs)
      {
        var prefer := if size == 0 then hint else last + 1;
        ghost var bits1, fat1 := Bits(bcs), fat;
        var result, cluster := AllocateCluster(prefer, bcs);
        if result != NoError {
          NoneFree(count, Bits(bcs));
          GrownApart(count, fat0, fat, bits0, Bits(bcs), cs0, cs, bcs);
          ghost var bits2, fat2 := Bits(bcs), fat;
          var _, s2 := ReleaseClusters(s', current, size, cs, bcs);
          assert size == current ==> cs[..|cs0|] == cs;
          Undone(count, fat0, fat2, fat, bits0, bits2, Bits(bcs), s, s2, cs0, cs, bcs);
          return result, s2, cs0;
        }
        GrownFresh(count, fat0, fat, bits0, bits1, cs0, cs, bcs, cluster);
        var linked, s3 := LinkCluster(s', size, last, cluster, cs, bcs);
        if !linked { return DeviceError, s', cs; }
        GrownStep(count, fat0, fat1, fat, bits0, bits1, Bits(bcs), cs0, cs, cluster);
        s', last, size, cs := s3, cluster, size + 1, cs + [cluster];
      }
      GrownReshape(count, fat0, fat, bits0, Bits(bcs), s', cs0, cs);
      return NoError, s', cs;
    }

    /** Each cluster belongs to at most one live stream, and the bitmap on disk marks
        exactly the clusters that belong to one. */
    ghost predicate Inv()
      reads `fat, `data, `cursor, `lay
    {
      && BitmapId in lay.chain && BitmapId in lay.heads
      && lay.heads[BitmapId] == Head(bitmap.first, false)
      && BitmapOk(lay.chain[BitmapId])
      && LayoutOk(count, fat, Bits(lay.chain[BitmapId]), lay)
    }

    lemma InvParts()
      requires Inv()
      ensures BitmapId in lay.chain && lay.heads.Keys == lay.chain.Keys
      ensures lay.heads[BitmapId] == Head(bitmap.first, false)
      ensures BitmapOk(lay.chain[BitmapId])
      ensures |fat| == |data| == count + 2 && cb > 0 && Covers(count, Bits(lay.chain[BitmapId]))
      ensures !bitmap.contiguous && Base()
      ensures LayoutOk(count, fat, Bits(lay.chain[BitmapId]), lay)
    {
    }

    lemma BitmapParts(bcs: seq<nat>)
      requires BitmapOk(bcs)
      ensures Base() && |fat| == |data| == count + 2 && cb > 0
      ensures DataOk(count, cb, data) && Clusters(count, bcs) && (count + 7) / 8 <= bitmap.length <= |bcs| * cb
    {
    }

    lemma InvMake()
      requires BitmapId in lay.chain && BitmapId in lay.heads
      requires lay.heads[BitmapId] == Head(bitmap.first, false)
      requires BitmapOk(lay.chain[BitmapId])
      requires |fat| == count + 2 && Covers(count, Bits(lay.chain[BitmapId]))
      requires LayoutOk(count, fat, Bits(lay.chain[BitmapId]), lay)
      ensures Inv()
    {
    }

    /** `resize`: the common prefix of the cluster list stays, every other list is
        unchanged, it succeeds exactly when enough clusters are free, and `NoSpace`
        restores the bitmap byte for byte. */
    method Resize(s: Stream, clusters: nat, ghost id: Id) returns (error: Error, s': Stream)
      requires Inv() && id in lay.chain && id != BitmapId
      requires lay.heads[id] == Head(s.first, s.contiguous)
      requires |lay.chain[id]| == CurrentClusters(s, cb)
      modifies `cursor, `fat, `data, `hint, `lay
      ensures Inv() && lay.chain.Keys == old(lay.chain.Keys)
      ensures error == NoError || error == NoSpace
      ensures error == NoError <==>
                clusters <= |old(lay.chain)[id]| + |FreeClusters(count, old(Bits(lay.chain[BitmapId])))|
      ensures s'.length == s.length && s'.valid == s.valid
      ensures error == NoError ==> s.contiguous || old(lay.chain)[id] == [] || !s'.contiguous
      ensures error == NoError ==>
                && |lay.chain[id]| == clusters
                && (lay.chain[id] <= old(lay.chain)[id] || old(lay.chain)[id] <= lay.chain[id])
                && lay == Reshaped(old(lay), id, Head(s'.first, s'.contiguous), lay.chain[id])
      ensures error == NoSpace ==> lay == old(lay) && Bits(lay.chain[BitmapId]) == old(Bits(lay.chain[BitmapId]))
      ensures SameOutside(old(data), data, lay.chain[BitmapId])
      ensures |lay.chain[id]| + |FreeClusters(count,
                                              Bits(lay.chain[BitmapId]))| == |old(lay.chain)[id]| + |FreeClusters(count,
                                                  old(Bits(lay.chain[BitmapId])))|
    {
      var current := CurrentClusters(s, cb);
      FreeRoom(count, fat, Bits(lay.chain[BitmapId]), lay, id);
      hide LayoutOk, Reshaped, BitmapOk, FreeClusters;
      if clusters <= current {
        error, s' := ShrinkNode(s, clusters, current, id);
      } else if clusters > count {
        error, s' := NoSpace, s;
      } else {
        error, s' := GrowNode(s, clusters, current, id);
      }
    }

    method ShrinkNode(s: Stream, clusters: nat, current: nat, ghost id: Id) returns (error: Error, s': Stream)
      requires Inv() && id in lay.chain && id != BitmapId
      requires lay.heads[id] == Head(s.first, s.contiguous)
      requires clusters <= current == |lay.chain[id]|
      modifies `cursor, `fat, `data, `lay
      ensures Inv() && lay.chain.Keys == old(lay.chain.Keys)
      ensures error == NoError
      ensures s'.length == s.length && s'.valid == s.valid
      ensures lay.chain[id] == old(lay.chain)[id][..clusters]
      ensures s.contiguous || !s'.contiguous
      ensures lay == Reshaped(old(lay), id, Head(s'.first, s'.contiguous), lay.chain[id])
      ensures SameOutside(old(data), data, lay.chain[BitmapId])
      ensures |lay.chain[id]| + |FreeClusters(count,
                                              Bits(lay.chain[BitmapId]))| == |old(lay.chain)[id]| + |FreeClusters(count,
                                                  old(Bits(lay.chain[BitmapId])))|
    {
      hide *;
      InvParts();
      ghost var bcs, cs0 := lay.chain[BitmapId], lay.chain[id];
      ghost var fat0, bits0 := fat, Bits(bcs);
      LayoutOwned(count, fat, bits0, lay, id);
      assert Distinct(cs0) && Apart(cs0, bcs) by { OwnedParts(bits0, cs0, bcs); }
      error, s' := ReleaseClusters(s, clusters, current, cs0, bcs);
      BitmapParts(bcs);
      Released(count, fat0, fat, bits0, Bits(bcs), s, s', cs0, clusters, bcs);
      Relabel(bcs, fat0, bits0, id, Head(s'.first, s'.contiguous), cs0[..clusters]);
    }

    /** The ghost half of a resize: one list is replaced, the invariant is back. */
    ghost method Relabel(bcs: seq<nat>, fat0: seq<nat>, bits0: seq<byte>, id: Id, head: Head, cs: seq<nat>)
      requires BitmapOk(bcs) && id in lay.chain && id != BitmapId
      requires BitmapId in lay.chain && BitmapId in lay.heads && bcs == lay.chain[BitmapId]
      requires lay.heads[BitmapId] == Head(bitmap.first, false)
      requires |fat0| == |fat| == count + 2 && Covers(count, bits0) && |bits0| == |Bits(bcs)|
      requires LayoutOk(count, fat0, bits0, lay)
      requires Reshape(count, fat0, fat, bits0, Bits(bcs), lay.chain[id], head, cs)
      modifies `lay
      ensures Inv() && lay == Reshaped(old(lay), id, head, cs)
      ensures lay.chain == old(lay.chain)[id := cs] && lay.heads == old(lay.heads)[id := head]
      ensures old(lay.chain)[id] == cs && id in old(lay.heads) && old(lay.heads)[id] == head ==> lay == old(lay)
      ensures Bits(bcs) == old(Bits(bcs))
      ensures |cs| + |FreeClusters(count, Bits(bcs))| == |old(lay.chain)[id]| + |FreeClusters(count, bits0)|
    {
      hide *;
      ReshapeKeeps(count, fat0, fat, bits0, Bits(bcs), lay, id, head, cs);
      LayoutOwned(count, fat0, bits0, lay, id);
      ChainFacts(count, fat0, lay.heads[id].first, lay.heads[id].contiguous, lay.chain[id]);
      ReshapeCount(count, fat0, fat, bits0, Bits(bcs), lay.chain[id], head, cs, bcs);
      LayoutParts(count, fat0, bits0, lay);
      ReshapedParts(lay, id, head, cs);
      lay := Reshaped(lay, id, head, cs);
      InvMake();
    }

    method GrowNode(s: Stream, clusters: nat, current: nat, ghost id: Id) returns (error: Error, s': Stream)
      requires Inv() && id in lay.chain && id != BitmapId
      requires lay.heads[id] == Head(s.first, s.contiguous)
      requires |lay.chain[id]| == current < clusters <= count
      modifies `cursor, `fat, `data, `hint, `lay
      ensures Inv() && lay.chain.Keys == old(lay.chain.Keys)
      ensures error == NoError || error == NoSpace
      ensures error == NoError <==>
                clusters <= |old(lay.chain)[id]| + |FreeClusters(count, old(Bits(lay.chain[BitmapId])))|
      ensures s'.length == s.length && s'.valid == s.valid
      ensures error == NoError ==> |lay.chain[id]| == clusters && old(lay.chain)[id] <= lay.chain[id]
      ensures error == NoError ==> s.contiguous || old(lay.chain)[id] == [] || !s'.contiguous
      ensures error == NoError ==> lay == Reshaped(old(lay), id, Head(s'.first, s'.contiguous), lay.chain[id])
      ensures error == NoSpace ==> lay == old(lay) && Bits(lay.chain[BitmapId]) == old(Bits(lay.chain[BitmapId]))
      ensures SameOutside(old(data), data, lay.chain[BitmapId])
      ensures |lay.chain[id]| + |FreeClusters(count,
                                              Bits(lay.chain[BitmapId]))| == |old(lay.chain)[id]| + |FreeClusters(count,
                                                  old(Bits(lay.chain[BitmapId])))|
    {
      hide *;
      InvParts();
      ghost var bcs, cs0 := lay.chain[BitmapId], lay.chain[id];
      ghost var fat0, bits0 := fat, Bits(bcs);
      LayoutOwned(count, fat, bits0, lay, id);
      ghost var cs;
      error, s', cs := Grow(s, clusters, current, cs0, bcs);
      BitmapParts(bcs);
      Relabel(bcs, fat0, bits0, id, if error == NoError then Head(s'.first, s'.contiguous)
              else Head(s.first, s.contiguous), cs);
    }

    // -------------------------------------------------------------- entry sets

    /** The checksum loop of `next_entry`, `store` and `insert`. */
    method SumSet(bytes: seq<byte>) returns (sum: nat)
      ensures sum == SetChecksum(bytes, |bytes|)
    {
      sum := 0;
      for i := 0 to |bytes|
        invariant sum == SetChecksum(bytes, i)
      {
        if i != 2 && i != 3 { sum := Checksum16(sum, bytes[i]); }
      }
    }

    /** A set with its checksum put in. */
    method Summed(bytes: seq<byte>) returns (r: seq<byte>)
      requires |bytes| >= 4
      ensures r == WithChecksum(bytes)
    {
      var sum := SumSet(bytes);
      r := Splice(bytes, 2, Put16(sum));
    }

    /** `name_hash`. */
    method HashName(name: seq<unit>) returns (hash: nat)
      ensures hash == NameHash(up, name)
    {
      hash := 0;
      for i := 0 to |name|
        invariant hash == NameHash(up, name[..i])
      {
        var upper := up[name[i]];
        assert name[..i + 1][..i] == name[..i];
        hash := Checksum16(hash, upper % 256);
        hash := Checksum16(hash, upper / 256);
      }
      assert name[..|name|] == name;
    }

    /** `legal_name`. */
    method CheckName(name: seq<unit>) returns (legal: bool)
      ensures legal == LegalName(name)
    {
      if |name| == 0 || |name| > 255 { return false; }
      if (|name| == 1 && name[0] == 0x2E) || (|name| == 2 && name[0] == 0x2E && name[1] == 0x2E) { return false; }
      for i := 0 to |name|
        invariant forall j :: 0 <= j < i ==> !ForbiddenUnit(name[j])
      {
        if ForbiddenUnit(name[i]) { return false; }
      }
      return true;
    }

    /** The validity tests of `next_entry` on the bytes of one set. */
    method CheckShape(bytes: seq<byte>) returns (valid: bool)
      requires |bytes| >= 96 && |bytes| % ENTRY_BYTES == 0
      ensures valid == WellShaped(bytes)
    {
      hide SetChecksum;
      var secondaries := |bytes| / ENTRY_BYTES - 1;
      var sum := SumSet(bytes);
      var nameEntries := NameEntries(bytes[35]);
      if !(sum == Le16(bytes, 2) && bytes[32] == 0xC0 && bytes[35] != 0
           && nameEntries <= secondaries - 1) { return false; }
      for i := 0 to nameEntries
        invariant forall j :: 2 <= j < 2 + i ==> bytes[j * ENTRY_BYTES] == 0xC1
      {
        if bytes[(2 + i) * ENTRY_BYTES] != 0xC1 { return false; }
      }
      for i := 2 + nameEntries to secondaries + 1
        invariant forall j :: 2 + nameEntries <= j < i ==> bytes[j * ENTRY_BYTES] >= 0xC0
      {
        if bytes[i * ENTRY_BYTES] < 0xC0 { return false; }
      }
      return true;
    }

    /** The name units of a set, gathered from its name entries. */
    method ReadName(bytes: seq<byte>) returns (name: seq<unit>)
      requires |bytes| > 35 && UnitsFit(bytes)
      ensures name == NameOf(bytes)
    {
      name := [];
      for i := 0 to bytes[35]
        invariant |name| == i && forall j :: 0 <= j < i ==> name[j] == UnitOf(bytes, j)
      {
        UnitWithin(i, bytes[35]);
        name := name + [Le16(bytes, UnitAt(i))];
      }
    }

    /** What `next_entry` makes of the bytes of one set. */
    method Parse(bytes: seq<byte>) returns (parsed: Parsed)
      requires cb > 0 && |bytes| >= 96 && |bytes| % ENTRY_BYTES == 0
      ensures parsed == ParseSet(count, cb, up, bytes)
    {
      var valid := CheckShape(bytes);
      if !valid { return Damaged; }
      var name := ReadName(bytes);
      var legal := CheckName(name);
      if !legal { return Unusable; }
      var hash := HashName(name);
      if hash != Le16(bytes, 36) { return Unusable; }
      var stream := StreamOf(bytes);
      if !ContentOk(count, cb, stream) { return Unusable; }
      return Good(Entry(stream, Le16(bytes, 4), name));
    }

    // ---------------------------------------------------------------- scanning

    /** One iteration of `next_entry`.  The stream is either a whole directory, or it
        only reaches the one set already `known` to be at `slot`. */
    method ReadStep(s: Stream, slot: nat, ghost cs: seq<nat>, ghost known: Option<Rec>) returns (step: Step)
      requires Base() && Reaches(count, fat, s, cs) && Scannable(s, slot, cs, known) && slot * ENTRY_BYTES < s.length
      modifies `cursor
      ensures Base() && (cursor == old(cursor) || cursor.first == s.first)
      ensures slot < Slots(Content(count, cb, data, cs))
      ensures step == StepAt(count, cb, up, Content(count, cb, data, cs), slot)
    {
      hide *;
      BaseFacts();
      ghost var content := Content(count, cb, data, cs);
      ScanFacts(s, slot, cs, known);
      StepCases(count, cb, up, content, slot);
      var first := ReadSlots(s, slot, 1, cs);
      if |first| != 32 { return End; }
      if first[0] == 0 { return End; }
      if first[0] != 0x85 { return Skip(1); }
      var size := first[1] as nat + 1;
      if size < 3 || size > 19 { return Skip(1); }
      var bytes := ReadSlots(s, slot, size, cs);
      if |bytes| != size * 32 { return Skip(1); }
      var parsed := Parse(bytes);
      match parsed
      case Damaged => return Skip(1);
      case Unusable => return Skip(size);
      case Good(entry) => return Found(Rec(entry, size));
    }

    lemma BaseFacts()
      requires Base()
      ensures 1 <= count < END_OF_CHAIN - 1 && |fat| == |data| == count + 2 && cb > 0
      ensures DataOk(count, cb, data) && CursorOk(count, fat, cursor)
    {
    }

    lemma ScanFacts(s: Stream, slot: nat, cs: seq<nat>, known: Option<Rec>)
      requires Base() && Clusters(count, cs) && Scannable(s, slot, cs, known) && slot * ENTRY_BYTES < s.length
      ensures var content := Content(count, cb, data, cs);
              && slot < Slots(content)
              && 32 * slot + 32 <= s.length
              && (known.None? ==> s.length == |content|)
              && (known.Some? ==>
                    && content[32 * slot] == 0x85 && content[32 * slot + 1] == known.value.size - 1
                    && (slot + known.value.size) * 32 <= s.length
                    && 3 <= known.value.size <= 19
                    && (slot + known.value.size) * 32 <= |content|)
    {
      hide ParseSet, Content;
    }

    /** `size` slots of a directory stream, or fewer bytes when it is shorter. */
    method ReadSlots(s: Stream, slot: nat, size: nat, ghost cs: seq<nat>) returns (bytes: seq<byte>)
      requires Base() && Reaches(count, fat, s, cs) && slot * 32 < s.length
      requires s.length == |cs| * cb || (slot + size) * 32 <= |cs| * cb
      modifies `cursor
      ensures Base() && (cursor == old(cursor) || cursor.first == s.first)
      ensures |bytes| == size * 32 <==> (slot + size) * 32 <= s.length
      ensures |bytes| == size * 32 ==> (slot + size) * 32 <= |Content(count, cb, data, cs)|
      ensures |bytes| == size * 32 ==> bytes == Content(count, cb, data, cs)[slot * 32..(slot + size) * 32]
    {
      hide Reaches, CursorOk, Content;
      var read, _ := ReadStream(s, slot * 32, size * 32, cs);
      return read;
    }

    ghost predicate Scannable(s: Stream, slot: nat, cs: seq<nat>, known: Option<Rec>)
      requires DataOk(count, cb, data) && Clusters(count, cs)
      reads `data
    {
      match known
      case None => s.length == |cs| * cb && s.length % ENTRY_BYTES == 0
      case Some(rec) =>
        && SetAt(count, cb, up, Content(count, cb, data, cs), slot, rec)
        && (slot + rec.size) * ENTRY_BYTES <= s.length && slot <= MAX_SLOT
    }

    /** `next_entry`. */
    method NextEntry(s: Stream, slot: nat, ghost cs: seq<nat>, ghost known: Option<Rec>) returns (hit: Option<Hit>)
      requires Base() && Reaches(count, fat, s, cs) && Scannable(s, slot, cs, known)
      modifies `cursor
      ensures Base() && (cursor == old(cursor) || cursor.first == s.first)
      ensures known.None? ==> hit == NextSet(count, cb, up, Content(count, cb, data, cs), slot)
      ensures known.Some? ==> hit == Some(Hit(slot, known.value))
    {
      hide StepAt, SetAt, Reaches, CursorOk, Content;
      if known.Some? { KnownStep(count, cb, up, Content(count, cb, data, cs), slot, known.value); }
      var at := slot;
      while at <= MAX_SLOT && at * ENTRY_BYTES < s.length
        invariant slot <= at
        invariant Base() && (cursor == old(cursor) || cursor.first == s.first)
        invariant Scannable(s, at, cs, known)
        invariant known.None? ==>
                  NextSet(count, cb, up, Content(count, cb, data, cs), slot) == NextSet(count, cb, up,
                      Content(count, cb, data, cs), at)
        invariant known.Some? ==> at == slot
        decreases s.length - at * ENTRY_BYTES
      {
        var step := ReadStep(s, at, cs, known);
        match step
        case End => return None;
        case Skip(n) => at := at + n;
        case Found(rec) => return Some(Hit(at, rec));
      }
      return None;
    }

    // ------------------------------------------------------------------ lookup

    /** A C string as at most 255 units, or nothing. */
    method DecodeName(name: seq<byte>) returns (units: Option<seq<unit>>)
      requires NullFree(name)
      ensures units == Wanted(name)
    {
      var buffer := new unit[255](_ => 0);
      StringOf(name);
      var ok, n := Utf8ToUtf16(name + [0], buffer);
      if !ok { return None; }
      return Some(buffer[..n]);
    }

    /** The unit loop of `find`: equal after up-casing. */
    method SameName(a: seq<unit>, wanted: seq<unit>) returns (same: bool)
      requires |a| == |wanted|
      ensures same == (Up(up, a) == wanted)
    {
      for i := 0 to |a|
        invariant forall j :: 0 <= j < i ==> Up(up, a)[j] == wanted[j]
      {
        if up[a[i]] != wanted[i] {
          assert Up(up, a)[i] != wanted[i];
          return false;
        }
      }
      return true;
    }

    /** `find`: the set whose up-cased name is the wanted one, hash compared first. */
    method Find(s: Stream, name: seq<byte>, ghost cs: seq<nat>, ghost ents: map<nat, Rec>) returns (hit: Option<Hit>)
      requires Base() && Reaches(count, fat, s, cs) && NullFree(name)
      requires s.length == |cs| * cb && s.length % ENTRY_BYTES == 0 && s.length <= MAX_DIRECTORY_BYTES
      requires DirOk(count, cb, up, Content(count, cb, data, cs), ents)
      modifies `cursor
      ensures Base() && (cursor == old(cursor) || cursor.first == s.first)
      ensures Finds(up, ents, Wanted(name), hit)
    {
      hide DirOk, Reaches, CursorOk, Content, NextSet, NameHash, Up, Wanted;
      ghost var content := Content(count, cb, data, cs);
      var units := DecodeName(name);
      if units.None? || units.value == [] { return None; }
      var hash := HashName(units.value);
      var wanted := UpName(units.value);
      var slot := 0;
      while true
        invariant Base() && (cursor == old(cursor) || cursor.first == s.first)
        invariant forall q :: q in ents && q < slot ==> Up(up, ents[q].entry.name) != wanted
        decreases MAX_SLOT + 1 - slot
      {
        NextInDir(count, cb, up, content, ents, slot);
        hit := NextEntry(s, slot, cs, None);
        if hit.None? { return None; }
        var entry := hit.value.rec.entry;
        SetWithin(count, cb, up, content, ents, hit.value.slot);
        slot := hit.value.slot + hit.value.rec.size;
        NoSetInside(count, cb, up, content, ents, hit.value.slot);
        var stored := HashName(entry.name);
        if |entry.name| == |units.value| && stored == hash {
          var same := SameName(entry.name, wanted);
          if same { return; }
        } else {
          DifferentName(up, entry.name, units.value);
        }
      }
    }

    method UpName(name: seq<unit>) returns (upper: seq<unit>)
      ensures upper == Up(up, name)
    {
      upper := [];
      for i := 0 to |name|
        invariant |upper| == i && forall j :: 0 <= j < i ==> upper[j] == up[name[j]]
      {
        upper := upper + [up[name[i]]];
      }
    }

    // ------------------------------------------------------- the whole volume

    ghost function T(): Tree
      reads `root, `lay, `dirs, `rank
    {
      Tree(root, lay, dirs, rank)
    }

    /** Everything that holds of the volume apart from the cursor.  `extra` and `skip`
        are the streams an operation has in hand; both are empty between operations. */
    ghost predicate Core(extra: set<Id>, skip: set<Id>)
      reads `fat, `data, `root, `lay, `dirs, `rank
      ensures Core(extra, skip) ==> cb > 0 && |fat| == |data| == count + 2
      ensures Core(extra, skip) ==> DataOk(count, cb, data) && ChainsInHeap(count, lay)
    {
      && 1 <= count < END_OF_CHAIN - 1 && |fat| == count + 2 && DataOk(count, cb, data)
      && cb % ENTRY_BYTES == 0 && cb <= 0x200_0000
      && BitmapId in lay.chain && BitmapId in lay.heads && lay.heads[BitmapId] == Head(bitmap.first, false)
      && !bitmap.contiguous && Clusters(count, lay.chain[BitmapId])
      && (count + 7) / 8 <= bitmap.length <= |lay.chain[BitmapId]| * cb
      && LayoutOk(count, fat, Bits(lay.chain[BitmapId]), lay)
      && ChainsInHeap(count, lay) && HeadsOk(lay)
      && Shape(cb, up, T(), extra, skip)
      && OnDisk(count, cb, up, data, T())
    }

    /** The volume is well formed: FAT, bitmap, directories and streams agree. */
    ghost predicate Valid()
      reads this
    {
      Base() && Core({}, {})
    }

    lemma CoreInv(extra: set<Id>, skip: set<Id>)
      requires Base() && Core(extra, skip)
      ensures Inv()
    {
      hide LayoutOk, Shape, OnDisk, Content;
      assert ChainOk(count, fat, bitmap.first, false, lay.chain[BitmapId]) && Distinct(lay.chain[BitmapId]) by {
        BitmapChain(count, fat, Bits(lay.chain[BitmapId]), lay);
      }
    }

    lemma CoreFacts(extra: set<Id>, skip: set<Id>)
      requires Core(extra, skip)
      ensures 1 <= count < END_OF_CHAIN - 1 && cb % ENTRY_BYTES == 0 && 0 < cb <= 0x200_0000
      ensures BitmapId in lay.chain && lay.heads.Keys == lay.chain.Keys
      ensures HeadsOk(lay) && OwnersOk(lay) && ChainsOk(count, fat, lay)
      ensures forall d :: d in dirs ==> d in lay.owner && lay.owner[d].index == 0
      ensures Shape(cb, up, T(), extra, skip)
      ensures OnDisk(count, cb, up, data, T())
    {
      hide OnDisk, NodeOk, NamesApart, Content;
    }

    lemma MakeCore(extra: set<Id>, skip: set<Id>)
      requires Inv() && cb % ENTRY_BYTES == 0 && cb <= 0x200_0000
      requires OwnersOk(lay) && ChainsInHeap(count, lay) && DataOk(count, cb, data) && cb > 0
      requires forall d :: d in dirs ==> d in lay.owner
      requires Shape(cb, up, T(), extra, skip) && OnDisk(count, cb, up, data, T())
      ensures Base() && Core(extra, skip)
    {
      InvParts();
      LayoutHeads(count, fat, Bits(lay.chain[BitmapId]), lay);
      hide LayoutOk, Shape, OnDisk, Content;
    }

    // ------------------------------------------------------------------ nodes

    /** A node of this volume: the root, or an identifier handed out for an entry set
        that is still there. */
    ghost predicate Node(id: nat)
      requires cb > 0
      reads `root, `lay, `dirs, `rank
    {
      id == ROOT_ID || Handle(cb, T(), id)
    }

    /** `locate`: reads the entry set again, through the parent as the identifier
        remembers it. */
    method Locate(id: nat, ghost extra: set<Id>, ghost skip: set<Id>) returns (where: Option<Location>)
      requires Base() && Core(extra, skip) && Node(id)
      modifies `cursor
      ensures Base() && Core(extra, skip)
      ensures id == ROOT_ID ==> where == Some(Location(Stream(0, 0, 0, false), 0, Entry(root, 0x10, []), true))
      ensures id != ROOT_ID ==>
                where == Some(Location(ParentStream(id), IdSlot(id), T().At(IdFirst(id), IdSlot(id)).entry, false))
    {
      hide *;
      if id == ROOT_ID {
        return Some(Location(Stream(0, 0, 0, false), 0, Entry(root, 0x10, []), true));
      }
      NodeHandle(id);
      ghost var d, s := IdFirst(id), IdSlot(id);
      ghost var cs, rec := ParentChain(cb, T(), id), T().At(d, s);
      LocateReady(id, extra, skip);
      var parent, slot := ParentStream(id), IdSlot(id);
      var hit := NextEntry(parent, slot, cs, Some(rec));
      if hit.None? || hit.value.slot != slot { return None; }
      return Some(Location(parent, slot, hit.value.rec.entry, false));
    }

    lemma NodeHandle(id: nat)
      requires cb > 0 && Node(id) && id != ROOT_ID
      ensures Handle(cb, T(), id) && T().Has(IdFirst(id), IdSlot(id)) && dirs == T().dirs && lay == T().lay
    {
    }

    /** The identified set can be read through its parent stream. */
    lemma LocateReady(id: nat, extra: set<Id>, skip: set<Id>)
      requires Base() && Core(extra, skip) && Handle(cb, T(), id) && T().Has(IdFirst(id), IdSlot(id))
      ensures |fat| == count + 2 && DataOk(count, cb, data)
      ensures var cs, rec := ParentChain(cb, T(), id), T().At(IdFirst(id), IdSlot(id));
              && Reaches(count, fat, ParentStream(id), cs) && Clusters(count, cs)
              && Scannable(ParentStream(id), IdSlot(id), cs, Some(rec))
    {
      hide *;
      CoreFacts(extra, skip);
      ghost var t, d, s := T(), IdFirst(id), IdSlot(id);
      TreeParts();
      HandleParts(cb, t, id);
      HandleReaches(count, fat, cb, t, id);
      HereOf(count, cb, up, data, t, d);
      ReadThrough(count, cb, up, data, t, id);
      SpanCovers(cb, s, t.At(d, s).size);
      KnownScannable(id, ParentChain(cb, t, id), t.At(d, s));
    }

    lemma TreeParts()
      ensures T().root == root && T().lay == lay && T().dirs == dirs && T().rank == rank
    {
    }

    lemma KnownScannable(id: nat, cs: seq<nat>, rec: Rec)
      requires DataOk(count, cb, data) && Clusters(count, cs)
      requires SetAt(count, cb, up, Content(count, cb, data, cs), IdSlot(id), rec) && rec.size <= MAX_SET
      ensures Scannable(ParentStream(id), IdSlot(id), cs, Some(rec))
    {
      hide SetAt;
    }

    // ------------------------------------------------- writing into a directory

    /** The tree with new sets in directory `d`, and without the directories `gone`. */
    ghost function Redrawn(d: nat, ents: map<nat, Rec>, gone: set<nat>): Tree
      reads `root, `lay, `dirs, `rank
    {
      T().(dirs := dirs[d := ents] - gone)
    }

    /** Slots of one directory rewritten, through a stream that reaches at least that
        part of it. */
    method WriteSlots(s: Stream, slot: nat, bytes: seq<byte>, ghost d: nat, ghost pcs: seq<nat>,
                      ghost ents: map<nat, Rec>,
                      ghost gone: set<nat>, ghost extra: set<Id>, ghost skip: set<Id>, ghost extra': set<Id>,
                        ghost skip': set<Id>)
      returns (error: Error)
      requires Base() && Core(extra, skip) && d in dirs && d in lay.owner && lay.owner[d].id in lay.chain
      requires pcs <= lay.chain[lay.owner[d].id] && Clusters(count, lay.chain[lay.owner[d].id])
               && Reaches(count, fat, s, pcs)
      requires slot * ENTRY_BYTES + |bytes| <= s.length && slot * ENTRY_BYTES + |bytes| <= |pcs| * cb
      requires slot * ENTRY_BYTES + |bytes| <= |lay.chain[lay.owner[d].id]| * cb
      requires DirOk(count, cb, up, Over(Content(count, cb, data, lay.chain[lay.owner[d].id]), slot, bytes), ents)
      requires Shape(cb, up, Redrawn(d, ents, gone), extra', skip')
      modifies `cursor, `data, `dirs
      ensures Base() && Core(extra', skip')
      ensures error == NoError && dirs == old(dirs)[d := ents] - gone
      ensures SameOutside(old(data), data, lay.chain[lay.owner[d].id])
    {
      hide *;
      CoreFacts(extra, skip);
      TreeParts();
      ghost var cs, data0, t := lay.chain[lay.owner[d].id], data, T();
      CoreInv(extra, skip);
      InvParts();
      ChainDistinct(lay, lay.owner[d].id);
      PrefixDistinct(pcs, cs);
      BitsAre(lay.chain[BitmapId]);
      DirNotBitmap(cb, up, t, extra, skip, d);
      error := WriteStream(s, slot * ENTRY_BYTES, bytes, pcs);
      BaseFacts();
      PrefixWrite(count, cb, data0, data, pcs, cs, slot, bytes);
      KeepBitmap(data0, lay.owner[d].id);
      RedrawnDisk(count, cb, up, data0, data, t, d, ents, gone);
      ghost var t' := Redrawn(d, ents, gone);
      RedrawnParts(d, ents, gone);
      dirs := dirs[d := ents] - gone;
      TreeParts();
      SameTree(T(), t');
      ShapeOf(cb, up, t', extra', skip');
      MakeCore(extra', skip');
    }

    lemma RedrawnParts(d: nat, ents: map<nat, Rec>, gone: set<nat>)
      ensures Redrawn(d, ents, gone) == Tree(root, lay, dirs[d := ents] - gone, rank)
    {
    }

    /** A write that spares the bitmap's clusters keeps the allocation invariant. */
    lemma KeepBitmap(data0: seq<seq<byte>>, id: Id)
      requires Base() && DataOk(count, cb, data0) && BitmapId in lay.chain && BitmapId in lay.heads && id in lay.chain
               && id != BitmapId
      requires lay.heads[BitmapId] == Head(bitmap.first, false) && !bitmap.contiguous
      requires Clusters(count, lay.chain[BitmapId]) && (count + 7) / 8 <= bitmap.length <= |lay.chain[BitmapId]| * cb
      requires LayoutOk(count, fat, Content(count, cb, data0, lay.chain[BitmapId])[..bitmap.length], lay)
      requires SameOutside(data0, data, lay.chain[id])
      ensures Inv()
    {
      var bcs := lay.chain[BitmapId];
      var bits := Content(count, cb, data0, bcs)[..bitmap.length];
      BitmapChain(count, fat, bits, lay);
      LayoutParts(count, fat, bits, lay);
      hide LayoutOk, ChainOk, Distinct, OwnersOk;
      forall k | 0 <= k < |bcs| ensures data[bcs[k]] == data0[bcs[k]] {
        ChainsApart(lay, BitmapId, id, bcs[k]);
      }
      ContentFrame(count, cb, data0, data, bcs);
    }

    lemma BitsAre(bcs: seq<nat>)
      requires DataOk(count, cb, data) && Clusters(count, bcs) && (count + 7) / 8 <= bitmap.length <= |bcs| * cb
      ensures Bits(bcs) == Content(count, cb, data, bcs)[..bitmap.length]
    {
    }

    /** The bytes of a whole set, read as `store` and `erase` read it: the File entry
        first, for its count. */
    method ReadSet(parent: Stream, slot: nat, ghost d: nat, ghost pcs: seq<nat>, ghost extra: set<Id>,
                   ghost skip: set<Id>)
      returns (bytes: seq<byte>, ok: bool)
      requires Base() && Core(extra, skip) && T().Has(d, slot) && d in lay.owner && lay.owner[d].id in lay.chain
      requires pcs <= lay.chain[lay.owner[d].id] && Reaches(count, fat, parent, pcs)
      requires (slot + T().At(d, slot).size) * ENTRY_BYTES <= parent.length
      requires (slot + T().At(d, slot).size) * ENTRY_BYTES <= |pcs| * cb
      modifies `cursor
      ensures Base() && Core(extra, skip) && ok
      ensures d in dirs && slot in dirs[d] && 3 <= dirs[d][slot].size <= 19 && |bytes| == dirs[d][slot].size * 32
      ensures var content := Content(count, cb, data, lay.chain[lay.owner[d].id]);
              slot + dirs[d][slot].size <= Slots(content) && bytes == SetBytes(content, slot, dirs[d][slot].size)
    {
      hide *;
      bytes := [];
      SetReady(slot, d, pcs, extra, skip);
      ghost var content := Content(count, cb, data, lay.chain[lay.owner[d].id]);
      SetBytesAre(content, slot, dirs[d][slot].size);
      var first := ReadSlots(parent, slot, 1, pcs);
      if |first| != 32 { return bytes, false; }
      var secondaries := first[1] as nat;
      if first[0] != 0x85 || secondaries < 2 || secondaries > 18 { return bytes, false; }
      bytes := ReadSlots(parent, slot, secondaries + 1, pcs);
      return bytes, |bytes| == (secondaries + 1) * 32;
    }

    /** `store`: one set's stream fields rewritten, its checksum recomputed. */
    method Store(parent: Stream, slot: nat, s: Stream, ghost d: nat, ghost pcs: seq<nat>, ghost extra: set<Id>,
                 ghost skip: set<Id>)
      returns (error: Error)
      requires Base() && Core(extra, skip) && T().Has(d, slot) && NodeId(d, slot) in skip && d in lay.owner
               && lay.owner[d].id in lay.chain
      requires pcs <= lay.chain[lay.owner[d].id] && Reaches(count, fat, parent, pcs)
      requires (slot + T().At(d, slot).size) * ENTRY_BYTES <= parent.length
      requires (slot + T().At(d, slot).size) * ENTRY_BYTES <= |pcs| * cb
      requires Storable(s) && ContentOk(count, cb, s)
      modifies `cursor, `data, `dirs
      ensures Base() && Core(extra, skip)
      ensures error == NoError && T() == old(T()).WithStream(d, slot, s)
      ensures SameOutside(old(data), data, lay.chain[lay.owner[d].id])
    {
      hide *;
      TreeParts();
      ghost var t := T();
      var bytes, ok := ReadSet(parent, slot, d, pcs, extra, skip);
      if !ok { return DeviceError; }
      SetReady(slot, d, pcs, extra, skip);
      ghost var content := Content(count, cb, data, lay.chain[lay.owner[d].id]);
      var patched := Summed(StreamFields(bytes, s));
      WithStreamIs(bytes, s);
      StoreKeeps(count, cb, up, content, dirs[d], slot, s);
      ShapeRestreamed(cb, up, t, extra, skip, d, slot, s);
      StoreTree(d, slot, s);
      Room(slot, dirs[d][slot].size);
      error := WriteSlots(parent, slot, patched, d, pcs,
                          dirs[d][slot := dirs[d][slot].(entry := dirs[d][slot].entry.(stream := s))],
                          {}, extra, skip, extra, skip);
      if error != NoError { return DeviceError; }
      TreeParts();
      StoreTreeAfter(t, d, slot, s);
    }

    /** A set in hand: where it is, and that it reads the same through `pcs`. */
    lemma SetReady(slot: nat, d: nat, pcs: seq<nat>, extra: set<Id>, skip: set<Id>)
      requires Base() && Core(extra, skip) && T().Has(d, slot) && d in lay.owner && lay.owner[d].id in lay.chain
      requires pcs <= lay.chain[lay.owner[d].id]
      requires (slot + T().At(d, slot).size) * ENTRY_BYTES <= |pcs| * cb
      ensures ENTRY_BYTES == 32 && MAX_SET == 19 && |fat| == count + 2 && cb > 0 && DataOk(count, cb, data)
      ensures d in dirs && slot in dirs[d] && T().At(d, slot) == dirs[d][slot] && T().dirs == dirs && T().lay == lay
      ensures Shape(cb, up, T(), extra, skip)
      ensures var cs, size := lay.chain[lay.owner[d].id], dirs[d][slot].size;
              && Clusters(count, cs) && Clusters(count, pcs)
              && DirOk(count, cb, up, Content(count, cb, data, cs), dirs[d])
              && 3 <= size <= 19 && slot + size <= Slots(Content(count, cb, data, cs))
              && (slot + size) * 32 <= |Content(count, cb, data, pcs)| && (slot + size) * 32 <= |cs| * cb
              && (slot + size) * 32 <= |Content(count, cb, data, cs)|
              && Content(count, cb, data, pcs)[slot * 32..(slot + size) * 32] == Content(count, cb, data,
                  cs)[slot * 32..(slot + size) * 32]
              && Content(count, cb, data, cs)[slot * 32] == 0x85
              && Content(count, cb, data, cs)[slot * 32 + 1] == size - 1
              && Content(count, cb, data, pcs)[slot * 32] == 0x85
              && Content(count, cb, data, pcs)[slot * 32 + 1] == size - 1
    {
      hide *;
      TreeParts();
      HasParts(T(), d, slot);
      CoreFacts(extra, skip);
      ghost var cs := lay.chain[lay.owner[d].id];
      DirChainIs(T(), d);
      HereOf(count, cb, up, data, T(), d);
      SetOf(count, cb, up, Content(count, cb, data, cs), dirs[d], slot);
      PrefixClusters(count, pcs, cs);
      ContentPrefix(count, cb, data, pcs, cs);
      Constants();
      SetBytesAre(Content(count, cb, data, cs), slot, dirs[d][slot].size);
      PrefixSlice(Content(count, cb, data, pcs), Content(count, cb, data, cs), slot, dirs[d][slot].size);
    }

    lemma StoreTree(d: nat, slot: nat, s: Stream)
      requires T().Has(d, slot) && d in dirs && slot in dirs[d]
      ensures T().WithStream(d, slot, s) == Redrawn(d,
                                                    dirs[d][slot :=
                                                            dirs[d][slot].(entry := dirs[d][slot].entry.(stream := s))],
                                                            {})
    {
      var ents' := dirs[d][slot := dirs[d][slot].(entry := dirs[d][slot].entry.(stream := s))];
      assert dirs[d := ents'] - {} == dirs[d := ents'];
    }

    lemma StoreTreeAfter(t: Tree, d: nat, slot: nat, s: Stream)
      requires t.Has(d, slot) && root == t.root && lay == t.lay && rank == t.rank
      requires dirs == t.dirs[d :=
                              t.dirs[d][slot := t.dirs[d][slot].(entry := t.dirs[d][slot].entry.(stream := s))]] - {}
      ensures T() == t.WithStream(d, slot, s)
    {
      var ents' := t.dirs[d][slot := t.dirs[d][slot].(entry := t.dirs[d][slot].entry.(stream := s))];
      assert t.dirs[d := ents'] - {} == t.dirs[d := ents'];
    }

    /** `erase`: one set's in-use bits cleared. */
    method Erase(parent: Stream, slot: nat, ghost d: nat, ghost pcs: seq<nat>, ghost gone: set<nat>,
                 ghost extra: set<Id>, ghost skip: set<Id>, ghost extra': set<Id>, ghost skip': set<Id>)
      returns (error: Error)
      requires Base() && Core(extra, skip) && T().Has(d, slot) && d in dirs && d in lay.owner
               && lay.owner[d].id in lay.chain
      requires pcs <= lay.chain[lay.owner[d].id] && Reaches(count, fat, parent, pcs)
      requires (slot + T().At(d, slot).size) * ENTRY_BYTES <= parent.length
      requires (slot + T().At(d, slot).size) * ENTRY_BYTES <= |pcs| * cb
      requires Shape(cb, up, Redrawn(d, dirs[d] - {slot}, gone), extra', skip')
      modifies `cursor, `data, `dirs
      ensures Base() && Core(extra', skip')
      ensures error == NoError && d in old(dirs) && dirs == old(dirs)[d := old(dirs)[d] - {slot}] - gone
      ensures SameOutside(old(data), data, lay.chain[lay.owner[d].id])
    {
      hide *;
      TreeParts();
      var bytes, ok := ReadSet(parent, slot, d, pcs, extra, skip);
      if !ok { return DeviceError; }
      SetReady(slot, d, pcs, extra, skip);
      ghost var content := Content(count, cb, data, lay.chain[lay.owner[d].id]);
      var cleared := ClearSet(bytes);
      EraseKeeps(count, cb, up, content, dirs[d], slot);
      Room(slot, dirs[d][slot].size);
      error := WriteSlots(parent, slot, cleared, d, pcs, dirs[d] - {slot}, gone, extra, skip, extra', skip');
      if error != NoError { return DeviceError; }
    }

    /** The loop of `erase`. */
    method ClearSet(bytes: seq<byte>) returns (cleared: seq<byte>)
      requires |bytes| % 32 == 0
      ensures cleared == Erased(bytes)
    {
      cleared := bytes;
      var i := 0;
      while i < |bytes|
        invariant 0 <= i <= |bytes| && i % 32 == 0 && |cleared| == |bytes|
        invariant forall j :: 0 <= j < |bytes| ==>
                    cleared[j] == if j % ENTRY_BYTES == 0 && j < i then bytes[j] % 128 else bytes[j]
      {
        cleared := cleared[i := cleared[i] % 128];
        i := i + 32;
      }
    }

    // ------------------------------------------- resizing within a whole volume

    /** How many clusters the bitmap leaves free. */
    ghost function Free(): nat
      reads `data, `lay
    {
      FreeIn(count, cb, bitmap.length, lay, data)
    }

    lemma FreeIs()
      requires Inv()
      ensures Free() == |FreeClusters(count, Bits(lay.chain[BitmapId]))|
    {
      hide LayoutOk, FreeClusters, Content;
    }

    /** `resize` of a stream that is not a directory's. */
    method ResizeFile(s: Stream, clusters: nat, ghost id: Id, ghost extra: set<Id>, ghost skip: set<Id>)
      returns (error: Error, s': Stream)
      requires id in lay.chain && id in lay.heads && id != BitmapId && id != RootId
      requires lay.heads[id] == Head(s.first, s.contiguous) && cb > 0 && |lay.chain[id]| == CurrentClusters(s, cb)
      requires forall d :: d in dirs && d in lay.owner ==> lay.owner[d].id != id
      requires Base() && Core(extra, skip)
      modifies `cursor, `fat, `data, `hint, `lay
      ensures Base() && error in {NoError, NoSpace} && id in old(lay).chain
      ensures error == NoError <==> clusters <= |old(lay).chain[id]| + old(Free())
      ensures error == NoError ==> Core(extra, skip + {id})
      ensures error == NoSpace ==> Core(extra, skip) && lay == old(lay)
      ensures s'.length == s.length && s'.valid == s.valid
      ensures error == NoError ==>
                && id in lay.chain && |lay.chain[id]| == clusters
                && id in lay.heads && lay.heads[id] == Head(s'.first, s'.contiguous)
                && (lay.chain[id] <= old(lay).chain[id] || old(lay).chain[id] <= lay.chain[id])
                && lay == Reshaped(old(lay), id, Head(s'.first, s'.contiguous), lay.chain[id])
      ensures BitmapId in old(lay).chain && SameOutside(old(data), data, old(lay).chain[BitmapId])
      ensures StreamsKept(old(lay), old(data), lay, data, if error == NoError then {id, BitmapId} else {BitmapId})
      ensures error == NoError ==> clusters + Free() == |old(lay).chain[id]| + old(Free())
    {
      hide *;
      CoreInv(extra, skip);
      CoreFacts(extra, skip);
      TreeParts();
      ghost var t, data0 := T(), data;
      FreeIs();
      InvParts();
      error, s' := Resize(s, clusters, id);
      InvParts();
      FreeIs();
      ghost var head, cs := Head(s'.first, s'.contiguous), lay.chain[id];
      LayoutHeads(count, fat, Bits(lay.chain[BitmapId]), lay);
      LayoutParts(count, fat, Bits(lay.chain[BitmapId]), lay);
      if error == NoError {
        ReshapedParts(t.lay, id, head, cs);
        FileRelisted(t, lay, id, head, cs);
        ShapeRelisted(cb, up, t, extra, skip, lay, id, head, cs);
        FileDisk(count, cb, up, data0, data, t, lay, extra, skip, id, cs);
        TreeIs(t, lay);
        ShapeOf(cb, up, T(), extra, skip + {id});
        MakeCore(extra, skip + {id});
        KeptResize(count, t.lay, data0, lay, data, id, head, cs);
      } else {
        FileDisk(count, cb, up, data0, data, t, lay, extra, skip, id, cs);
        TreeIs(t, lay);
        MakeCore(extra, skip);
        KeptWrite(count, lay, data0, data, BitmapId);
      }
    }

    lemma TreeIs(t: Tree, lay': Layout)
      requires t.root == root && t.dirs == dirs && t.rank == rank && lay' == lay
      ensures T() == t.(lay := lay')
    {
    }

    // -------------------------------------------------------------- file content

    /** The bytes the clusters of stream `id` hold. */
    ghost function Bytes(id: Id): seq<byte>
      reads `data, `lay
    {
      Held(count, cb, data, lay, id)
    }

    lemma BytesAre(id: Id)
      ensures Bytes(id) == Held(count, cb, data, lay, id)
    {
    }

    /** A write into the clusters of a stream that is not a directory's keeps the
        volume well formed. */
    lemma DataWritten(data0: seq<seq<byte>>, id: Id, extra: set<Id>, skip: set<Id>)
      requires Base() && DataOk(count, cb, data0) && id in lay.chain && id != BitmapId
      requires cb % ENTRY_BYTES == 0 && cb <= 0x200_0000
      requires BitmapId in lay.chain && BitmapId in lay.heads && lay.heads[BitmapId] == Head(bitmap.first, false)
               && !bitmap.contiguous
      requires Clusters(count, lay.chain[BitmapId]) && (count + 7) / 8 <= bitmap.length <= |lay.chain[BitmapId]| * cb
      requires LayoutOk(count, fat, Content(count, cb, data0, lay.chain[BitmapId])[..bitmap.length], lay)
      requires ChainsInHeap(count, lay) && OwnersOk(lay) && (forall d :: d in dirs ==> d in lay.owner)
      requires Shape(cb, up, T(), extra, skip) && OnDisk(count, cb, up, data0, T())
      requires forall d :: d in dirs && d in lay.owner ==> lay.owner[d].id != id
      requires SameOutside(data0, data, lay.chain[id])
      ensures Core(extra, skip)
    {
      hide *;
      TreeParts();
      BaseFacts();
      KeepBitmap(data0, id);
      forall d | d in dirs ensures SameClusters(T(), T(), data0, data, d) {
        ApartFromDir(count, data0, data, T(), id, d);
      }
      OnDiskKept(count, cb, up, data0, data, T(), T());
      MakeCore(extra, skip);
    }

    /** `write_stream` on a file's clusters. */
    method WriteData(s: Stream, offset: nat, bytes: seq<byte>, ghost id: Id, ghost extra: set<Id>, ghost skip: set<Id>)
      returns (error: Error)
      requires id in lay.chain && id in lay.heads && id != BitmapId
      requires lay.heads[id] == Head(s.first, s.contiguous)
      requires forall d :: d in dirs && d in lay.owner ==> lay.owner[d].id != id
      requires offset + |bytes| <= s.length && offset + |bytes| <= |Bytes(id)|
      requires Base() && Core(extra, skip)
      modifies `cursor, `data
      ensures Base() && Core(extra, skip) && error == NoError
      ensures Spliced(old(Bytes(id)), offset, bytes, Bytes(id))
      ensures SameOutside(old(data), data, lay.chain[id])
    {
      hide *;
      StreamReady(s, id, extra, skip);
      ghost var data0 := data;
      BitsAre(lay.chain[BitmapId]);
      BytesAre(id);
      HeldIs(count, cb, data, lay, id);
      error := WriteStream(s, offset, bytes, lay.chain[id]);
      DataWritten(data0, id, extra, skip);
      BytesAre(id);
      HeldIs(count, cb, data, lay, id);
      SplicedIs(Held(count, cb, data0, lay, id), offset, bytes);
    }

    /** `zero_stream` on a file's clusters. */
    method ZeroData(s: Stream, offset: nat, length: nat, ghost id: Id, ghost extra: set<Id>, ghost skip: set<Id>)
      returns (error: Error)
      requires id in lay.chain && id in lay.heads && id != BitmapId
      requires lay.heads[id] == Head(s.first, s.contiguous)
      requires forall d :: d in dirs && d in lay.owner ==> lay.owner[d].id != id
      requires offset + length <= s.length && offset + length <= |Bytes(id)|
      requires Base() && Core(extra, skip)
      modifies `cursor, `data
      ensures Base() && Core(extra, skip) && error == NoError
      ensures Spliced(old(Bytes(id)), offset, Zeros(length), Bytes(id))
      ensures SameOutside(old(data), data, lay.chain[id])
    {
      hide *;
      StreamReady(s, id, extra, skip);
      ghost var data0 := data;
      BitsAre(lay.chain[BitmapId]);
      BytesAre(id);
      HeldIs(count, cb, data, lay, id);
      error := ZeroStream(s, offset, length, lay.chain[id]);
      DataWritten(data0, id, extra, skip);
      BytesAre(id);
      HeldIs(count, cb, data, lay, id);
      SplicedIs(Held(count, cb, data0, lay, id), offset, Zeros(length));
    }

    /** Everything known of a live stream. */
    lemma StreamReady(s: Stream, id: Id, extra: set<Id>, skip: set<Id>)
      requires Base() && Core(extra, skip) && id in lay.chain && id in lay.heads
      requires lay.heads[id] == Head(s.first, s.contiguous)
      ensures |fat| == count + 2 && ChainOk(count, fat, s.first, s.contiguous, lay.chain[id])
      ensures Reaches(count, fat, s, lay.chain[id]) && Distinct(lay.chain[id]) && Clusters(count, lay.chain[id])
      ensures cb % ENTRY_BYTES == 0 && cb <= 0x200_0000 && DataOk(count, cb, data) && cb > 0
      ensures BitmapId in lay.chain && BitmapId in lay.heads && lay.heads[BitmapId] == Head(bitmap.first, false)
              && !bitmap.contiguous
      ensures Clusters(count, lay.chain[BitmapId]) && (count + 7) / 8 <= bitmap.length <= |lay.chain[BitmapId]| * cb
      ensures LayoutOk(count, fat, Bits(lay.chain[BitmapId]), lay)
      ensures ChainsInHeap(count, lay) && OwnersOk(lay) && (forall d :: d in dirs ==> d in lay.owner)
      ensures Shape(cb, up, T(), extra, skip) && OnDisk(count, cb, up, data, T())
    {
      hide *;
      CoreFacts(extra, skip);
      CoreInv(extra, skip);
      InvParts();
      ChainDistinct(lay, id);
      ChainFrom(count, fat, lay, id);
      ChainReaches(count, fat, s, lay.chain[id]);
    }

    lemma CoreSkip(extra: set<Id>, skip: set<Id>, more: set<Id>)
      requires Core(extra, skip)
      ensures Core(extra, skip + more)
    {
      ShapeSkip(cb, up, T(), extra, skip, more);
      hide Shape, OnDisk, LayoutOk, ChainsInHeap, HeadsOk;
    }

    /** A file's set whose stream agrees with the layout need no longer be skipped. */
    lemma CoreUnskip(extra: set<Id>, skip: set<Id>, d: nat, s: nat)
      requires T().Has(d, s) && cb > 0 && NodeOk(cb, T(), d, s) && Core(extra, skip + {NodeId(d, s)})
      ensures Core(extra, skip)
    {
      ShapeUnskip(cb, up, T(), extra, skip, d, s);
      hide Shape, OnDisk, LayoutOk, ChainsInHeap, HeadsOk, NodeOk;
    }

    /** What is known of a file in hand. */
    lemma FileReady(d: nat, s: nat, extra: set<Id>, skip: set<Id>)
      requires T().Has(d, s) && !T().At(d, s).entry.IsDirectory() && NodeId(d, s) !in skip && Core(extra, skip)
      ensures var id, e := NodeId(d, s), T().At(d, s).entry.stream;
              && id in lay.chain && id in lay.heads && lay.heads[id] == Head(e.first, e.contiguous)
              && |lay.chain[id]| == CeilDiv(e.length, cb) == CurrentClusters(e, cb)
              && e.valid <= e.length <= |Bytes(id)| && |Bytes(id)| == |lay.chain[id]| * cb
              && Bytes(id) == Held(count, cb, data, lay, id)
      ensures forall e :: e in dirs && e in lay.owner ==> lay.owner[e].id != NodeId(d, s)
      ensures cb > 0 && d in dirs && d in lay.owner && lay.owner[d].id in lay.chain
    {
      hide *;
      CoreFacts(extra, skip);
      TreeParts();
      HasParts(T(), d, s);
      ghost var id, e := NodeId(d, s), T().At(d, s).entry.stream;
      ShapeNode(cb, up, T(), extra, skip, d, s);
      NodeParts(cb, T(), d, s);
      FileApart(cb, up, T(), extra, skip, d, s);
      DirChainIs(T(), d);
      HereOf(count, cb, up, data, T(), d);
      SetStream(count, cb, up, Content(count, cb, data, DirChain(T(), d)), dirs[d], s);
      ContentParts(count, cb, e);
      CeilCovers(e.length, cb);
      ChainFrom(count, fat, lay, id);
      EmptyStream(count, cb, fat, e, lay.chain[id]);
      ChainClusters(count, lay, id);
      HeldIs(count, cb, data, lay, id);
      BytesAre(id);
    }

    /** The parent a node identifier remembers still reaches the set. */
    lemma StoreReady(h: nat, extra: set<Id>, skip: set<Id>)
      requires cb > 0 && Handle(cb, T(), h) && Base() && Core(extra, skip)
      ensures T().Has(IdFirst(h), IdSlot(h)) && |fat| == count + 2
      ensures var d, s, pcs := IdFirst(h), IdSlot(h), ParentChain(cb, T(), h);
              && d in dirs && d in lay.owner && lay.owner[d].id in lay.chain && pcs <= lay.chain[lay.owner[d].id]
              && Reaches(count, fat, ParentStream(h), pcs)
              && (s + T().At(d, s).size) * ENTRY_BYTES <= ParentStream(h).length
              && (s + T().At(d, s).size) * ENTRY_BYTES <= |pcs| * cb
    {
      hide *;
      HandleHas(cb, T(), h);
      CoreFacts(extra, skip);
      TreeParts();
      HandleParts(cb, T(), h);
      LocateReady(h, extra, skip);
      HasParts(T(), IdFirst(h), IdSlot(h));
      ParentPart(cb, T(), h);
      DirChainIs(T(), IdFirst(h));
      HereOf(count, cb, up, data, T(), IdFirst(h));
      SetOf(count, cb, up, Content(count, cb, data, DirChain(T(), IdFirst(h))), dirs[IdFirst(h)], IdSlot(h));
      ParentLength(h, T().At(IdFirst(h), IdSlot(h)).size);
      SpanCovers(cb, IdSlot(h), T().At(IdFirst(h), IdSlot(h)).size);
    }

    // ---------------------------------------------------------- reading, writing

    /** The content of the file a node identifier names. */
    ghost function FileAt(h: nat): seq<byte>
      reads `data, `root, `lay, `dirs, `rank
    {
      FileIn(count, cb, data, T(), IdFirst(h), IdSlot(h))
    }

    ghost predicate IsFile(h: nat)
      reads `root, `lay, `dirs, `rank
    {
      h != ROOT_ID && T().Has(IdFirst(h), IdSlot(h)) && !T().At(IdFirst(h), IdSlot(h)).entry.IsDirectory()
    }

    lemma FileParts(h: nat)
      ensures IsFile(h) <==>
              h != ROOT_ID && T().Has(IdFirst(h), IdSlot(h)) && !T().At(IdFirst(h), IdSlot(h)).entry.IsDirectory()
      ensures IsFile(h) ==>
              FileAt(h) == FileOf(Held(count, cb, data, lay, NodeId(IdFirst(h), IdSlot(h))),
                                  T().At(IdFirst(h), IdSlot(h)).entry.stream)
    {
    }

    /** `read`: stored bytes up to ValidDataLength, zeros up to DataLength. */
    method Read(h: nat, offset: nat, length: nat) returns (out: seq<byte>, error: Error)
      requires cb > 0 && Node(h) && Valid()
      modifies `cursor
      ensures Valid()
      ensures error == if IsFile(h) then NoError else InvalidArgument
      ensures out == if IsFile(h) then Window(FileAt(h), offset, length) else []
    {
      hide *;
      ValidParts();
      FileParts(h);
      if h != ROOT_ID { NodeHandle(h); }
      out := [];
      var where := Locate(h, {}, {});
      MakeValid();
      RootIsDirectory(root);
      if where.None? || where.value.entry.IsDirectory() { return out, InvalidArgument; }
      var s := where.value.entry.stream;
      ghost var id := NodeId(IdFirst(h), IdSlot(h));
      FileReady(IdFirst(h), IdSlot(h), {}, {});
      StreamReady(s, id, {}, {});
      HeldIs(count, cb, data, lay, id);
      ReadWindow(Bytes(id), s, offset, length);
      if offset >= s.length { return out, NoError; }
      var wanted := if length > s.length - offset then s.length - offset else length;
      if offset < s.valid {
        var stored := if s.valid - offset < wanted then s.valid - offset else wanted;
        AvailableIs(s, offset, stored);
        var result;
        out, result := ReadStream(s, offset, stored, lay.chain[id]);
        MakeValid();
        if result != NoError { return out, result; }
      }
      return out + Zeros(wanted - |out|), NoError;
    }

    lemma ValidParts()
      requires Valid()
      ensures Base() && Core({}, {})
    {
      hide Base, Core;
    }

    lemma MakeValid()
      requires Base() && Core({}, {})
      ensures Valid()
    {
      hide Base, Core;
    }

    /** `resize` of a file, seen from its node identifier. */
    method ResizeNode(s: Stream, clusters: nat, ghost h: nat) returns (error: Error, s': Stream)
      requires cb > 0 && Handle(cb, T(), h) && IsFile(h) && T().Has(IdFirst(h), IdSlot(h))
               && T().At(IdFirst(h), IdSlot(h)).entry.stream == s
      requires Base() && Core({}, {})
      modifies `cursor, `fat, `data, `hint, `lay
      ensures Base() && error in {NoError, NoSpace} && s'.length == s.length && s'.valid == s.valid
      ensures error == NoError <==> clusters <= CeilDiv(s.length, cb) + old(Free())
      ensures error == NoSpace ==>
              Core({}, {}) && lay == old(lay) && StreamsKept(old(lay), old(data), lay, data, {BitmapId})
      ensures error == NoError ==> Core({}, {NodeOf(h)}) && Allotted(h, s', clusters, old(lay)) && Handle(cb, T(), h)
      ensures error == NoError ==> StreamsKept(old(lay), old(data), lay, data, {NodeOf(h), BitmapId})
      ensures error == NoError ==>
              old(Bytes(NodeOf(h))) <= Bytes(NodeOf(h)) || Bytes(NodeOf(h)) <= old(Bytes(NodeOf(h)))
      ensures error == NoError && CeilDiv(s.length, cb) <= clusters ==> old(Bytes(NodeOf(h))) <= Bytes(NodeOf(h))
    {
      hide *;
      FileParts(h);
      TreeParts();
      NodeOfIs(h);
      ghost var id := NodeOf(h);
      FileReady(IdFirst(h), IdSlot(h), {}, {});
      CoreFacts({}, {});
      HandleParts(cb, T(), h);
      BytesAre(id);
      ghost var t0, lay0, data0 := T(), lay, data;
      error, s' := ResizeFile(s, clusters, id, {}, {});
      if error == NoError {
        ghost var head := Head(s'.first, s'.contiguous);
        ReshapedParts(lay0, id, head, lay.chain[id]);
        CoreFacts({}, {} + {id});
        HandleAside(cb, t0, lay, id, head, lay.chain[id], h);
        TreeIs(t0, lay);
        ResizedHeld(count, cb, lay0, data0, lay, data, id);
        BytesAre(id);
        assert {} + {id} == {id};
        LayAside(t0, lay, IdFirst(h), IdSlot(h));
        FileApart(cb, up, T(), {}, {id}, IdFirst(h), IdSlot(h));
        AllottedIs(h, s', clusters, lay0);
        LongerChain(lay0.chain[id], lay.chain[id]);
        LongerChain(Held(count, cb, data0, lay0, id), Bytes(id));
      }
    }

    /** The file's clusters, as `s` describes them, number `n`; no other stream's list
        differs from `lay0`. */
    ghost predicate Allotted(h: nat, s: Stream, n: nat, lay0: Layout)
      reads `lay, `dirs
    {
      var id := NodeOf(h);
      && id in lay0.chain && id in lay0.heads && id in lay.chain && id in lay.heads
      && lay.heads[id] == Head(s.first, s.contiguous) && |lay.chain[id]| == n
      && lay.chain == lay0.chain[id := lay.chain[id]] && lay.heads == lay0.heads[id := lay.heads[id]]
      && (forall e :: e in dirs && e in lay.owner ==> lay.owner[e].id != id)
    }

    lemma AllottedIs(h: nat, s: Stream, n: nat, lay0: Layout)
      ensures var id := NodeOf(h);
              Allotted(h, s, n, lay0) <==>
              && id in lay0.chain && id in lay0.heads && id in lay.chain && id in lay.heads
              && lay.heads[id] == Head(s.first, s.contiguous) && |lay.chain[id]| == n
              && lay.chain == lay0.chain[id := lay.chain[id]] && lay.heads == lay0.heads[id := lay.heads[id]]
              && (forall e :: e in dirs && e in lay.owner ==> lay.owner[e].id != id)
    {
    }

    /** The last step of `write` and `truncate`: the set is rewritten and the volume is
        whole again. */
    method Settle(parent: Stream, slot: nat, s: Stream, ghost h: nat, ghost t0: Tree, ghost data0: seq<seq<byte>>)
      returns (error: Error)
      requires parent == ParentStream(h) && slot == IdSlot(h) && s.valid <= s.length
      requires cb > 0 && Shape(cb, up, t0, {}, {}) && DataOk(count, cb, data0) && ChainsInHeap(count, t0.lay)
      requires t0.root == root && t0.dirs == dirs && t0.rank == rank && IdFirst(h) in t0.lay.owner
      requires StreamsKept(t0.lay, data0, lay, data, {NodeOf(h), BitmapId})
      requires Handle(cb, T(), h) && IsFile(h) && Allotted(h, s, CeilDiv(s.length, cb), t0.lay)
      requires Base() && Core({}, {NodeOf(h)})
      modifies `cursor, `data, `dirs
      ensures Valid() && error == NoError && old(T()).Has(IdFirst(h), IdSlot(h)) && IsFile(h)
      ensures T() == old(T()).WithStream(IdFirst(h), IdSlot(h), s)
      ensures FileAt(h) == FileOf(old(Bytes(NodeOf(h))), s)
      ensures FilesKept(count, cb, t0, data0, T(), data, {NodeOf(h)}) && Evolves(t0, T())
    {
      hide *;
      ghost var d, q, id, t, data1 := IdFirst(h), IdSlot(h), NodeOf(h), T(), data;
      NodeOfIs(h);
      FileParts(h);
      AllottedIs(h, s, CeilDiv(s.length, cb), t0.lay);
      TreeParts();
      StoreReady(h, {}, {id});
      StreamReady(s, id, {}, {id});
      BaseFacts();
      StreamFits(count, cb, fat, s, lay.chain[id]);
      CoreFacts({}, {id});
      BytesAre(id);
      error := Store(parent, slot, s, d, ParentChain(cb, t, h), {}, {id});
      if error != NoError { return; }
      WithStreamFacts(t, d, q, s);
      TreeParts();
      StoredFile(cb, t, d, q, s);
      assert {} + {id} == {id};
      CoreUnskip({}, {}, d, q);
      MakeValid();
      FileParts(h);
      SettleKept(t0, data0, t, data1, h, s);
    }

    /** What `Settle` leaves alone. */
    lemma SettleKept(t0: Tree, data0: seq<seq<byte>>, t: Tree, data1: seq<seq<byte>>, h: nat, s: Stream)
      requires cb > 0 && Shape(cb, up, t0, {}, {}) && DataOk(count, cb, data0) && DataOk(count, cb, data1)
               && DataOk(count, cb, data)
      requires ChainsInHeap(count, t0.lay) && IdFirst(h) in t0.lay.owner && OwnersOk(t.lay)
               && ChainsInHeap(count, t.lay)
      requires t.root == t0.root && t.dirs == t0.dirs && t.rank == t0.rank && t.lay == lay
      requires StreamsKept(t0.lay, data0, lay, data1, {NodeOf(h), BitmapId}) && t.Has(IdFirst(h), IdSlot(h))
      requires T() == t.WithStream(IdFirst(h), IdSlot(h), s)
      requires var id := NodeOf(h);
               && id in t0.lay.chain && id in t0.lay.heads && id in lay.chain && id in lay.heads
               && lay.chain == t0.lay.chain[id := lay.chain[id]] && lay.heads == t0.lay.heads[id := lay.heads[id]]
               && (forall e :: e in t0.dirs && e in lay.owner ==> lay.owner[e].id != id)
      requires !t.At(IdFirst(h), IdSlot(h)).entry.IsDirectory()
      requires IdFirst(h) in lay.owner && lay.owner[IdFirst(h)].id in lay.chain
      requires SameOutside(data1, data, lay.chain[lay.owner[IdFirst(h)].id])
      ensures Held(count, cb, data, lay, NodeOf(h)) == Held(count, cb, data1, lay, NodeOf(h))
      ensures FilesKept(count, cb, t0, data0, T(), data, {NodeOf(h)}) && Evolves(t0, T())
    {
      hide *;
      NodeOfIs(h);
      ghost var d, q, id, p := IdFirst(h), IdSlot(h), NodeOf(h), lay.owner[IdFirst(h)].id;
      HasParts(t, d, q);
      SameTree(t, t0.(lay := lay));
      LayAside(t, t0.lay, d, q);
      SameTree(t0, t.(lay := t0.lay));
      ShapeOf(cb, up, t0, {}, {});
      FileApart(cb, up, t0, {}, {}, d, q);
      HomesKept(t0, lay, id, lay.chain[id], d);
      KeptWrite(count, lay, data1, data, p);
      KeptTwice(t0.lay, data0, lay, data1, lay, data, {id, BitmapId}, {p});
      assert {id, BitmapId} + {p} == {id, BitmapId, p};
      FilesStored(count, cb, up, t0, data0, lay, data, {id, BitmapId, p}, d, q, s);
      EvolvesFile(t0, lay, id, lay.heads[id], lay.chain[id], d, q, s);
      KeptOne(lay, data1, lay, data, {p}, id);
      ChainClusters(count, lay, id);
      KeptHeld(count, cb, lay, data1, lay, data, id);
    }

    /** The clusters a write needs, allocated before anything is written. */
    method Reserve(s: Stream, needed: nat, ghost h: nat) returns (error: Error, s': Stream)
      requires cb > 0 && Handle(cb, T(), h) && IsFile(h) && T().Has(IdFirst(h), IdSlot(h))
               && T().At(IdFirst(h), IdSlot(h)).entry.stream == s
      requires Base() && Core({}, {})
      modifies `cursor, `fat, `data, `hint, `lay
      ensures Base() && error in {NoError, NoSpace} && s'.length == s.length && s'.valid == s.valid
      ensures error == NoError <==> needed <= CeilDiv(s.length, cb) + old(Free())
      ensures error == NoSpace ==>
              Core({}, {}) && lay == old(lay) && StreamsKept(old(lay), old(data), lay, data, {BitmapId})
      ensures error == NoError ==>
                && Core({}, {NodeOf(h)}) && Handle(cb, T(), h)
                && Allotted(h, s', if needed > CeilDiv(s.length, cb) then needed else CeilDiv(s.length, cb), old(lay))
      ensures error == NoError ==> StreamsKept(old(lay), old(data), lay, data, {NodeOf(h), BitmapId})
      ensures error == NoError ==> old(Bytes(NodeOf(h))) <= Bytes(NodeOf(h))
    {
      hide *;
      NodeOfIs(h);
      FileParts(h);
      FileReady(IdFirst(h), IdSlot(h), {}, {});
      var owned := CurrentClusters(s, cb);
      if needed > owned {
        error, s' := ResizeNode(s, needed, h);
      } else {
        error, s' := NoError, s;
        CoreFacts({}, {});
        KeptSame(count, lay, data);
        KeptMore(lay, data, lay, data, {}, {NodeOf(h), BitmapId});
        CoreSkip({}, {}, {NodeOf(h)});
        assert {} + {NodeOf(h)} == {NodeOf(h)};
        AllottedIs(h, s, owned, lay);
      }
    }

    /** The gap zeroed and the data written, into clusters already there. */
    method Fill(s: Stream, offset: nat, bytes: seq<byte>, ghost h: nat, ghost lay0: Layout) returns (error: Error)
      requires 0 < |bytes| && offset + |bytes| <= s.length && offset + |bytes| <= |Bytes(NodeOf(h))|
      requires Allotted(h, s, CeilDiv(s.length, cb), lay0)
      requires Base() && Core({}, {NodeOf(h)})
      modifies `cursor, `data
      ensures Base() && Core({}, {NodeOf(h)}) && error == NoError
      ensures Filled(old(Bytes(NodeOf(h))), s.valid, offset, bytes, Bytes(NodeOf(h)))
      ensures StreamsKept(lay, old(data), lay, data, {NodeOf(h)})
    {
      hide *;
      ghost var id := NodeOf(h);
      NodeOfIs(h);
      AllottedIs(h, s, CeilDiv(s.length, cb), lay0);
      CoreFacts({}, {id});
      ghost var before, data0 := Bytes(id), data;
      KeptSame(count, lay, data);
      KeptMore(lay, data, lay, data, {}, {id});
      if offset > s.valid {
        error := ZeroData(s, s.valid, offset - s.valid, id, {}, {id});
        if error != NoError { return; }
        SplicedParts(before, s.valid, Zeros(offset - s.valid), Bytes(id));
        CoreFacts({}, {id});
        KeptWrite(count, lay, data0, data, id);
      }
      ghost var middle, data1 := Bytes(id), data;
      error := WriteData(s, offset, bytes, id, {}, {id});
      CoreFacts({}, {id});
      KeptWrite(count, lay, data1, data, id);
      KeptTwice(lay, data0, lay, data1, lay, data, {id}, {id});
      assert {id} + {id} == {id};
      FilledIs(before, s.valid, offset, bytes, middle, Bytes(id));
    }

    /** How `write` ends. */
    ghost function WriteResult(h: nat, offset: nat, bytes: seq<byte>): Error
      reads `data, `root, `lay, `dirs, `rank
    {
      if !writable then ReadOnly
      else if !IsFile(h) then InvalidArgument
      else if bytes == [] then NoError
      else if cb == 0 || offset + |bytes| > count * cb
              || CeilDiv(offset + |bytes|, cb) > CeilDiv(|FileAt(h)|, cb) + Free() then NoSpace
      else NoError
    }

    lemma WriteResultIs(h: nat, offset: nat, bytes: seq<byte>)
      requires cb > 0
      ensures WriteResult(h, offset, bytes) ==
              if !writable then ReadOnly
              else if !IsFile(h) then InvalidArgument
              else if bytes == [] then NoError
              else if offset + |bytes| > count * cb || CeilDiv(offset + |bytes|, cb) > CeilDiv(|FileAt(h)|, cb) + Free()
                      then NoSpace
              else NoError
    {
    }

    /** `write` to a file at least one byte of which is to change. */
    method WriteFile(parent: Stream, slot: nat, s0: Stream, offset: nat, bytes: seq<byte>, ghost h: nat)
      returns (error: Error)
      requires parent == ParentStream(h) && slot == IdSlot(h) && 0 < |bytes|
      requires cb > 0 && Handle(cb, T(), h) && IsFile(h) && T().Has(IdFirst(h), IdSlot(h))
               && T().At(IdFirst(h), IdSlot(h)).entry.stream == s0
      requires Base() && Core({}, {})
      modifies `cursor, `fat, `data, `hint, `lay, `dirs
      ensures Valid() && Evolves(old(T()), T()) && error in {NoError, NoSpace}
      ensures error == NoError <==> CeilDiv(offset + |bytes|, cb) <= CeilDiv(s0.length, cb) + old(Free())
      ensures error == NoError ==> IsFile(h) && FileAt(h) == Patched(old(FileAt(h)), offset, bytes)
      ensures error == NoError ==> OnlyStream(old(T()), T(), IdFirst(h), IdSlot(h))
      ensures error == NoSpace ==> T() == old(T())
      ensures FilesKept(count, cb, old(T()), old(data), T(), data, if error == NoError then {NodeOf(h)} else {})
    {
      hide *;
      ghost var t0, data0, id := T(), data, NodeOf(h);
      NodeOfIs(h);
      FileParts(h);
      TreeParts();
      CoreFacts({}, {});
      HandleParts(cb, t0, h);
      FileReady(IdFirst(h), IdSlot(h), {}, {});
      var end := offset + |bytes|;
      var s;
      error, s := Reserve(s0, CeilDiv(end, cb), h);
      if error != NoError {
        TreeIs(t0, lay);
        MakeValid();
        EvolvesSame(t0);
        FilesAside(count, cb, up, t0, data0, data);
        return;
      }
      ghost var data1, grown := data, Bytes(id);
      WriteLength(cb, s.length, end, if CeilDiv(end, cb) > CeilDiv(s.length, cb) then CeilDiv(end, cb)
                  else CeilDiv(s.length, cb));
      if end > s.length { s := s.(length := end); }
      AllottedRoom(h, s, t0.lay);
      error := Fill(s, offset, bytes, h, t0.lay);
      if error != NoError { return; }
      KeptTwice(t0.lay, data0, lay, data1, lay, data, {id, BitmapId}, {id});
      assert {id, BitmapId} + {id} == {id, BitmapId};
      if end > s.valid { s := s.(valid := end); }
      TreeIs(t0, lay);
      FileAside(t0, h);
      AllottedRoom(h, s, t0.lay);
      WriteModel(Held(count, cb, data0, t0.lay, id), grown, Bytes(id), s0, offset, bytes, s);
      OneStream(t0, lay, IdFirst(h), IdSlot(h), s);
      error := Settle(parent, slot, s, h, t0, data0);
    }

    /** The lengths in a stream do not matter to `Allotted`. */
    lemma AllottedRoom(h: nat, s: Stream, lay0: Layout)
      requires cb > 0 && DataOk(count, cb, data) && ChainsInHeap(count, lay)
      requires exists s1: Stream ::
                 s1.first == s.first && s1.contiguous == s.contiguous && Allotted(h, s1, CeilDiv(s.length, cb), lay0)
      ensures Allotted(h, s, CeilDiv(s.length, cb), lay0) && s.length <= |Bytes(NodeOf(h))|
    {
      CeilCovers(s.length, cb);
    }

    lemma FileAside(t: Tree, h: nat)
      requires T() == t.(lay := lay)
      requires h != ROOT_ID && t.Has(IdFirst(h), IdSlot(h)) && !t.At(IdFirst(h), IdSlot(h)).entry.IsDirectory()
      ensures IsFile(h)
    {
    }

    /** `write`: the data is spliced into the zero-padded old content; it fails for
        want of space exactly when too few clusters are free, and then nothing has
        changed. */
    method Write(h: nat, offset: nat, bytes: seq<byte>) returns (n: nat, error: Error)
      requires cb > 0 && Node(h) && Valid()
      modifies `cursor, `fat, `data, `hint, `lay, `dirs
      ensures Valid() && Evolves(old(T()), T())
      ensures error == old(WriteResult(h, offset, bytes))
      ensures n == if error == NoError then |bytes| else 0
      ensures error == NoError && bytes != [] ==> IsFile(h) && FileAt(h) == Patched(old(FileAt(h)), offset, bytes)
      ensures error == NoError && bytes != [] ==> OnlyStream(old(T()), T(), IdFirst(h), IdSlot(h))
      ensures error != NoError || bytes == [] ==>
              T() == old(T()) && FilesKept(count, cb, old(T()), old(data), T(), data, {})
      ensures FilesKept(count, cb, old(T()), old(data), T(), data, {NodeOf(h)})
    {
      hide *;
      n := 0;
      ghost var t0, data0 := T(), data;
      ValidParts();
      WriteResultIs(h, offset, bytes);
      FilesSame(count, cb, t0, data0, {});
      FilesMore(count, cb, t0, data0, t0, data0, {}, {NodeOf(h)});
      EvolvesSame(t0);
      FileParts(h);
      if !writable { return n, ReadOnly; }
      if h != ROOT_ID { NodeHandle(h); }
      var where := Locate(h, {}, {});
      RootIsDirectory(root);
      MakeValid();
      if where.None? || where.value.entry.IsDirectory() { return n, InvalidArgument; }
      if bytes == [] { return n, NoError; }
      FileReady(IdFirst(h), IdSlot(h), {}, {});
      if offset > count * cb || |bytes| > count * cb - offset { return n, NoSpace; }
      error := WriteFile(where.value.parent, where.value.slot, where.value.entry.stream, offset, bytes, h);
      if error != NoError {
        FilesMore(count, cb, t0, data0, T(), data, {}, {NodeOf(h)});
        return;
      }
      n := |bytes|;
    }

    /** How `truncate` ends. */
    ghost function TruncateResult(h: nat, size: nat): Error
      reads `data, `root, `lay, `dirs, `rank
    {
      if !writable then ReadOnly
      else if !IsFile(h) then InvalidArgument
      else if cb == 0 || size > count * cb || CeilDiv(size, cb) > CeilDiv(|FileAt(h)|, cb) + Free() then NoSpace
      else NoError
    }

    lemma TruncateResultIs(h: nat, size: nat)
      requires cb > 0
      ensures TruncateResult(h, size) ==
              if !writable then ReadOnly
              else if !IsFile(h) then InvalidArgument
              else if size > count * cb || CeilDiv(size, cb) > CeilDiv(|FileAt(h)|, cb) + Free() then NoSpace
              else NoError
    {
    }

    /** `truncate`: the content is cut or extended with zeros; bytes cut off do not come
        back. */
    method Truncate(h: nat, size: nat) returns (error: Error)
      requires cb > 0 && Node(h) && Valid()
      modifies `cursor, `fat, `data, `hint, `lay, `dirs
      ensures Valid() && Evolves(old(T()), T())
      ensures error == old(TruncateResult(h, size))
      ensures error == NoError ==> IsFile(h) && FileAt(h) == CutTo(old(FileAt(h)), size)
      ensures error == NoError ==> OnlyStream(old(T()), T(), IdFirst(h), IdSlot(h))
      ensures error != NoError ==> T() == old(T()) && FilesKept(count, cb, old(T()), old(data), T(), data, {})
      ensures FilesKept(count, cb, old(T()), old(data), T(), data, {NodeOf(h)})
    {
      hide *;
      ghost var t0, data0, id := T(), data, NodeOf(h);
      ValidParts();
      TruncateResultIs(h, size);
      FilesSame(count, cb, t0, data0, {});
      FilesMore(count, cb, t0, data0, t0, data0, {}, {id});
      EvolvesSame(t0);
      FileParts(h);
      if !writable { return ReadOnly; }
      if h != ROOT_ID { NodeHandle(h); }
      var where := Locate(h, {}, {});
      RootIsDirectory(root);
      MakeValid();
      if where.None? || where.value.entry.IsDirectory() { return InvalidArgument; }
      if size > count * cb { return NoSpace; }
      error := TruncateFile(where.value.parent, where.value.slot, where.value.entry.stream, size, h);
      FilesMore(count, cb, t0, data0, T(), data, if error == NoError then {id} else {}, {id});
    }

    method TruncateFile(parent: Stream, slot: nat, s0: Stream, size: nat, ghost h: nat) returns (error: Error)
      requires parent == ParentStream(h) && slot == IdSlot(h)
      requires cb > 0 && Handle(cb, T(), h) && IsFile(h) && T().Has(IdFirst(h), IdSlot(h))
               && T().At(IdFirst(h), IdSlot(h)).entry.stream == s0
      requires Base() && Core({}, {})
      modifies `cursor, `fat, `data, `hint, `lay, `dirs
      ensures Valid() && Evolves(old(T()), T()) && error in {NoError, NoSpace}
      ensures |old(FileAt(h))| == s0.length
              && (error == NoError <==> CeilDiv(size, cb) <= CeilDiv(s0.length, cb) + old(Free()))
      ensures error == NoError ==> IsFile(h) && FileAt(h) == CutTo(old(FileAt(h)), size)
      ensures error == NoError ==> OnlyStream(old(T()), T(), IdFirst(h), IdSlot(h))
      ensures error == NoSpace ==> T() == old(T())
      ensures FilesKept(count, cb, old(T()), old(data), T(), data, if error == NoError then {NodeOf(h)} else {})
    {
      hide *;
      ghost var t0, data0, id := T(), data, NodeOf(h);
      NodeOfIs(h);
      FileParts(h);
      TreeParts();
      CoreFacts({}, {});
      HandleParts(cb, t0, h);
      FileReady(IdFirst(h), IdSlot(h), {}, {});
      var s;
      error, s := ResizeNode(s0, CeilDiv(size, cb), h);
      if error != NoError {
        TreeIs(t0, lay);
        MakeValid();
        EvolvesSame(t0);
        FilesAside(count, cb, up, t0, data0, data);
        return;
      }
      s := s.(length := size);
      if s.valid > size { s := s.(valid := size); }
      TreeIs(t0, lay);
      FileAside(t0, h);
      AllottedRoom(h, s, t0.lay);
      TruncateModel(Held(count, cb, data0, t0.lay, id), Bytes(id), s0, size, s);
      OneStream(t0, lay, IdFirst(h), IdSlot(h), s);
      error := Settle(parent, slot, s, h, t0, data0);
    }

    // --------------------------------------------------------------- directories

    ghost predicate IsDir(h: nat)
      reads `root, `lay, `dirs, `rank
    {
      h == ROOT_ID || (T().Has(IdFirst(h), IdSlot(h)) && T().At(IdFirst(h), IdSlot(h)).entry.IsDirectory())
    }

    /** The stream of the directory a node identifier names. */
    ghost function DirAt(h: nat): Stream
      reads `root, `lay, `dirs, `rank
    {
      if h == ROOT_ID then root
      else if T().Has(IdFirst(h), IdSlot(h)) then T().At(IdFirst(h), IdSlot(h)).entry.stream
      else Stream(0, 0, 0, false)
    }

    lemma DirParts(h: nat)
      ensures IsDir(h) <==>
              h == ROOT_ID || (T().Has(IdFirst(h), IdSlot(h)) && T().At(IdFirst(h), IdSlot(h)).entry.IsDirectory())
      ensures h == ROOT_ID ==> DirAt(h) == root
      ensures h != ROOT_ID && T().Has(IdFirst(h), IdSlot(h)) ==> DirAt(h) == T().At(IdFirst(h), IdSlot(h)).entry.stream
    {
    }

    /** `s` is the stream of a directory, with cluster list `p`. */
    ghost predicate Opened(s: Stream, p: Id)
      reads `lay, `dirs
    {
      && s.first in dirs && s.first in lay.owner && lay.owner[s.first] == Place(p, 0)
      && p in lay.chain && p in lay.heads && lay.heads[p] == Head(s.first, s.contiguous) && lay.chain[p] != []
      && p != BitmapId && p != PendingId && p != UpcaseId
      && cb > 0 && s.length == |lay.chain[p]| * cb && DirectoryStream(cb, s) && s.length % 32 == 0
    }

    lemma OpenedParts(s: Stream, p: Id)
      requires Opened(s, p)
      ensures s.first in dirs && s.first in lay.owner && lay.owner[s.first] == Place(p, 0)
      ensures p in lay.chain && p in lay.heads && lay.heads[p] == Head(s.first, s.contiguous) && lay.chain[p] != []
      ensures p != BitmapId && p != PendingId && p != UpcaseId
      ensures cb > 0 && s.length == |lay.chain[p]| * cb && DirectoryStream(cb, s)
      ensures 0 < s.length <= MAX_DIRECTORY_BYTES && s.length % cb == 0 && s.length % 32 == 0 && s.valid == s.length
      ensures s.length / cb == |lay.chain[p]|
    {
      DivModUnique(s.length, cb, |lay.chain[p]|, 0);
    }

    /** A located directory is one of the tree's. */
    lemma DirReady(h: nat, extra: set<Id>, skip: set<Id>)
      requires cb > 0 && Node(h) && IsDir(h) && DirId(h) !in skip && Core(extra, skip)
      ensures Opened(DirAt(h), DirId(h))
    {
      hide *;
      DirParts(h);
      DirIdIs(h);
      NodeOfIs(h);
      CoreFacts(extra, skip);
      TreeParts();
      var s, p, t := DirAt(h), DirId(h), T();
      ShapeOf(cb, up, t, extra, skip);
      if h == ROOT_ID {
        RootParts(cb, t);
      } else {
        NodeHandle(h);
        ShapeNode(cb, up, t, extra, skip, IdFirst(h), IdSlot(h));
        NodeParts(cb, t, IdFirst(h), IdSlot(h));
      }
      OpenedDir(cb, t, s, p);
      OpenedAgain(s, p);
    }

    /** A directory in hand can be scanned. */
    lemma DirScan(s: Stream, p: Id, extra: set<Id>, skip: set<Id>)
      requires Opened(s, p) && Base() && Core(extra, skip)
      ensures s.first in dirs && p in lay.chain && |fat| == count + 2 && Reaches(count, fat, s, lay.chain[p])
      ensures Distinct(lay.chain[p]) && Clusters(count, lay.chain[p]) && DataOk(count, cb, data)
      ensures DirOk(count, cb, up, Content(count, cb, data, lay.chain[p]), dirs[s.first])
      ensures Bytes(p) == Content(count, cb, data, lay.chain[p])
    {
      hide *;
      OpenedParts(s, p);
      StreamReady(s, p, extra, skip);
      TreeParts();
      DirChainIs(T(), s.first);
      HereOf(count, cb, up, data, T(), s.first);
      HeldIs(count, cb, data, lay, p);
      BytesAre(p);
    }

    /** The search of `insert`: the first run of `n` free slots. */
    method FindRun(s: Stream, n: nat, ghost cs: seq<nat>) returns (slot: Option<nat>)
      requires Base() && Reaches(count, fat, s, cs) && s.length == |cs| * cb && s.length % 32 == 0 && n > 0
      modifies `cursor
      ensures Base() && (cursor == old(cursor) || cursor.first == s.first)
      ensures slot.Some? ==> RunUpTo(Content(count, cb, data, cs), slot.value + n, n)
      ensures slot.Some? ==> NoRun(Content(count, cb, data, cs), n, slot.value + n - 1)
      ensures slot.None? ==> Full(Content(count, cb, data, cs), n)
    {
      ghost var content := Content(count, cb, data, cs);
      WholeLength(content, s.length);
      hide *;
      var run, index := 0, 0;
      NothingScanned(content, n);
      while index * 32 < s.length
        invariant 0 <= index <= Slots(content) && run < n
        invariant Base() && (cursor == old(cursor) || cursor.first == s.first)
        invariant RunUpTo(content, index, run) && NoRun(content, n, index)
        decreases s.length - index * 32
      {
        var kind := ReadType(s, index, cs);
        RunStep(content, n, index, run);
        run := if kind < 0x80 then run + 1 else 0;
        if run == n { return Some(index + 1 - n); }
        index := index + 1;
      }
      return None;
    }

    /** The type byte of one slot. */
    method ReadType(s: Stream, index: nat, ghost cs: seq<nat>) returns (kind: byte)
      requires Base() && Reaches(count, fat, s, cs) && s.length == |cs| * cb && index * 32 + 32 <= s.length
      modifies `cursor
      ensures Base() && (cursor == old(cursor) || cursor.first == s.first)
      ensures index < Slots(Content(count, cb, data, cs)) && kind == TypeAt(Content(count, cb, data, cs), index)
    {
      hide Content, Reaches, CursorOk;
      var bytes, _ := ReadStream(s, index * 32, 1, cs);
      kind := bytes[0];
    }

    lemma NoDirIsBitmap(extra: set<Id>, skip: set<Id>)
      requires Core(extra, skip)
      ensures forall d :: d in dirs ==> d in lay.owner && lay.owner[d].index == 0 && lay.owner[d].id != BitmapId
    {
      hide *;
      CoreFacts(extra, skip);
      TreeParts();
      forall d | d in dirs ensures lay.owner[d].id != BitmapId {
        DirNotBitmap(cb, up, T(), extra, skip, d);
      }
    }

    /** What lengthening the directory `s` into `s1` has done to the volume `t`, `data0`. */
    ghost predicate Lengthened(t: Tree, data0: seq<seq<byte>>, s: Stream, s1: Stream, p: Id)
      reads `fat, `data, `cursor, `lay, `dirs, `root, `rank
    {
      && Inv() && root == t.root && dirs == t.dirs && rank == t.rank
      && OwnersOk(lay) && ChainsInHeap(count, lay) && DataOk(count, cb, data)
      && p in lay.chain && p in t.lay.chain && Relisted(t, lay, p, Head(s1.first, s1.contiguous), lay.chain[p])
      && cb > 0 && |lay.chain[p]| == CeilDiv(s1.length, cb) && t.lay.chain[p] <= lay.chain[p]
      && s1 == Stream(s.first, s.length + cb, s.length + cb, s1.contiguous) && (s1.contiguous ==> s.contiguous)
      && DirectoryStream(cb, s1) && OnDisk(count, cb, up, data, t.(lay := lay))
      && StreamsKept(t.lay, data0, lay, data, {p, BitmapId})
      && Held(count, cb, data, lay, p) == Held(count, cb, data0, t.lay, p) + Zeros(cb)
      && (forall e :: e in dirs ==> e in lay.owner && e in t.lay.owner && lay.owner[e] == t.lay.owner[e])
    }

    lemma LengthenedIs(t: Tree, data0: seq<seq<byte>>, s: Stream, s1: Stream, p: Id)
      ensures Lengthened(t, data0, s, s1, p) <==>
              && Inv() && root == t.root && dirs == t.dirs && rank == t.rank
              && OwnersOk(lay) && ChainsInHeap(count, lay) && DataOk(count, cb, data)
              && p in lay.chain && p in t.lay.chain && Relisted(t, lay, p, Head(s1.first, s1.contiguous), lay.chain[p])
              && cb > 0 && |lay.chain[p]| == CeilDiv(s1.length, cb) && t.lay.chain[p] <= lay.chain[p]
              && s1 == Stream(s.first, s.length + cb, s.length + cb, s1.contiguous) && (s1.contiguous ==> s.contiguous)
              && DirectoryStream(cb, s1) && OnDisk(count, cb, up, data, t.(lay := lay))
              && StreamsKept(t.lay, data0, lay, data, {p, BitmapId})
              && Held(count, cb, data, lay, p) == Held(count, cb, data0, t.lay, p) + Zeros(cb)
              && (forall e :: e in dirs ==> e in lay.owner && e in t.lay.owner && lay.owner[e] == t.lay.owner[e])
    {
      hide Inv, OwnersOk, ChainsInHeap, DataOk, Relisted, DirectoryStream, OnDisk, StreamsKept, Held;
    }

    /** A directory's stream lengthened by one zeroed cluster, its own set or the root
        not yet updated. */
    method ExtendDirectory(s: Stream, ghost p: Id, ghost extra: set<Id>) returns (error: Error, s': Stream)
      requires Opened(s, p) && s.length + cb <= MAX_DIRECTORY_BYTES
      requires Base() && Core(extra, {})
      modifies `cursor, `fat, `data, `hint, `lay
      ensures Base() && error in {NoError, NoSpace} && (error == NoError <==> old(Free()) > 0)
      ensures error == NoSpace ==>
              Core(extra, {}) && lay == old(lay) && StreamsKept(old(lay), old(data), lay, data, {BitmapId})
      ensures error == NoError ==> Lengthened(old(T()), old(data), s, s', p)
    {
      hide *;
      OpenedParts(s, p);
      CoreInv(extra, {});
      CoreFacts(extra, {});
      TreeParts();
      FreeIs();
      InvParts();
      NoDirIsBitmap(extra, {});
      ghost var t, data0 := T(), data;
      ChainClusters(count, lay, p);
      HeldIs(count, cb, data, lay, p);
      OneMore(|lay.chain[p]|, cb);
      FirstOf(lay, p);
      ChainFrom(count, fat, lay, p);
      DirClusters(count, cb, fat, s, lay.chain[p]);
      error, s' := Resize(s, s.length / cb + 1, p);
      InvParts();
      LayoutHeads(count, fat, Bits(lay.chain[BitmapId]), lay);
      LayoutParts(count, fat, Bits(lay.chain[BitmapId]), lay);
      if error != NoError {
        KeptWrite(count, lay, data0, data, BitmapId);
        DisksKept(count, cb, up, t, data0, lay, data, {BitmapId});
        TreeIs(t, lay);
        MakeCore(extra, {});
        return;
      }
      ReshapedParts(t.lay, p, Head(s'.first, s'.contiguous), lay.chain[p]);
      LongerChain(t.lay.chain[p], lay.chain[p]);
      error, s' := ZeroExtension(s, s', p, t, data0);
    }

    /** The cluster just linked to a directory, cleared. */
    method ZeroExtension(s: Stream, s1: Stream, ghost p: Id, ghost t: Tree, ghost data0: seq<seq<byte>>)
      returns (error: Error, s': Stream)
      requires Inv() && root == t.root && dirs == t.dirs && rank == t.rank && cb % ENTRY_BYTES == 0
      requires OwnersOk(lay) && ChainsInHeap(count, lay) && HeadsOk(lay) && ChainsOk(count, fat, lay)
               && lay.heads.Keys == lay.chain.Keys
      requires OwnersOk(t.lay) && ChainsInHeap(count, t.lay) && DataOk(count, cb, data0)
               && OnDisk(count, cb, up, data0, t)
      requires forall d :: d in t.dirs ==>
               d in t.lay.owner && t.lay.owner[d].index == 0 && t.lay.owner[d].id != BitmapId
      requires s.first in t.dirs && t.lay.owner[s.first].id == p && p != BitmapId && t.lay.owner[s.first].index == 0
      requires p in t.lay.chain && p in t.lay.heads && t.lay.chain[p] != [] && t.lay.chain[p][0] == s.first
               && p in lay.chain
      requires t.lay.heads.Keys == t.lay.chain.Keys
               && lay == Reshaped(t.lay, p, Head(s1.first, s1.contiguous), lay.chain[p])
      requires |lay.chain[p]| == |t.lay.chain[p]| + 1 && t.lay.chain[p] <= lay.chain[p]
               && s.length == |t.lay.chain[p]| * cb
      requires s.length + cb <= MAX_DIRECTORY_BYTES && (s1.contiguous ==> s.contiguous)
      requires BitmapId in t.lay.chain && SameOutside(data0, data, t.lay.chain[BitmapId]) && DataOk(count, cb, data)
      modifies `cursor, `data
      ensures Base() && error == NoError && Lengthened(t, data0, s, s', p)
    {
      hide *;
      InvParts();
      ghost var head, cs, data1 := Head(s1.first, s1.contiguous), lay.chain[p], data;
      ReshapedParts(t.lay, p, head, cs);
      KeptResize(count, t.lay, data0, lay, data, p, head, cs);
      ResizedHeld(count, cb, t.lay, data0, lay, data, p);
      ChainFrom(count, fat, lay, p);
      SameFirst(count, fat, t.lay.chain[p], cs, s.first, s1.first, s1.contiguous);
      OneMore(|t.lay.chain[p]|, cb);
      s' := s1.(length := s.length + cb, valid := s.length + cb);
      ChainReaches(count, fat, s', cs);
      ChainDistinct(lay, p);
      ChainClusters(count, lay, p);
      HeldIs(count, cb, data, lay, p);
      BitsAre(lay.chain[BitmapId]);
      error := ZeroStream(s', s.length, cb, cs);
      if error != NoError { return; }
      BaseFacts();
      HeldIs(count, cb, data, lay, p);
      ZeroTail(Held(count, cb, data0, t.lay, p), Held(count, cb, data1, lay, p), Held(count, cb, data, lay, p), cb);
      KeepBitmap(data1, p);
      LengthenedMake(t, data0, data1, s, s', p);
    }

    lemma LengthenedMake(t: Tree, data0: seq<seq<byte>>, data1: seq<seq<byte>>, s: Stream, s1: Stream, p: Id)
      requires Inv() && root == t.root && dirs == t.dirs && rank == t.rank
      requires OwnersOk(lay) && ChainsInHeap(count, lay) && DataOk(count, cb, data) && DataOk(count, cb, data1)
               && cb % ENTRY_BYTES == 0
      requires OwnersOk(t.lay) && ChainsInHeap(count, t.lay) && DataOk(count, cb, data0)
               && OnDisk(count, cb, up, data0, t)
      requires forall d :: d in t.dirs ==>
               d in t.lay.owner && t.lay.owner[d].index == 0 && t.lay.owner[d].id != BitmapId
      requires s.first in t.dirs && t.lay.owner[s.first].id == p && p != BitmapId
      requires p in t.lay.chain && p in t.lay.heads && t.lay.chain[p] != [] && p in lay.chain
      requires lay.chain == t.lay.chain[p := lay.chain[p]]
               && lay.heads == t.lay.heads[p := Head(s1.first, s1.contiguous)]
      requires |lay.chain[p]| == |t.lay.chain[p]| + 1 && t.lay.chain[p] <= lay.chain[p]
               && s.length == |t.lay.chain[p]| * cb
      requires s.length + cb <= MAX_DIRECTORY_BYTES
      requires s1 == Stream(s.first, s.length + cb, s.length + cb, s1.contiguous) && (s1.contiguous ==> s.contiguous)
      requires StreamsKept(t.lay, data0, lay, data1, {p, BitmapId}) && SameOutside(data1, data, lay.chain[p])
      requires Held(count, cb, data, lay, p) == Held(count, cb, data0, t.lay, p) + Zeros(cb)
      ensures Lengthened(t, data0, s, s1, p)
    {
      hide *;
      var head, cs := Head(s1.first, s1.contiguous), lay.chain[p];
      KeptWrite(count, lay, data1, data, p);
      KeptTwice(t.lay, data0, lay, data1, lay, data, {p, BitmapId}, {p});
      assert {p, BitmapId} + {p} == {p, BitmapId};
      RelistedDir(t, lay, p, head, cs);
      HomesKept(t, lay, p, cs, s.first);
      DisksExtended(count, cb, up, t, data0, lay, data, s.first, cb);
      MoreDirectory(s, s1, |t.lay.chain[p]|, cb);
      LengthenedIs(t, data0, s, s1, p);
    }

    /** What lengthening the directory `h` leaves: the same sets everywhere, and one
        zeroed cluster more. */
    ghost predicate Grew(t: Tree, data0: seq<seq<byte>>, h: nat, s: Stream)
      requires cb > 0
      reads `data, `lay, `dirs, `root, `rank
    {
      && Node(h) && IsDir(h) && DirAt(h).first == s.first && DirAt(h).length == s.length + cb
      && SameSets(t, T()) && OthersSame(t, T(), DirId(h)) && Evolves(t, T()) && rank == t.rank
      && StreamsKept(t.lay, data0, lay, data, DirIds(t)) && DirIds(T()) == DirIds(t)
      && Bytes(DirId(h)) == Held(count, cb, data0, t.lay, DirId(h)) + Zeros(cb)
    }

    lemma GrewIs(t: Tree, data0: seq<seq<byte>>, h: nat, s: Stream)
      requires cb > 0
      ensures Grew(t, data0, h, s) <==>
              && Node(h) && IsDir(h) && DirAt(h).first == s.first && DirAt(h).length == s.length + cb
              && SameSets(t, T()) && OthersSame(t, T(), DirId(h)) && Evolves(t, T()) && rank == t.rank
              && StreamsKept(t.lay, data0, lay, data, DirIds(t)) && DirIds(T()) == DirIds(t)
              && Bytes(DirId(h)) == Held(count, cb, data0, t.lay, DirId(h)) + Zeros(cb)
    {
      hide Node, IsDir, SameSets, OthersSame, Evolves, StreamsKept, DirIds, Held;
    }

    lemma RootNode()
      requires cb > 0
      ensures Node(ROOT_ID) && IsDir(ROOT_ID)
    {
    }

    /** The root lengthened: its stream is the volume's own. */
    method SettleRoot(s: Stream, s1: Stream, ghost t: Tree, ghost data0: seq<seq<byte>>, ghost extra: set<Id>)
      requires cb > 0 && cb % ENTRY_BYTES == 0 && cb <= 0x200_0000 && Shape(cb, up, t, extra, {}) && t.root == s
      requires s.first in t.dirs && s.first in t.lay.owner && t.lay.owner[s.first].id == RootId
      requires Lengthened(t, data0, s, s1, RootId)
      modifies `root
      ensures Base() && Core(extra, {}) && Grew(t, data0, ROOT_ID, s)
    {
      hide *;
      LengthenedIs(t, data0, s, s1, RootId);
      ShapeOf(cb, up, t, extra, {});
      RootParts(cb, t);
      ShapeRooted(cb, up, t, extra, {}, lay, s1, lay.chain[RootId]);
      OnDiskRoot(count, cb, up, data, t.(lay := lay), s1);
      root := s1;
      TreeParts();
      SameTree(T(), t.(lay := lay, root := s1));
      MakeCore(extra, {});
      SetsSame(t, lay, s1);
      SameSizes(t, T());
      RelistedParts(t, lay, RootId, Head(s1.first, s1.contiguous), lay.chain[RootId]);
      EvolvesGrown(t, T(), RootId, Head(s1.first, s1.contiguous), lay.chain[RootId]);
      DirIdsSame(t, T());
      DirIdsIn(t, s.first);
      KeptMore(t.lay, data0, lay, data, {RootId, BitmapId}, DirIds(t));
      DirParts(ROOT_ID);
      RootNode();
      BytesAre(RootId);
      DirIdIs(ROOT_ID);
      GrewIs(t, data0, ROOT_ID, s);
    }

    /** Another directory lengthened: its set is rewritten through its own parent. */
    method SettleDir(parent: Stream, slot: nat, s: Stream, s1: Stream, ghost h: nat, ghost t: Tree,
                     ghost data0: seq<seq<byte>>, ghost extra: set<Id>)
      returns (error: Error)
      requires parent == ParentStream(h) && slot == IdSlot(h) && h != ROOT_ID
      requires cb > 0 && cb % ENTRY_BYTES == 0 && cb <= 0x200_0000 && Shape(cb, up, t, extra, {})
      requires Handle(cb, t, h) && t.Has(IdFirst(h), IdSlot(h)) && t.At(IdFirst(h), IdSlot(h)).entry.IsDirectory()
      requires t.At(IdFirst(h), IdSlot(h)).entry.stream == s
      requires s.first in t.dirs && s.first in t.lay.owner && t.lay.owner[s.first].id == NodeOf(h)
      requires Lengthened(t, data0, s, s1, NodeOf(h))
      modifies `cursor, `data, `dirs
      ensures Base() && Core(extra, {}) && error == NoError && Grew(t, data0, h, s)
    {
      hide *;
      LengthenedIs(t, data0, s, s1, NodeOf(h));
      ghost var d, q, p, cs, data1 := IdFirst(h), IdSlot(h), NodeOf(h), lay.chain[NodeOf(h)], data;
      ghost var head, t1 := Head(s1.first, s1.contiguous), t.(lay := lay);
      NodeOfIs(h);
      ShapeOf(cb, up, t, extra, {});
      HasParts(t, d, q);
      ShapeNode(cb, up, t, extra, {}, d, q);
      NodeParts(cb, t, d, q);
      ShapeHome(cb, up, t, extra, {}, d);
      NotOwnHolder(t, d, q);
      RelistedParts(t, lay, p, head, cs);
      TreeIs(t, lay);
      ShapeRelisted(cb, up, t, extra, {}, lay, p, head, cs);
      assert {} + {p} == {p};
      MakeCore(extra, {p});
      HandleAside(cb, t, lay, p, head, cs, h);
      LayAside(t, lay, d, q);
      StoreReady(h, extra, {p});
      StreamReady(s1, p, extra, {p});
      BaseFacts();
      StreamFits(count, cb, fat, s1, cs);
      error := Store(parent, slot, s1, d, ParentChain(cb, T(), h), extra, {p});
      if error != NoError { return; }
      TreeParts();
      CoreFacts(extra, {p});
      StoredDir(cb, t1, d, q, s1);
      assert {} + {p} == {p};
      CoreUnskip(extra, {}, d, q);
      GrewMake(h, t, data0, data1, s, s1);
    }

    lemma GrewMake(h: nat, t: Tree, data0: seq<seq<byte>>, data1: seq<seq<byte>>, s: Stream, s1: Stream)
      requires cb > 0 && h != ROOT_ID && OwnersOk(t.lay) && OwnersOk(lay) && ChainsInHeap(count, lay)
      requires DataOk(count, cb, data) && DataOk(count, cb, data1)
      requires t.Has(IdFirst(h), IdSlot(h)) && t.At(IdFirst(h), IdSlot(h)).entry.IsDirectory()
               && t.At(IdFirst(h), IdSlot(h)).entry.stream.first == s1.first == s.first
      requires s.first in t.dirs && t.At(IdFirst(h), IdSlot(h)).entry.stream == s && s1.length == s.length + cb
      requires forall e :: e in t.dirs ==> e in t.lay.owner && e in lay.owner && lay.owner[e] == t.lay.owner[e]
      requires t.lay.owner[s.first].id == NodeOf(h) && lay.owner[IdFirst(h)].id != NodeOf(h)
      requires NodeOf(h) in t.lay.chain && NodeOf(h) in t.lay.heads && NodeOf(h) in lay.chain
      requires t.lay.heads[NodeOf(h)] == Head(s.first, s.contiguous)
      requires Handle(cb, t.(lay := lay), h)
      requires lay.chain == t.lay.chain[NodeOf(h) := lay.chain[NodeOf(h)]]
               && lay.heads == t.lay.heads[NodeOf(h) := Head(s1.first, s1.contiguous)]
      requires t.lay.chain[NodeOf(h)] <= lay.chain[NodeOf(h)] && (s1.contiguous ==> s.contiguous)
      requires t.(lay := lay).Has(IdFirst(h), IdSlot(h)) && T() == t.(lay := lay).WithStream(IdFirst(h), IdSlot(h), s1)
      requires StreamsKept(t.lay, data0, lay, data1, {NodeOf(h), BitmapId})
      requires lay.owner[IdFirst(h)].id in lay.chain && SameOutside(data1, data, lay.chain[lay.owner[IdFirst(h)].id])
      requires Held(count, cb, data1, lay, NodeOf(h)) == Held(count, cb, data0, t.lay, NodeOf(h)) + Zeros(cb)
      ensures Grew(t, data0, h, s)
    {
      hide *;
      TreeParts();
      var d, q, p := IdFirst(h), IdSlot(h), NodeOf(h);
      NodeOfIs(h);
      HasParts(t, d, q);
      var g := lay.owner[d].id;
      SetsRestreamed(t, lay, d, q, s1);
      WithStreamFacts(t.(lay := lay), d, q, s1);
      SameSizes(t, T());
      EvolvesGrown(t, T(), p, Head(s1.first, s1.contiguous), lay.chain[p]);
      DirIdsSame(t, T());
      DirIdsIn(t, s.first);
      DirIdsIn(t, d);
      KeptWrite(count, lay, data1, data, g);
      KeptTwice(t.lay, data0, lay, data1, lay, data, {p, BitmapId}, {g});
      KeptMore(t.lay, data0, lay, data, {p, BitmapId} + {g}, DirIds(t));
      KeptOne(lay, data1, lay, data, {g}, p);
      ChainClusters(count, lay, p);
      KeptHeld(count, cb, lay, data1, lay, data, p);
      BytesAre(p);
      DirParts(h);
      LayAside(t, lay, d, q);
      KindKept(t.(lay := lay), d, q, s1);
      HandleStored(cb, t.(lay := lay), d, q, s1, h);
      NodeIs(h);
      DirIdIs(h);
      GrewIs(t, data0, h, s);
    }

    lemma NodeIs(h: nat)
      requires cb > 0
      ensures Node(h) <==> h == ROOT_ID || Handle(cb, T(), h)
    {
    }

    /** What `locate` gives for a directory. */
    ghost predicate Located(h: nat, where: Location)
      reads `root, `lay, `dirs, `rank
    {
      && where.entry.stream == DirAt(h) && where.isRoot == (h == ROOT_ID)
      && (h != ROOT_ID ==> where.parent == ParentStream(h) && where.slot == IdSlot(h))
    }

    lemma LocatedIs(h: nat, where: Location)
      ensures Located(h, where) <==>
              && where.entry.stream == DirAt(h) && where.isRoot == (h == ROOT_ID)
              && (h != ROOT_ID ==> where.parent == ParentStream(h) && where.slot == IdSlot(h))
    {
      hide DirAt;
    }

    /** The growing half of `insert`. */
    method GrowDirectory(where: Location, ghost h: nat, ghost extra: set<Id>) returns (error: Error)
      requires cb > 0 && Node(h) && IsDir(h) && Located(h, where)
      requires Base() && Core(extra, {})
      modifies `cursor, `fat, `data, `hint, `lay, `dirs, `root
      ensures Base() && Core(extra, {}) && error in {NoError, NoSpace}
      ensures error == NoError <==> old(Free()) > 0 && where.entry.stream.length + cb <= MAX_DIRECTORY_BYTES
      ensures error == NoSpace ==> T() == old(T()) && StreamsKept(old(lay), old(data), lay, data, {BitmapId})
      ensures error == NoError ==> Grew(old(T()), old(data), h, where.entry.stream)
    {
      hide *;
      ghost var t, data0 := T(), data;
      LocatedIs(h, where);
      TreeParts();
      NodeIs(h);
      var s := where.entry.stream;
      CoreFacts(extra, {});
      if s.length + cb > MAX_DIRECTORY_BYTES {
        KeptSame(count, lay, data);
        KeptMore(lay, data, lay, data, {}, {BitmapId});
        return NoSpace;
      }
      DirReady(h, extra, {});
      OpenedParts(s, DirId(h));
      DirParts(h);
      var s1;
      error, s1 := ExtendDirectory(s, DirId(h), extra);
      if error != NoError {
        TreeIs(t, lay);
        SameTree(T(), t);
        return;
      }
      if where.isRoot {
        DirIdIs(ROOT_ID);
        SettleRoot(s, s1, t, data0, extra);
      } else {
        DirIdIs(h);
        error := SettleDir(where.parent, where.slot, s, s1, h, t, data0, extra);
      }
    }

    /** One pass of `insert`: the set goes into the first free run, if there is one. */
    method TryInsert(h: nat, bytes: seq<byte>, ghost rec: Rec, ghost extra: set<Id>)
      returns (slot: Option<nat>, where: Location)
      requires cb > 0 && Node(h) && IsDir(h) && SetFor(count, cb, up, bytes, rec)
               && NameFree(up, dirs, DirAt(h).first, rec.entry.name)
      requires Base() && Core(extra, {})
      modifies `cursor, `data, `dirs
      ensures Base() && DirAt(h) == old(DirAt(h)) && Opened(where.entry.stream, DirId(h))
      ensures slot.None? ==> Core(extra, {}) && data == old(data) && dirs == old(dirs) && Located(h, where)
      ensures slot.None? <==> Full(old(Bytes(DirId(h))), rec.size)
      ensures Free() == old(Free())
      ensures slot.Some? ==>
                && where.entry.stream == old(DirAt(h))
                && Core(extra, {NodeId(where.entry.stream.first, slot.value)})
                && (NodeId(where.entry.stream.first, slot.value) !in extra ==>
                    NodeId(where.entry.stream.first, slot.value) !in lay.chain)
                && Placed(old(T()), T(), where.entry.stream, slot.value, rec)
                && StreamsKept(lay, old(data), lay, data, {DirId(h)})
    {
      hide *;
      SetForIs(count, cb, up, bytes, rec);
      DirParts(h);
      if h != ROOT_ID { NodeHandle(h); }
      where := Location(Stream(0, 0, 0, false), 0, Entry(Stream(0, 0, 0, false), 0, []), false);
      RootIsDirectory(root);
      var located := Locate(h, extra, {});
      if located.None? || !located.value.entry.IsDirectory() { return None, where; }
      where := located.value;
      var s := where.entry.stream;
      LocatedIs(h, where);
      DirReady(h, extra, {});
      ghost var p, d, content, t, data0 := DirId(h), s.first, Bytes(DirId(h)), T(), data;
      OpenedParts(s, p);
      DirScan(s, p, extra, {});
      slot := FindRun(s, |bytes| / 32, lay.chain[p]);
      if slot.None? { return; }
      RunIs(content, slot.value, rec.size);
      RunSlots(content, slot.value, rec.size, s.length);
      TreeParts();
      CoreFacts(extra, {});
      FreeNow();
      PlaceSet(s, slot.value, bytes, p, rec, extra);
      PlacedDir(t, h, s, slot.value, rec);
      KeptOne(lay, data0, lay, data, {p}, BitmapId);
      FreeStays(lay, data0, extra, {NodeId(d, slot.value)});
    }

    /** A new set written into a run of free slots. */
    method PlaceSet(s: Stream, slot: nat, bytes: seq<byte>, ghost p: Id, ghost rec: Rec, ghost extra: set<Id>)
      requires Opened(s, p) && SetFor(count, cb, up, bytes, rec) && NameFree(up, dirs, s.first, rec.entry.name)
               && RunUpTo(Bytes(p), slot + rec.size, rec.size)
      requires Base() && Core(extra, {})
      modifies `cursor, `data, `dirs
      ensures Base() && Core(extra, {NodeId(s.first, slot)}) && Opened(s, p) && Placed(old(T()), T(), s, slot, rec)
      ensures NodeId(s.first, slot) !in extra ==> NodeId(s.first, slot) !in lay.chain
      ensures StreamsKept(lay, old(data), lay, data, {p})
    {
      hide *;
      SetForIs(count, cb, up, bytes, rec);
      OpenedParts(s, p);
      DirScan(s, p, extra, {});
      ghost var d, content, t, data0 := s.first, Bytes(p), T(), data;
      RunSlots(content, slot, rec.size, s.length);
      NoEndBefore(count, cb, up, content, dirs[d], slot + rec.size, rec.size);
      RunIs(content, slot, rec.size);
      InsertKeeps(count, cb, up, content, dirs[d], slot, bytes, rec);
      TreeParts();
      FreshSlot(t, d, slot);
      NameFreeIs(up, dirs, d, rec.entry.name);
      CoreFacts(extra, {});
      ShapeReserved(cb, up, t, extra, {}, d, slot, rec);
      assert {} + {NodeId(d, slot)} == {NodeId(d, slot)};
      RedrawnWith(d, slot, rec);
      var error := WriteSlots(s, slot, bytes, d, lay.chain[p], dirs[d][slot := rec], {}, extra, {}, extra,
                              {NodeId(d, slot)});
      TreeParts();
      PlacedMake(t, T(), s, slot, rec);
      OpenedAgain(s, p);
      CoreFacts(extra, {NodeId(d, slot)});
      KeptWrite(count, lay, data0, data, p);
    }

    lemma RedrawnWith(d: nat, slot: nat, rec: Rec)
      requires d in dirs
      ensures Redrawn(d, dirs[d][slot := rec], {}) == T().With(d, slot, rec)
    {
      var ents: map<nat, Rec> := dirs[d];
      var ents' := ents[slot := rec];
      assert dirs[d := ents'] - {} == dirs[d := ents'];
    }

    lemma OpenedAgain(s: Stream, p: Id)
      requires s.first in dirs && s.first in lay.owner && lay.owner[s.first] == Place(p, 0)
      requires p in lay.chain && p in lay.heads && lay.heads[p] == Head(s.first, s.contiguous) && lay.chain[p] != []
      requires p != BitmapId && p != PendingId && p != UpcaseId
      requires cb > 0 && s.length == |lay.chain[p]| * cb && DirectoryStream(cb, s) && s.length % 32 == 0
      ensures Opened(s, p)
    {
    }

    /** A new set is not the directory's own. */
    lemma PlacedDir(t: Tree, h: nat, s: Stream, slot: nat, rec: Rec)
      requires Placed(t, T(), s, slot, rec)
      requires if h == ROOT_ID then s == t.root
               else t.Has(IdFirst(h), IdSlot(h)) && t.At(IdFirst(h), IdSlot(h)).entry.stream == s
      ensures DirAt(h) == s
    {
      WithFacts(t, s.first, slot, rec);
    }

    /** A directory has room for `n` slots: a free run now, or one once it has been given
        one more zeroed cluster, of which `spare` are to be had. */
    ghost predicate RoomWith(h: nat, n: nat, spare: int)
      reads `data, `root, `lay, `dirs, `rank
    {
      || !Full(Bytes(DirId(h)), n)
      || (spare > 0 && DirAt(h).length + cb <= MAX_DIRECTORY_BYTES && !Full(Bytes(DirId(h)) + Zeros(cb), n))
    }

    lemma RoomWithIs(h: nat, n: nat, spare: int)
      ensures RoomWith(h, n, spare) <==>
              || !Full(Bytes(DirId(h)), n)
              || (spare > 0 && DirAt(h).length + cb <= MAX_DIRECTORY_BYTES && !Full(Bytes(DirId(h)) + Zeros(cb), n))
    {
      hide Full, Bytes;
    }

    /** With clusters of 1024 bytes or more, one more cluster is always enough. */
    lemma RoomyClusters(h: nat, n: nat, spare: int)
      requires cb >= 1024 && cb % ENTRY_BYTES == 0 && |Bytes(DirId(h))| % ENTRY_BYTES == 0 && n <= MAX_SET
      ensures RoomWith(h, n, spare) <==>
              !Full(Bytes(DirId(h)), n) || (spare > 0 && DirAt(h).length + cb <= MAX_DIRECTORY_BYTES)
    {
      hide *;
      RoomWithIs(h, n, spare);
      GrownRoom(Bytes(DirId(h)), cb, n);
    }

    ghost predicate HasRoom(h: nat, n: nat)
      reads `data, `root, `lay, `dirs, `rank
    {
      RoomWith(h, n, Free())
    }

    lemma HasRoomIs(h: nat, n: nat)
      ensures HasRoom(h, n) <==> RoomWith(h, n, Free())
    {
      hide RoomWith, Free;
    }

    /** There is a cluster for a new directory itself, if that is what is made, and room
        for its set of `n` slots besides. */
    ghost predicate CreateFits(h: nat, n: nat, directory: bool)
      reads `data, `root, `lay, `dirs, `rank
    {
      var own := if directory then 1 else 0;
      own <= Free() && RoomWith(h, n, Free() - own)
    }

    lemma CreateFitsIs(h: nat, n: nat, directory: bool)
      ensures var own := if directory then 1 else 0;
              CreateFits(h, n, directory) <==> own <= Free() && RoomWith(h, n, Free() - own)
    {
      hide RoomWith, Free;
    }

    /** `insert`: the set goes into the first run of free slots, if need be after the
        directory has grown by one zeroed cluster.  `mid` is the tree before the set was
        written: the same sets, perhaps a longer directory. */
    method Insert(h: nat, bytes: seq<byte>, ghost rec: Rec, ghost extra: set<Id>)
      returns (error: Error, parent: Stream, slot: nat, ghost mid: Tree)
      requires cb > 0 && Node(h) && IsDir(h) && SetFor(count, cb, up, bytes, rec)
               && NameFree(up, dirs, DirAt(h).first, rec.entry.name)
      requires Base() && Core(extra, {})
      modifies `cursor, `fat, `data, `hint, `lay, `dirs, `root
      ensures Base() && error in {NoError, NoSpace}
      ensures error == NoError ==>
                && parent.first == old(DirAt(h)).first && DirAt(h) == parent && Opened(parent, DirId(h))
                && Core(extra, {NodeId(parent.first, slot)}) && Placed(mid, T(), parent, slot, rec)
                && (NodeId(parent.first, slot) !in extra ==> NodeId(parent.first, slot) !in lay.chain)
      ensures error == NoSpace ==> Core(extra, {}) && mid == T()
      ensures SameSets(old(T()), mid) && OthersSame(old(T()), mid, DirId(h)) && Evolves(old(T()), mid)
      ensures mid.rank == old(rank) && DirIds(mid) == DirIds(old(T()))
      ensures StreamsKept(old(lay), old(data), lay, data, DirIds(old(T())))
      ensures error == NoError <==> old(HasRoom(h, rec.size))
      ensures !old(Full(Bytes(DirId(h)), rec.size)) ==> root == old(root) && Free() == old(Free())
    {
      hide *;
      ghost var t, data0 := T(), data;
      HasRoomIs(h, rec.size);
      RoomWithIs(h, rec.size, Free());
      CoreFacts(extra, {});
      TreeParts();
      InsertStart(h, t, data0, extra);
      DirScan(DirAt(h), DirId(h), extra, {});
      SetForIs(count, cb, up, bytes, rec);
      parent, slot, mid := Stream(0, 0, 0, false), 0, t;
      var place, where := TryInsert(h, bytes, rec, extra);
      if place.Some? {
        OpenedParts(where.entry.stream, DirId(h));
        KeptMore(t.lay, data0, lay, data, {DirId(h)}, DirIds(t));
        return NoError, where.entry.stream, place.value, t;
      }
      LocatedIs(h, where);
      error := GrowDirectory(where, h, extra);
      mid := T();
      if error != NoError {
        KeptMore(t.lay, data0, lay, data, {BitmapId}, DirIds(t));
        return;
      }
      ghost var s0, data1 := where.entry.stream, data;
      GrewIs(t, data0, h, s0);
      NameFreeKept(up, t, mid, s0.first, rec.entry.name);
      TreeParts();
      place, where := TryInsert(h, bytes, rec, extra);
      if place.None? { return NoSpace, parent, slot, mid; }
      KeptAgain(t.lay, data0, lay, data1, lay, data, DirIds(t), DirId(h));
      return NoError, where.entry.stream, place.value, mid;
    }

    lemma InsertStart(h: nat, t: Tree, data0: seq<seq<byte>>, extra: set<Id>)
      requires cb > 0 && Node(h) && IsDir(h) && t == T() && data0 == data && Base() && Core(extra, {})
      ensures SameSets(t, t) && OthersSame(t, t, DirId(h)) && Evolves(t, t) && Opened(DirAt(h), DirId(h))
              && DirId(h) in DirIds(t) && BitmapId in DirIds(t)
      ensures StreamsKept(t.lay, data0, t.lay, data0, DirIds(t))
      ensures Bytes(DirId(h)) == Held(count, cb, data0, t.lay, DirId(h)) && |Bytes(DirId(h))| % 32 == 0
    {
      hide *;
      TreeParts();
      CoreFacts(extra, {});
      DirReady(h, extra, {});
      OpenedParts(DirAt(h), DirId(h));
      DirScan(DirAt(h), DirId(h), extra, {});
      DirIdsIn(t, DirAt(h).first);
      SetsSame(t, t.lay, t.root);
      SameTree(t, t.(lay := t.lay, root := t.root));
      EvolvesSame(t);
      KeptSame(count, t.lay, data0);
      KeptMore(t.lay, data0, t.lay, data0, {}, DirIds(t));
      BytesAre(DirId(h));
    }

    // ------------------------------------------------------ relabelling the ghosts

    /** The disk agrees with the cluster lists `lay1`. */
    ghost predicate LaidOut(lay1: Layout)
      reads `fat, `data
    {
      && BitmapId in lay1.chain && BitmapId in lay1.heads && lay1.heads[BitmapId] == Head(bitmap.first, false)
      && DataOk(count, cb, data) && Clusters(count, lay1.chain[BitmapId])
      && (count + 7) / 8 <= bitmap.length <= |lay1.chain[BitmapId]| * cb && |fat| == count + 2
      && LayoutOk(count, fat, Bits(lay1.chain[BitmapId]), lay1)
    }

    lemma LaidOutAdded(id: Id)
      requires Inv() && id !in lay.chain
      ensures LaidOut(Added(lay, id))
    {
      InvParts();
      AddedKeeps(count, fat, Bits(lay.chain[BitmapId]), lay, id);
      hide LayoutOk, BitmapOk, Content;
    }

    lemma LaidOutDropped(id: Id)
      requires Inv() && id in lay.chain && lay.chain[id] == [] && id != BitmapId
      ensures LaidOut(Dropped(lay, id))
    {
      InvParts();
      DroppedKeeps(count, fat, Bits(lay.chain[BitmapId]), lay, id);
      hide LayoutOk, BitmapOk, Content;
    }

    lemma LaidOutRenamed(from: Id, to: Id)
      requires Inv() && from in lay.chain && from in lay.heads && to !in lay.chain && from != BitmapId
      ensures LaidOut(Renamed(lay, from, to))
    {
      InvParts();
      RenamedKeeps(count, fat, Bits(lay.chain[BitmapId]), lay, from, to);
      hide LayoutOk, BitmapOk, Content;
    }

    lemma LaidOutInv()
      requires LaidOut(lay) && Base() && !bitmap.contiguous
      ensures Inv() && OwnersOk(lay) && ChainsInHeap(count, lay)
    {
      BitmapChain(count, fat, Bits(lay.chain[BitmapId]), lay);
      LayoutHeads(count, fat, Bits(lay.chain[BitmapId]), lay);
      LayoutParts(count, fat, Bits(lay.chain[BitmapId]), lay);
      hide LayoutOk, Content, ChainOk;
    }

    /** Only what is known of the volume changes, not the volume. */
    ghost method Redraw(t: Tree, extra: set<Id>, skip: set<Id>, extra': set<Id>, skip': set<Id>)
      requires t.root == root && LaidOut(t.lay) && Shape(cb, up, t, extra', skip') && OnDisk(count, cb, up, data, t)
      requires Base() && Core(extra, skip)
      modifies `lay, `dirs, `rank
      ensures Base() && Core(extra', skip') && T() == t
    {
      hide *;
      CoreInv(extra, skip);
      InvParts();
      CoreFacts(extra, skip);
      lay, dirs, rank := t.lay, t.dirs, t.rank;
      TreeParts();
      SameTree(T(), t);
      LaidOutInv();
      ShapeOf(cb, up, t, extra', skip');
      BaseFacts();
      MakeCore(extra', skip');
    }

    /** A new stream in hand, without clusters. */
    ghost method BeginPending()
      requires Base() && Core({}, {})
      modifies `lay, `dirs, `rank
      ensures Base() && Core({PendingId}, {}) && PendingId !in old(lay).chain
              && T() == old(T()).(lay := Added(old(lay), PendingId))
      ensures PendingId in lay.chain && PendingId in lay.heads && lay.chain[PendingId] == []
              && lay.heads[PendingId] == Head(0, false)
      ensures StreamsKept(old(lay), data, lay, data, {})
    {
      hide *;
      TreeParts();
      CoreInv({}, {});
      CoreFacts({}, {});
      ShapeAdded(cb, up, T());
      LaidOutAdded(PendingId);
      ghost var t, lay1 := T(), Added(lay, PendingId);
      AddedParts(count, lay, PendingId);
      AddedDisk(count, cb, up, data, t);
      Redraw(t.(lay := lay1), {}, {}, {PendingId}, {});
      TreeParts();
      KeptAdded(count, t.lay, data, PendingId);
    }

    /** The stream in hand, without clusters again, forgotten. */
    ghost method EndPending()
      requires PendingId in lay.chain && lay.chain[PendingId] == []
      requires Base() && Core({PendingId}, {})
      modifies `lay, `dirs, `rank
      ensures Base() && Core({}, {}) && T() == old(T()).(lay := Dropped(old(lay), PendingId))
      ensures StreamsKept(old(lay), data, lay, data, {PendingId})
    {
      hide *;
      TreeParts();
      CoreInv({PendingId}, {});
      CoreFacts({PendingId}, {});
      PendingUnknown(T());
      ShapeForgotten(cb, up, T(), PendingId);
      LaidOutDropped(PendingId);
      ghost var t, lay1 := T(), Dropped(lay, PendingId);
      NoDirIsPending({PendingId}, {});
      DroppedDisk(count, cb, up, data, t, PendingId);
      Redraw(t.(lay := lay1), {PendingId}, {}, {}, {});
      TreeParts();
      KeptDropped(count, t.lay, data, PendingId);
    }

    lemma NoDirIsPending(extra: set<Id>, skip: set<Id>)
      requires Core(extra, skip)
      ensures forall d :: d in dirs ==> d in lay.owner && lay.owner[d].index == 0 && lay.owner[d].id != PendingId
    {
      hide *;
      CoreFacts(extra, skip);
      TreeParts();
      forall d | d in dirs ensures lay.owner[d].id != PendingId {
        DirNotBitmap(cb, up, T(), extra, skip, d);
      }
    }

    /** The stream in hand: `s` describes its clusters, and nothing else differs from
        `lay0`. */
    ghost predicate InHand(s: Stream, n: nat, lay0: Layout)
      reads `lay
    {
      && PendingId in lay.chain && PendingId in lay.heads && lay.heads[PendingId] == Head(s.first, s.contiguous)
      && |lay.chain[PendingId]| == n && PendingId in lay0.chain && PendingId in lay0.heads
      && lay.chain == lay0.chain[PendingId := lay.chain[PendingId]]
      && lay.heads == lay0.heads[PendingId := lay.heads[PendingId]]
    }

    lemma InHandIs(s: Stream, n: nat, lay0: Layout)
      ensures InHand(s, n, lay0) <==>
              && PendingId in lay.chain && PendingId in lay.heads && lay.heads[PendingId] == Head(s.first, s.contiguous)
              && |lay.chain[PendingId]| == n && PendingId in lay0.chain && PendingId in lay0.heads
              && lay.chain == lay0.chain[PendingId := lay.chain[PendingId]]
              && lay.heads == lay0.heads[PendingId := lay.heads[PendingId]]
    {
    }

    /** `resize` of the stream in hand. */
    method ResizePending(s: Stream, clusters: nat) returns (error: Error, s': Stream)
      requires PendingId in lay.chain && PendingId in lay.heads && lay.heads[PendingId] == Head(s.first, s.contiguous)
      requires cb > 0 && |lay.chain[PendingId]| == CurrentClusters(s, cb)
      requires Base() && Core({PendingId}, {})
      modifies `cursor, `fat, `data, `hint, `lay
      ensures Base() && Core({PendingId}, {}) && error in {NoError, NoSpace} && s'.length == s.length
              && s'.valid == s.valid
      ensures error == NoError <==> clusters <= CurrentClusters(s, cb) + old(Free())
      ensures error == NoError ==>
              InHand(s', clusters, old(lay)) && StreamsKept(old(lay), old(data), lay, data, {PendingId, BitmapId})
      ensures error == NoSpace ==> lay == old(lay) && StreamsKept(old(lay), old(data), lay, data, {BitmapId})
      ensures error == NoError ==> clusters + Free() == CurrentClusters(s, cb) + old(Free())
    {
      hide *;
      NoDirIsPending({PendingId}, {});
      CoreFacts({PendingId}, {});
      ghost var lay0 := lay;
      error, s' := ResizeFile(s, clusters, PendingId, {PendingId}, {});
      if error == NoError {
        ReshapedParts(lay0, PendingId, Head(s'.first, s'.contiguous), lay.chain[PendingId]);
        InHandIs(s', clusters, lay0);
        assert {} + {PendingId} == {PendingId};
        CoreUnpend({PendingId});
      }
    }

    lemma CoreUnpend(extra: set<Id>)
      requires Core(extra, {PendingId})
      ensures Core(extra, {})
    {
      ShapeUnpend(cb, up, T(), extra);
      hide Shape, OnDisk, LayoutOk, ChainsInHeap, HeadsOk;
    }

    /** The one zeroed cluster a new directory is born with. */
    method NewDirectory() returns (error: Error, s: Stream)
      requires PendingId in lay.chain && PendingId in lay.heads && lay.heads[PendingId] == Head(0, false)
               && lay.chain[PendingId] == []
      requires Base() && Core({PendingId}, {})
      modifies `cursor, `fat, `data, `hint, `lay
      ensures Base() && Core({PendingId}, {}) && error in {NoError, NoSpace} && (error == NoError <==> old(Free()) > 0)
      ensures error == NoError ==>
                && InHand(s, 1, old(lay)) && s == Stream(s.first, cb, cb, s.contiguous) && Bytes(PendingId) == Zeros(cb)
                && StreamsKept(old(lay), old(data), lay, data, {PendingId, BitmapId})
                && 1 + Free() == old(Free())
      ensures error == NoSpace ==> lay == old(lay) && StreamsKept(old(lay), old(data), lay, data, {BitmapId})
    {
      hide *;
      s := Stream(0, 0, 0, false);
      NoClusters(cb);
      ghost var lay0, data0 := lay, data;
      CoreFacts({PendingId}, {});
      error, s := ResizePending(s, 1);
      if error != NoError { return; }
      InHandIs(s, 1, lay0);
      s := s.(length := cb, valid := cb);
      NoDirIsPending({PendingId}, {});
      StreamReady(s, PendingId, {PendingId}, {});
      HeldIs(count, cb, data, lay, PendingId);
      BytesAre(PendingId);
      ghost var before, data1 := Bytes(PendingId), data;
      CoreFacts({PendingId}, {});
      FreeNow();
      error := ZeroData(s, 0, cb, PendingId, {PendingId}, {});
      if error != NoError { return; }
      InHandIs(s, 1, lay0);
      AllZero(before, cb, Bytes(PendingId));
      CoreFacts({PendingId}, {});
      KeptWrite(count, lay, data1, data, PendingId);
      KeptOne(lay, data1, lay, data, {PendingId}, BitmapId);
      FreeKept(lay, data1);
      KeptAgain(lay0, data0, lay, data1, lay, data, {PendingId, BitmapId}, PendingId);
    }

    /** The failing end of `create`: what was allocated goes back. */
    method Discard(s: Stream)
      requires PendingId in lay.chain && PendingId in lay.heads && lay.heads[PendingId] == Head(s.first, s.contiguous)
      requires cb > 0 && |lay.chain[PendingId]| == CurrentClusters(s, cb)
      requires Base() && Core({PendingId}, {})
      modifies `cursor, `fat, `data, `hint, `lay, `dirs, `rank
      ensures Valid() && T() == old(T()).(lay := lay) && lay.chain == old(lay).chain - {PendingId}
              && lay.heads == old(lay).heads - {PendingId}
      ensures StreamsKept(old(lay), old(data), lay, data, {PendingId, BitmapId})
    {
      hide *;
      ghost var t, lay0, data0 := T(), lay, data;
      TreeParts();
      var _, s1 := ResizePending(s, 0);
      ghost var lay1, data1 := lay, data;
      InHandIs(s1, 0, lay0);
      TreeIs(t, lay);
      EndPending();
      MakeValid();
      TreeParts();
      SameTree(T(), t.(lay := lay));
      DroppedLists(lay0, lay1);
      KeptAgain(lay0, data0, lay1, data1, lay, data, {PendingId, BitmapId}, PendingId);
    }

    /** The middle of `create`: the set is inserted, then the stream in hand stored into
        it, which makes it the set's own. */
    method Enter(h: nat, bytes: seq<byte>, s: Stream, ghost rec: Rec) returns (error: Error, parent: Stream, slot: nat)
      requires cb > 0 && Node(h) && IsDir(h) && SetFor(count, cb, up, bytes, rec)
               && NameFree(up, dirs, DirAt(h).first, rec.entry.name)
      requires PendingId in lay.chain && PendingId in lay.heads && lay.heads[PendingId] == Head(s.first, s.contiguous)
      requires |lay.chain[PendingId]| == CeilDiv(s.length, cb) && s.valid <= s.length
      requires rec.entry.IsDirectory() ==>
               DirectoryStream(cb, s) && Bytes(PendingId) == Zeros(s.length) && s.length % 32 == 0
      requires Base() && Core({PendingId}, {})
      modifies `cursor, `fat, `data, `hint, `lay, `dirs, `root, `rank
      ensures Base() && error in {NoError, NoSpace}
      ensures error == NoError <==> old(HasRoom(h, rec.size))
      ensures !old(Full(Bytes(DirId(h)), rec.size)) ==> root == old(root) && Free() == old(Free())
      ensures error == NoError ==>
                && Core({}, {}) && Adds(old(T()), T(), parent.first, slot, rec.entry.(stream := s))
                && Evolves(old(T()), T()) && parent.first == old(DirAt(h)).first && parent.first < 0x1_0000_0000
                && slot <= MAX_SLOT
                && Handle(cb, T(), EncodeId(parent.first, slot, parent.contiguous))
                && (rec.entry.IsDirectory() ==> s.first in dirs && dirs[s.first] == map[])
                && StreamsKept(old(lay), old(data), lay, data, DirIds(old(T())) + {PendingId})
      ensures error == NoSpace ==>
                && Core({PendingId}, {}) && SameSets(old(T()), T()) && Evolves(old(T()), T())
                && StreamsKept(old(lay), old(data), lay, data, DirIds(old(T()))) && DirIds(T()) == DirIds(old(T()))
                && PendingId in lay.chain && PendingId in lay.heads
                && lay.heads[PendingId] == Head(s.first, s.contiguous)
                && |lay.chain[PendingId]| == CeilDiv(s.length, cb)
    {
      hide *;
      ghost var t0, lay0, data0 := T(), lay, data;
      TreeParts();
      CoreFacts({PendingId}, {});
      NotDirIds(cb, up, t0, {PendingId}, {});
      BytesAre(PendingId);
      ghost var mid;
      error, parent, slot, mid := Insert(h, bytes, rec, {PendingId});
      KeptOne(lay0, data0, lay, data, DirIds(t0), PendingId);
      KeptIs(lay0, data0, lay, data, PendingId);
      if error != NoError { return; }
      ghost var d, p, id, t1, data1 := parent.first, DirId(h), NodeId(parent.first, slot), T(), data;
      FreeNow();
      TreeParts();
      Constants();
      PlacedIs(mid, t1, parent, slot, rec);
      OpenedParts(parent, p);
      DirScan(parent, p, {PendingId}, {id});
      StreamReady(s, PendingId, {PendingId}, {id});
      StreamFits(count, cb, fat, s, lay.chain[PendingId]);
      BaseFacts();
      error := Store(parent, slot, s, d, lay.chain[p], {PendingId}, {id});
      if error != NoError { return; }
      CoreFacts({PendingId}, {id});
      TreeParts();
      KeptWrite(count, lay, data1, data, p);
      DirIdsIn(mid, d);
      KeptAgain(lay0, data0, lay, data1, lay, data, DirIds(t0), p);
      KeptOne(lay, data1, lay, data, {p}, PendingId);
      KeptOne(lay, data1, lay, data, {p}, BitmapId);
      FreeStays(lay, data1, {PendingId}, {id});
      FreeNow();
      PendingBytes(lay0, data0, DirIds(t0));
      StoredParts(t1, d, slot, s);
      ghost var t2, lay2 := T(), lay;
      NoDirIsPending({PendingId}, {id});
      ChainFrom(count, fat, lay, p);
      Adopt(d, slot, s);
      KeptOne(lay2, data, lay, data, {PendingId}, BitmapId);
      FreeStays(lay2, data, {}, {});
      KeptTwice(lay0, data0, lay2, data, lay, data, DirIds(t0), {PendingId});
      EnterOutcome(t0, mid, t1, t2, parent, slot, rec, s);
      TreeParts();
      EnterHandle(count, fat, cb, t2, parent, p, slot, rec.size);
    }

    /** The clusters in hand become those of the set just stored. */
    ghost method Adopt(d: nat, slot: nat, s: Stream)
      requires T().Has(d, slot) && T().At(d, slot).entry.stream == s && NodeId(d, slot) !in lay.chain
      requires PendingId in lay.chain && PendingId in lay.heads && lay.heads[PendingId] == Head(s.first, s.contiguous)
      requires cb > 0 && |lay.chain[PendingId]| == CeilDiv(s.length, cb)
      requires T().At(d, slot).entry.IsDirectory() ==>
               DirectoryStream(cb, s) && Bytes(PendingId) == Zeros(s.length) && s.length % 32 == 0
      requires Base() && Core({PendingId}, {NodeId(d, slot)})
      modifies `lay, `dirs, `rank
      ensures Base() && Core({}, {}) && StreamsKept(old(lay), data, lay, data, {PendingId})
      ensures d in old(rank) && old(T()).Has(d, slot) && PendingId in old(lay).chain && PendingId in old(lay).heads
      ensures T() == Adopted(old(T()), PendingId, d, slot)
      ensures old(T()).At(d, slot).entry.IsDirectory() ==> s.first !in old(dirs)
    {
      hide *;
      ghost var t, id := T(), NodeId(d, slot);
      TreeParts();
      CoreInv({PendingId}, {id});
      CoreFacts({PendingId}, {id});
      NoDirIsPending({PendingId}, {id});
      HasParts(t, d, slot);
      ShapeHome(cb, up, t, {PendingId}, {id}, d);
      HomedRank(t, d);
      BytesAre(PendingId);
      Constants();
      AdoptReady(cb, t, d, slot, s);
      AdoptableNew(cb, t, d, slot);
      ShapeAdopted(cb, up, t, PendingId, d, slot);
      AdoptedParts(t, PendingId, d, slot);
      LaidOutRenamed(PendingId, id);
      AdoptedDisk(count, cb, up, data, t, d, slot, s);
      KeptRenamed(count, lay, data, PendingId, id);
      Redraw(Adopted(t, PendingId, d, slot), {PendingId}, {id}, {}, {});
      TreeParts();
    }

    lemma BytesStay(lay0: Layout, data0: seq<seq<byte>>, id: Id)
      requires StreamsKept(lay0, data0, lay, data, {PendingId, BitmapId}) && id !in {PendingId, BitmapId}
               && id in lay0.chain
      requires DataOk(count, cb, data0) && DataOk(count, cb, data) && ChainsInHeap(count, lay0)
      ensures Bytes(id) == Held(count, cb, data0, lay0, id)
    {
      hide *;
      KeptOne(lay0, data0, lay, data, {PendingId, BitmapId}, id);
      ChainClusters(count, lay0, id);
      KeptHeld(count, cb, lay0, data0, lay, data, id);
      BytesAre(id);
    }

    lemma PendingBytes(lay0: Layout, data0: seq<seq<byte>>, touched: set<Id>)
      requires StreamsKept(lay0, data0, lay, data, touched) && PendingId !in touched && PendingId in lay0.chain
      requires DataOk(count, cb, data0) && DataOk(count, cb, data) && ChainsInHeap(count, lay0)
      ensures Bytes(PendingId) == Held(count, cb, data0, lay0, PendingId)
    {
      hide *;
      KeptOne(lay0, data0, lay, data, touched, PendingId);
      ChainClusters(count, lay0, PendingId);
      KeptHeld(count, cb, lay0, data0, lay, data, PendingId);
      BytesAre(PendingId);
    }

    // ---------------------------------------------------------------- new sets

    /** One File Name entry: fifteen units from `first` on, unused ones zero. */
    method NameEntry(name: seq<unit>, i: nat) returns (part: seq<byte>)
      requires i < NameEntries(|name|)
      ensures |part| == 32 && part == NameSlots(name)[i * 32..i * 32 + 32]
    {
      part := Zeros(32)[0 := 0xC1];
      var j := 0;
      while j < 15 && i * 15 + j < |name|
        invariant 0 <= j <= 15 && |part| == 32
        invariant forall k :: 0 <= k < 32 ==> part[k] == if k < 2 + 2 * j then NameByte(name, i * 32 + k) else 0
      {
        NameSlot(name, i, j);
        part := part[2 + j * 2 := name[i * 15 + j] % 256][3 + j * 2 := name[i * 15 + j] / 256];
        j := j + 1;
      }
      forall k | 0 <= k < 32 ensures part[k] == NameByte(name, i * 32 + k) {
        NameRest(name, i, j, k);
      }
    }

    /** All the File Name entries of a name. */
    method BuildName(name: seq<unit>) returns (bytes: seq<byte>)
      ensures bytes == NameSlots(name)
    {
      bytes := [];
      var i := 0;
      while i < NameEntries(|name|)
        invariant 0 <= i <= NameEntries(|name|) && bytes == NameSlots(name)[..i * 32]
      {
        var part := NameEntry(name, i);
        bytes := bytes + part;
        i := i + 1;
      }
    }

    /** The whole set `create` writes, its stream fields still zero. */
    method BuildSet(name: seq<unit>, attributes: nat) returns (bytes: seq<byte>)
      requires LegalName(name) && attributes < 0x1_0000 && cb > 0
      ensures SetFor(count, cb, up, bytes,
                     Rec(Entry(Stream(0, 0, 0, false), attributes, name), 2 + NameEntries(|name|)))
    {
      hide *;
      LegalLength(name);
      Constants();
      var hash := HashName(name);
      var head := NewHead(|name|, attributes, hash);
      var parts := BuildName(name);
      bytes := Summed(head + parts);
      EmptyStreamOk(count, cb);
      AssembledSet(count, cb, up, head, name);
      SetForMake(count, cb, up, bytes, Rec(Entry(Stream(0, 0, 0, false), attributes, name), 2 + NameEntries(|name|)));
    }

    /** The File and Stream Extension entries of a new set. */
    method NewHead(length: nat, attributes: nat, hash: nat) returns (head: seq<byte>)
      requires 1 <= length <= 255 && attributes < 0x1_0000 && hash < 0x1_0000
      ensures |head| == 64 && head[0] == 0x85 && head[1] == 1 + NameEntries(length) && head[32] == 0xC0
              && head[35] == length
      ensures Le16(head, 4) == attributes && Le16(head, 36) == hash && StreamOf(head) == Stream(0, 0, 0, false)
    {
      var entries := 2 + NameEntries(length);
      assert 3 <= entries <= 19;
      hide Put16, Put32, Le16, StreamOf, NameEntries, Splice, Zeros;
      var set0: seq<byte> := Zeros(64)[0 := 0x85][1 := entries - 1];
      var set1: seq<byte> := Splice(set0, 4, Put16(attributes));
      var set2: seq<byte> := Splice(Splice(Splice(set1, 8, Put32(EPOCH)), 12, Put32(EPOCH)), 16, Put32(EPOCH));
      var set3: seq<byte> := set2[32 := 0xC0][35 := length];
      head := Splice(set3, 36, Put16(hash));
      Le16Put(set0, 4, attributes);
      Le16Put(set3, 36, hash);
      Le16Same(set1, head, 4);
      ZeroStreamFields(head);
    }

    /** An identifier outlives a change to streams that are no directory's. */
    lemma StaysPut(t: Tree, h: nat)
      requires cb > 0 && dirs == t.dirs && root == t.root && Evolves(t, T()) && OwnersOk(lay)
               && lay.heads.Keys == lay.chain.Keys
      requires forall d :: d in dirs ==> d in lay.owner
      requires h == ROOT_ID || Handle(cb, t, h)
      ensures Node(h) && IsDir(h) == DirNamed(t, h) && DirAt(h) == DirStreamIn(t, h)
    {
      if h != ROOT_ID { HandleKept(cb, t, T(), h); }
      hide Handle, Evolves, OwnersOk;
    }

    lemma NamesDir(h: nat)
      ensures IsDir(h) == DirNamed(T(), h) && DirAt(h) == DirStreamIn(T(), h)
    {
    }

    /** The stream a new node starts with: nothing for a file, one zeroed cluster for a
        directory. */
    method Prepare(directory: bool) returns (error: Error, s: Stream)
      requires Base() && Core({}, {})
      modifies `cursor, `fat, `data, `hint, `lay, `dirs, `rank
      ensures Base() && error in {NoError, NoSpace} && dirs == old(dirs) && rank == old(rank) && cb > 0
      ensures error == NoError ==>
                && Core({PendingId}, {}) && PendingId in lay.chain && PendingId in lay.heads
                && lay.heads[PendingId] == Head(s.first, s.contiguous)
                && |lay.chain[PendingId]| == CeilDiv(s.length, cb) == CurrentClusters(s, cb) && s.valid == s.length
                && (if directory
                    then s.length == cb && DirectoryStream(cb, s) && cb % 32 == 0 && Bytes(PendingId) == Zeros(s.length)
                    else s == Stream(0, 0, 0, false))
                && StreamsKept(old(lay), old(data), lay, data, {PendingId, BitmapId})
      ensures error == NoSpace ==>
              directory && Core({}, {}) && T() == old(T()) && StreamsKept(old(lay), old(data), lay, data, {BitmapId})
      ensures error == NoSpace <==> directory && old(Free()) == 0
      ensures error == NoError ==> Free() + (if directory then 1 else 0) == old(Free())
    {
      hide *;
      TreeParts();
      CoreFacts({}, {});
      NoClusters(cb);
      ghost var t0, lay0, data0 := T(), lay, data;
      FreeNow();
      BeginPending();
      KeptOne(lay0, data0, lay, data, {}, BitmapId);
      CoreFacts({PendingId}, {});
      FreeKept(lay0, data0);
      ghost var lay1 := lay;
      TreeParts();
      s := Stream(0, 0, 0, false);
      error := NoError;
      KeptMore(lay0, data0, lay, data, {}, {PendingId, BitmapId});
      if directory {
        error, s := NewDirectory();
        if error != NoError {
          ghost var data1 := data;
          KeptTwice(lay0, data0, lay1, data0, lay, data, {}, {BitmapId});
          EndPending();
          TreeParts();
          AddedDropped(lay0);
          SameTree(T(), t0);
          assert {} + {BitmapId} == {BitmapId};
          KeptStill(lay0, data0, lay1, data, {BitmapId});
        } else {
          InHandIs(s, 1, lay1);
          OneCluster(s, cb);
          StreamReady(s, PendingId, {PendingId}, {});
          EmptyStream(count, cb, fat, s, lay.chain[PendingId]);
          KeptTwice(lay0, data0, lay1, data0, lay, data, {}, {PendingId, BitmapId});
          assert {} + {PendingId, BitmapId} == {PendingId, BitmapId};
        }
      } else {
        NoLength(cb);
      }
    }

    lemma FreeNow()
      ensures Free() == FreeIn(count, cb, bitmap.length, lay, data)
    {
    }

    lemma FreeStays(lay0: Layout, data0: seq<seq<byte>>, extra: set<Id>, skip: set<Id>)
      requires DataOk(count, cb, data0) && Kept(lay0, data0, lay, data, BitmapId) && Core(extra, skip)
      ensures Free() == FreeIn(count, cb, bitmap.length, lay0, data0)
    {
      hide *;
      CoreFacts(extra, skip);
      FreeKept(lay0, data0);
    }

    /** While the bitmap is left alone, the free clusters stay as many. */
    lemma FreeKept(lay0: Layout, data0: seq<seq<byte>>)
      requires DataOk(count, cb, data0) && DataOk(count, cb, data) && Kept(lay0, data0, lay, data, BitmapId)
      ensures Free() == FreeIn(count, cb, bitmap.length, lay0, data0)
    {
      FreeSame(count, cb, bitmap.length, lay0, data0, lay, data);
    }

    /** The tail of `create`, once the name is known to be new: a cluster for a
        directory, the set, and the stream stored into it. */
    method CreateNew(h: nat, name: seq<unit>, directory: bool)
      returns (error: Error, parent: Stream, slot: nat, s: Stream)
      requires cb > 0 && Node(h) && IsDir(h) && LegalName(name) && NameFree(up, dirs, DirAt(h).first, name)
      requires Base() && Core({}, {})
      modifies `cursor, `fat, `data, `hint, `lay, `dirs, `root, `rank
      ensures Valid() && error in {NoError, NoSpace} && Evolves(old(T()), T())
      ensures error == NoError ==>
                && Adds(old(T()), T(), parent.first, slot, Entry(s, if directory then 0x10 else 0x20, name))
                && parent.first == old(DirAt(h)).first
                && Handle(cb, T(), EncodeId(parent.first, slot, parent.contiguous))
                && parent.first < 0x1_0000_0000 && slot <= MAX_SLOT
                && (if directory then s.first in dirs && dirs[s.first] == map[] && s.length == cb
                    else s == Stream(0, 0, 0, false))
      ensures error == NoSpace ==> SameSets(old(T()), T())
      ensures FilesKept(count, cb, old(T()), old(data), T(), data, {})
      ensures error == NoError <==> old(CreateFits(h, 2 + NameEntries(|name|), directory))
      ensures error == NoError && !old(Full(Bytes(DirId(h)), 2 + NameEntries(|name|))) ==>
                root == old(root) && Free() + (if directory then 1 else 0) == old(Free())
    {
      hide *;
      ghost var t0, data0 := T(), data;
      CreateFitsIs(h, 2 + NameEntries(|name|), directory);
      RoomWithIs(h, 2 + NameEntries(|name|), if directory then Free() - 1 else Free());
      DirReady(h, {}, {});
      OpenedParts(DirAt(h), DirId(h));
      BytesAre(DirId(h));
      TreeParts();
      NamesDir(h);
      NodeIs(h);
      CoreFacts({}, {});
      NoDirIsBitmap({}, {});
      NoDirIsPending({}, {});
      parent, slot := Stream(0, 0, 0, false), 0;
      error, s := Prepare(directory);
      TreeParts();
      if error != NoError {
        SetsSame(t0, t0.lay, t0.root);
        SameTree(t0, t0.(lay := t0.lay, root := t0.root));
        EvolvesSame(t0);
        FilesAside(count, cb, up, t0, data0, data);
        MakeValid();
        return;
      }
      ghost var tB, dataB := T(), data;
      CoreFacts({PendingId}, {});
      EvolvesKept(t0, tB, data0, dataB, {PendingId, BitmapId});
      StaysPut(t0, h);
      BytesStay(t0.lay, data0, DirId(h));
      HasRoomIs(h, 2 + NameEntries(|name|));
      RoomWithIs(h, 2 + NameEntries(|name|), Free());
      error, parent, slot := Finish(h, name, directory, s, t0, data0);
    }

    /** The set entered into the directory, or the stream given up again. */
    method Finish(h: nat, name: seq<unit>, directory: bool, s: Stream, ghost t0: Tree, ghost data0: seq<seq<byte>>)
      returns (error: Error, parent: Stream, slot: nat)
      requires cb > 0 && Node(h) && IsDir(h) && LegalName(name) && NameFree(up, dirs, DirAt(h).first, name)
      requires PendingId in lay.chain && PendingId in lay.heads && lay.heads[PendingId] == Head(s.first, s.contiguous)
      requires |lay.chain[PendingId]| == CeilDiv(s.length, cb) == CurrentClusters(s, cb) && s.valid == s.length
      requires if directory then DirectoryStream(cb, s) && s.length % 32 == 0 && Bytes(PendingId) == Zeros(s.length)
               else s == Stream(0, 0, 0, false)
      requires DataOk(count, cb, data0) && ChainsInHeap(count, t0.lay) && Shape(cb, up, t0, {}, {})
      requires dirs == t0.dirs && Evolves(t0, T()) && DirIds(T()) == DirIds(t0)
      requires StreamsKept(t0.lay, data0, lay, data, {PendingId, BitmapId})
      requires Base() && Core({PendingId}, {})
      modifies `cursor, `fat, `data, `hint, `lay, `dirs, `root, `rank
      ensures Valid() && error in {NoError, NoSpace} && Evolves(t0, T())
      ensures error == NoError ==>
                && Adds(t0, T(), parent.first, slot, Entry(s, if directory then 0x10 else 0x20, name))
                && parent.first == old(DirAt(h)).first
                && Handle(cb, T(), EncodeId(parent.first, slot, parent.contiguous))
                && parent.first < 0x1_0000_0000 && slot <= MAX_SLOT
                && (directory ==> s.first in dirs && dirs[s.first] == map[])
      ensures error == NoSpace ==> SameSets(t0, T())
      ensures FilesKept(count, cb, t0, data0, T(), data, {})
      ensures error == NoError <==> old(HasRoom(h, 2 + NameEntries(|name|)))
      ensures !old(Full(Bytes(DirId(h)), 2 + NameEntries(|name|))) && error == NoError ==>
                root == old(root) && Free() == old(Free())
    {
      hide *;
      ghost var tB, dataB := T(), data;
      TreeParts();
      CoreFacts({PendingId}, {});
      var attributes := if directory then 0x10 else 0x20;
      KindOf(s, name);
      var bytes := BuildSet(name, attributes);
      ghost var rec := Rec(Entry(Stream(0, 0, 0, false), attributes, name), 2 + NameEntries(|name|));
      error, parent, slot := Enter(h, bytes, s, rec);
      if error == NoError {
        MakeValid();
        CoreFacts({}, {});
        TreeParts();
        CreateDone(count, cb, up, t0, data0, tB, dataB, T(), data, parent.first, slot, Entry(s, attributes, name));
      } else {
        Abandon(s, t0, data0, tB, dataB);
      }
    }

    /** The undo of `create` when its set finds no room: the clusters in hand go back. */
    method Abandon(s: Stream, ghost t: Tree, ghost data0: seq<seq<byte>>, ghost t1: Tree, ghost data1: seq<seq<byte>>)
      requires PendingId in lay.chain && PendingId in lay.heads && lay.heads[PendingId] == Head(s.first, s.contiguous)
      requires cb > 0 && |lay.chain[PendingId]| == CurrentClusters(s, cb)
      requires DataOk(count, cb, data0) && ChainsInHeap(count, t.lay) && Shape(cb, up, t, {}, {})
      requires t1.dirs == t.dirs && Evolves(t, t1) && DirIds(t1) == DirIds(t) && OwnersOk(t1.lay)
               && t1.lay.heads.Keys == t1.lay.chain.Keys
      requires forall d :: d in t1.dirs ==> d in t1.lay.owner
      requires SameSets(t1, T()) && Evolves(t1, T())
      requires StreamsKept(t.lay, data0, t1.lay, data1, {PendingId, BitmapId})
               && StreamsKept(t1.lay, data1, lay, data, DirIds(t1))
      requires Base() && Core({PendingId}, {})
      modifies `cursor, `fat, `data, `hint, `lay, `dirs, `rank
      ensures Valid() && SameSets(t, T()) && Evolves(t, T()) && FilesKept(count, cb, t, data0, T(), data, {})
    {
      hide *;
      ghost var t2, data2 := T(), data;
      TreeParts();
      CoreFacts({PendingId}, {});
      NoDirIsBitmap({PendingId}, {});
      NoDirIsPending({PendingId}, {});
      Discard(s);
      ValidParts();
      CoreFacts({}, {});
      TreeParts();
      EvolvesKept(t2, T(), data2, data, {PendingId, BitmapId});
      CreateUndone(count, cb, up, t, data0, t1, data1, t2, data2, T(), data);
    }

    // -------------------------------------------------------------------- nodes

    /** `to_node`: what a caller is told of a set. */
    method ToNode(parent: Stream, slot: nat, entry: Entry) returns (node: Option<NodeInfo>)
      ensures node == NodeFor(parent, slot, entry)
    {
      if slot > MAX_SLOT { return None; }
      var buffer := new byte[256](_ => 0);
      var ok := Utf16ToUtf8(entry.name, buffer);
      if !ok { return None; }
      ghost var name := Encode(entry.name);
      var length := 0;
      while buffer[length] != 0
        invariant 0 <= length <= |name| && buffer[..|name|] == name && buffer[|name|] == 0 && |name| < 256
        decreases |name| - length
      {
        length := length + 1;
      }
      EncodeNullFree(entry.name);
      assert length == |name|;
      return Some(NodeInfo(EncodeId(parent.first, slot, parent.contiguous),
                           if entry.IsDirectory() then Directory
                              else RegularFile, entry.stream.length, buffer[..length]));
    }

    /** `find` in a directory in hand. */
    method Seek(s: Stream, name: seq<byte>, ghost p: Id, ghost extra: set<Id>, ghost skip: set<Id>)
      returns (hit: Option<Hit>)
      requires Opened(s, p) && NullFree(name)
      requires Base() && Core(extra, skip)
      modifies `cursor
      ensures Base() && Core(extra, skip) && s.first in dirs && Finds(up, dirs[s.first], Wanted(name), hit)
    {
      hide *;
      OpenedParts(s, p);
      DirScan(s, p, extra, skip);
      Constants();
      hit := Find(s, name, lay.chain[p], dirs[s.first]);
    }

    /** The checks `create` makes before it changes anything. */
    ghost function CreateCheck(h: nat, name: seq<byte>, kind: NodeType): Error
      reads `root, `lay, `dirs, `rank
    {
      if !writable then ReadOnly
      else if kind != RegularFile && kind != Directory then Unsupported
      else if !IsDir(h) then NotFound
      else if !GoodName(name) then InvalidArgument
      else if !NameFree(up, dirs, DirAt(h).first, Wanted(name).value) then AlreadyExists
      else NoError
    }

    lemma CreateCheckIs(h: nat, name: seq<byte>, kind: NodeType)
      ensures CreateCheck(h, name, kind) ==
              if !writable then ReadOnly
              else if kind != RegularFile && kind != Directory then Unsupported
              else if !IsDir(h) then NotFound
              else if !GoodName(name) then InvalidArgument
              else if !NameFree(up, dirs, DirAt(h).first, Wanted(name).value) then AlreadyExists
              else NoError
    {
      hide IsDir, DirAt, NameFree, Wanted, LegalName;
    }

    /** The checks of `create`, in order. */
    method CheckCreate(h: nat, name: seq<byte>, kind: NodeType) returns (error: Error, units: seq<unit>)
      requires cb > 0 && Node(h) && NullFree(name) && Valid()
      modifies `cursor
      ensures Valid() && error == CreateCheck(h, name, kind) && error != NoSpace
      ensures error == NoError ==>
                && IsDir(h) && GoodName(name) && Wanted(name) == Some(units) && LegalName(units)
                && NameFree(up, dirs, DirAt(h).first, units) && (kind == RegularFile || kind == Directory)
    {
      hide *;
      CreateCheckIs(h, name, kind);
      units := [];
      if !writable { error := ReadOnly; return; }
      if kind != RegularFile && kind != Directory { error := Unsupported; return; }
      var place := OpenDir(h);
      if place.None? { error := NotFound; return; }
      var decoded := DecodeName(name);
      GoodNameIs(name);
      if decoded.None? { error := InvalidArgument; return; }
      units := decoded.value;
      var legal := CheckName(units);
      if !legal { error := InvalidArgument; return; }
      var existing := SeekIn(place.value, name, DirId(h));
      FindsName(up, dirs, DirAt(h).first, units, existing);
      error := if existing.Some? then AlreadyExists else NoError;
    }

    /** `create`: exactly one set is added, with the name decoded from the path, and the
        node returned names it.  A name too long for a node's buffer is an error, but
        the set is there all the same. */
    method Create(h: nat, name: seq<byte>, kind: NodeType)
      returns (error: Error, node: Option<NodeInfo>, ghost slot: nat, ghost s: Stream)
      requires cb > 0 && Node(h) && NullFree(name) && Valid()
      modifies `cursor, `fat, `data, `hint, `lay, `dirs, `root, `rank
      ensures Valid() && Evolves(old(T()), T()) && FilesKept(count, cb, old(T()), old(data), T(), data, {})
      ensures var check := old(CreateCheck(h, name, kind));
              if check != NoError then error == check && node.None? && T() == old(T())
              else error == NoSpace || error == if |name| <= 255 then NoError else InvalidArgument
      ensures old(CreateCheck(h, name, kind)) == NoError && error != NoSpace ==>
                && GoodName(name)
                && Adds(old(T()), T(), old(DirAt(h)).first, slot,
                        Entry(s, if kind == Directory then 0x10 else 0x20, Wanted(name).value))
                && (if kind == Directory then s.first in dirs && dirs[s.first] == map[]
                    else s == Stream(0, 0, 0, false))
      ensures error == NoError ==>
                && node.Some? && node.value.name == name && node.value.kind == kind && node.value.size == s.length
                && Handle(cb, T(), node.value.id) && IdFirst(node.value.id) == old(DirAt(h)).first
                && IdSlot(node.value.id) == slot
      ensures error == NoSpace ==> node.None? && SameSets(old(T()), T())
      ensures old(CreateCheck(h, name, kind)) == NoError ==>
                (error != NoSpace <==> old(CreateFits(h, SlotsFor(name), kind == Directory)))
      ensures old(CreateCheck(h, name, kind)) == NoError && error != NoSpace
              && !old(Full(Bytes(DirId(h)), SlotsFor(name))) ==>
                root == old(root) && Free() + (if kind == Directory then 1 else 0) == old(Free())
    {
      hide *;
      ghost var t0, data0 := T(), data;
      node, slot, s := None, 0, Stream(0, 0, 0, false);
      EvolvesSame(t0);
      FilesSame(count, cb, t0, data0, {});
      var units;
      error, units := CheckCreate(h, name, kind);
      if error != NoError { return; }
      ValidParts();
      var parent, at, made;
      SlotsForIs(name);
      error, parent, at, made := CreateNew(h, units, kind == Directory);
      slot, s := at, made;
      if error != NoError { return; }
      node := ToNode(parent, at, Entry(made, if kind == Directory then 0x10 else 0x20, units));
      NodeOfName(parent, at, made, kind, name);
      if node.None? { error := InvalidArgument; }
    }

    /** A directory's set names one of the tree's directories. */
    lemma SetOpened(d: nat, s: nat, extra: set<Id>, skip: set<Id>)
      requires T().Has(d, s) && T().At(d, s).entry.IsDirectory() && NodeId(d, s) !in skip && Core(extra, skip)
      ensures Opened(T().At(d, s).entry.stream, NodeId(d, s))
    {
      CoreFacts(extra, skip);
      TreeParts();
      var t := T();
      ShapeNode(cb, up, t, extra, skip, d, s);
      hide Core, Shape, OnDisk, ChainsOk;
      OpenedDir(cb, t, t.At(d, s).entry.stream, NodeId(d, s));
    }

    /** The emptiness test of `remove`. */
    method IsEmpty(s: Stream, ghost p: Id) returns (empty: bool)
      requires Opened(s, p)
      requires Base() && Core({}, {})
      modifies `cursor
      ensures Base() && Core({}, {}) && s.first in dirs && (empty <==> dirs[s.first] == map[])
    {
      hide *;
      OpenedParts(s, p);
      DirScan(s, p, {}, {});
      Constants();
      NoneKnown(s, 0, lay.chain[p]);
      SlotBound(Content(count, cb, data, lay.chain[p]), s.length);
      NextInDir(count, cb, up, Content(count, cb, data, lay.chain[p]), dirs[s.first], 0);
      var child := NextEntry(s, 0, lay.chain[p], None);
      NoSets(dirs[s.first]);
      return child.None?;
    }

    /** The set erased, then its clusters freed. */
    method RemoveSet(parent: Stream, slot: nat, entry: Entry, ghost p: Id) returns (error: Error)
      requires Opened(parent, p) && T().Has(parent.first, slot) && T().At(parent.first, slot).entry == entry
      requires entry.IsDirectory() ==> entry.stream.first in dirs && dirs[entry.stream.first] == map[]
      requires Base() && Core({}, {})
      modifies `cursor, `fat, `data, `hint, `lay, `dirs, `rank
      ensures Valid() && error == NoError && Removes(old(T()), T(), parent.first, slot) && Evolves(old(T()), T())
      ensures FilesKept(count, cb, old(T()), old(data), T(), data, {})
    {
      hide *;
      ghost var t0, data0, d, id := T(), data, parent.first, NodeId(parent.first, slot);
      TreeParts();
      OpenedParts(parent, p);
      CoreFacts({}, {});
      DirScan(parent, p, {}, {});
      ghost var gone: set<nat> := if entry.IsDirectory() then {entry.stream.first} else {};
      HasParts(t0, d, slot);
      RemovableMake(t0, d, slot);
      ShapeRemoved(cb, up, t0, d, slot);
      WithoutRedrawn(d, slot, gone);
      SetRoom(d, slot, p, {}, {});
      error := Erase(parent, slot, d, lay.chain[p], gone, {}, {}, {id}, {});
      if error != NoError { return; }
      TreeParts();
      WithoutIs(t0, T(), d, slot, gone);
      CoreFacts({id}, {});
      KeptWrite(count, lay, data0, data, p);
      DirIdsIn(t0, d);
      KeptMore(lay, data0, lay, data, {p}, DirIds(t0));
      error := FreeRemoved(entry.stream, d, slot, t0, data0);
    }

    lemma WithoutRedrawn(d: nat, slot: nat, gone: set<nat>)
      requires T().Has(d, slot) && d in dirs
      requires gone == if T().At(d, slot).entry.IsDirectory() then {T().At(d, slot).entry.stream.first} else {}
      ensures Redrawn(d, dirs[d] - {slot}, gone) == Without(T(), d, slot)
    {
      var ents: map<nat, Rec> := dirs[d] - {slot};
      assert dirs[d := ents] - {} == dirs[d := ents];
    }

    /** A set lies within its directory. */
    lemma SetRoom(d: nat, slot: nat, p: Id, extra: set<Id>, skip: set<Id>)
      requires d in dirs && slot in dirs[d] && d in lay.owner && lay.owner[d].id == p && p in lay.chain
               && Core(extra, skip)
      ensures cb > 0 && (slot + dirs[d][slot].size) * ENTRY_BYTES <= |lay.chain[p]| * cb
      ensures 3 <= dirs[d][slot].size <= MAX_SET
    {
      hide *;
      CoreFacts(extra, skip);
      TreeParts();
      DirChainIs(T(), d);
      HereOf(count, cb, up, data, T(), d);
      SetOf(count, cb, up, Content(count, cb, data, lay.chain[p]), dirs[d], slot);
      Fits(Content(count, cb, data, lay.chain[p]), slot, dirs[d][slot].size);
      Room(slot, dirs[d][slot].size);
    }

    /** The clusters of a set just erased go back to the bitmap. */
    method FreeRemoved(s: Stream, ghost d: nat, ghost slot: nat, ghost t0: Tree, ghost data0: seq<seq<byte>>)
      returns (error: Error)
      requires Removable(t0, d, slot) && t0.At(d, slot).entry.stream == s && T() == Without(t0, d, slot)
      requires cb > 0 && Shape(cb, up, t0, {}, {}) && DataOk(count, cb, data0) && ChainsInHeap(count, t0.lay)
      requires StreamsKept(t0.lay, data0, lay, data, DirIds(t0))
      requires Base() && Core({NodeId(d, slot)}, {})
      modifies `cursor, `fat, `data, `hint, `lay, `dirs, `rank
      ensures Valid() && error == NoError && Removes(t0, T(), d, slot) && Evolves(t0, T())
      ensures FilesKept(count, cb, t0, data0, T(), data, {})
    {
      hide *;
      ghost var id, t1, data1 := NodeId(d, slot), T(), data;
      TreeParts();
      WithoutFacts(t0, d, slot);
      RemovableHas(t0, d, slot);
      ShapeOf(cb, up, t0, {}, {});
      ShapeNode(cb, up, t0, {}, {}, d, slot);
      NodeParts(cb, t0, d, slot);
      WithoutOwners(cb, up, t0, d, slot);
      CoreFacts({id}, {});
      ChainFrom(count, fat, lay, id);
      EmptyStream(count, cb, fat, s, lay.chain[id]);
      var s1;
      error, s1 := ResizeFile(s, 0, id, {id}, {});
      TreeIs(t1, lay);
      LayHas(t1, lay, d, slot);
      assert {} + {id} == {id};
      CoreUnskipGone({id}, d, slot);
      ghost var lay2 := lay;
      ReshapedParts(t1.lay, id, Head(s1.first, s1.contiguous), []);
      CoreFacts({id}, {});
      OwnersStill(t1, lay, id, []);
      UnknownGone(T(), d, slot);
      Forget(id);
      MakeValid();
      CoreFacts({}, {});
      TreeParts();
      KeptDropped(count, lay2, data, id);
      KeptTwice(t0.lay, data0, t0.lay, data1, lay2, data, DirIds(t0), {id, BitmapId});
      KeptTwice(t0.lay, data0, lay2, data, lay, data, DirIds(t0) + {id, BitmapId}, {id});
      BitmapInDirIds(t0);
      KeptMore(t0.lay, data0, lay, data, DirIds(t0) + {id, BitmapId} + {id}, DirIds(t0) + {id});
      RemoveOutcome(t0, T(), lay2, Head(s1.first, s1.contiguous), d, slot);
      FilesRemoved(count, cb, up, t0, data0, T(), data, d, slot);
    }

    lemma CoreUnskipGone(extra: set<Id>, d: nat, s: nat)
      requires !T().Has(d, s) && Core(extra, {NodeId(d, s)})
      ensures Core(extra, {})
    {
      ShapeUnskipGone(cb, up, T(), extra, d, s);
      hide Shape, OnDisk, LayoutOk, ChainsInHeap, HeadsOk;
    }

    /** A stream without clusters that nobody owns, forgotten. */
    ghost method Forget(id: Id)
      requires id in lay.chain && lay.chain[id] == [] && id != BitmapId && !Known(T(), {}, id)
      requires forall d :: d in dirs ==> d in lay.owner && lay.owner[d].id != id
      requires Base() && Core({id}, {})
      modifies `lay, `dirs, `rank
      ensures Base() && Core({}, {}) && T() == old(T()).(lay := Dropped(old(lay), id))
    {
      hide *;
      TreeParts();
      CoreInv({id}, {});
      CoreFacts({id}, {});
      ShapeForgotten(cb, up, T(), id);
      LaidOutDropped(id);
      DroppedDisk(count, cb, up, data, T(), id);
      Redraw(T().(lay := Dropped(lay, id)), {id}, {}, {}, {});
    }

    /** `remove`: exactly one set goes, the one of that name, and only if it is not a
        directory with sets in it. */
    method Remove(h: nat, name: seq<byte>) returns (error: Error, ghost slot: nat)
      requires cb > 0 && Node(h) && NullFree(name) && Valid()
      modifies `cursor, `fat, `data, `hint, `lay, `dirs, `rank
      ensures Valid() && Evolves(old(T()), T()) && FilesKept(count, cb, old(T()), old(data), T(), data, {})
      ensures error == ReadOnly <==> !writable
      ensures error == NotFound <==> writable && !(old(IsDir(h)) && Listed(up, old(dirs), old(DirAt(h)).first, name))
      ensures error in {NoError, NotEmpty} ==> Named(up, old(dirs), old(DirAt(h)).first, name, slot)
      ensures error in {NoError, ReadOnly, NotFound, NotEmpty} && (error != NoError ==> T() == old(T()))
      ensures error == NotEmpty ==> Occupied(old(dirs), old(DirAt(h)).first, slot)
      ensures error == NoError ==>
              Removes(old(T()), T(), old(DirAt(h)).first, slot) && !Occupied(old(dirs), old(DirAt(h)).first, slot)
    {
      hide *;
      ghost var t0, data0 := T(), data;
      slot := 0;
      ValidParts();
      EvolvesSame(t0);
      FilesSame(count, cb, t0, data0, {});
      if !writable { error := ReadOnly; return; }
      var place := OpenDir(h);
      if place.None? { error := NotFound; return; }
      var parent := place.value;
      var hit := SeekIn(parent, name, DirId(h));
      if hit.None? { error := NotFound; return; }
      var entry := hit.value.rec.entry;
      slot := hit.value.slot;
      ValidParts();
      TreeParts();
      OccupiedIs(dirs, parent.first, slot);
      if entry.IsDirectory() {
        SetOpened(parent.first, slot, {}, {});
        var empty := IsEmpty(entry.stream, NodeId(parent.first, slot));
        MakeValid();
        if !empty { error := NotEmpty; return; }
      }
      error := RemoveSet(parent, hit.value.slot, entry, DirId(h));
    }

    // ----------------------------------------------------------------- renaming

    /** The new set of `rename`: the old File and Stream Extension entries, a new name. */
    method RebuildSet(s: Stream, slot: nat, name: seq<unit>, ghost p: Id) returns (ok: bool, bytes: seq<byte>)
      requires Opened(s, p) && T().Has(s.first, slot) && LegalName(name)
      requires Base() && Core({}, {})
      modifies `cursor
      ensures Base() && Core({}, {}) && ok
      ensures SetFor(count, cb, up, bytes, Rec(T().At(s.first, slot).entry.(name := name), 2 + NameEntries(|name|)))
    {
      hide *;
      bytes := [];
      OpenedParts(s, p);
      TreeParts();
      HasParts(T(), s.first, slot);
      DirScan(s, p, {}, {});
      Constants();
      LegalLength(name);
      ghost var content, rec := Content(count, cb, data, lay.chain[p]), dirs[s.first][slot];
      SetOf(count, cb, up, content, dirs[s.first], slot);
      SetRoom(s.first, slot, p, {}, {});
      HeadRoom(slot, rec.size, s.length);
      var head := ReadSlots(s, slot, 2, lay.chain[p]);
      if |head| != 64 { return false, bytes; }
      SetHead(count, cb, up, content, slot, rec, head);
      var hash := HashName(name);
      var head1 := Retitle(head, |name|, hash);
      var parts := BuildName(name);
      bytes := Summed(head1 + parts);
      AssembledSet(count, cb, up, head1, name);
      SetForMake(count, cb, up, bytes, Rec(rec.entry.(name := name), 2 + NameEntries(|name|)));
      return true, bytes;
    }

    /** The old head with the new name's length and hash. */
    method Retitle(head: seq<byte>, length: nat, hash: nat) returns (head1: seq<byte>)
      requires |head| == 64 && head[0] == 0x85 && head[32] == 0xC0 && 1 <= length <= 255 && hash < 0x1_0000
      ensures |head1| == 64 && head1[0] == 0x85 && head1[1] == 1 + NameEntries(length) && head1[32] == 0xC0
              && head1[35] == length
      ensures Le16(head1, 4) == Le16(head, 4) && Le16(head1, 36) == hash && StreamOf(head1) == StreamOf(head)
    {
      var entries := 2 + NameEntries(length);
      assert 3 <= entries <= 19;
      hide Put16, Le16, StreamOf, NameEntries, Splice;
      var patched: seq<byte> := head[1 := entries - 1][35 := length];
      head1 := Splice(patched, 36, Put16(hash));
      Le16Put(patched, 36, hash);
      Le16Same(head, head1, 4);
      SameStreamFields(head, head1);
    }

    /** The clusters of the old set become the new one's, while both are on disk. */
    ghost method Transfer(d1: nat, s1: nat, d2: nat, s2: nat)
      requires cb > 0 && Movable(cb, T(), d1, s1, d2, s2)
      requires Base() && Core({}, {NodeId(d2, s2)})
      modifies `lay, `dirs, `rank
      ensures Base() && Core({}, {NodeId(d1, s1)}) && Movable(cb, old(T()), d1, s1, d2, s2)
      ensures T() == Relabelled(old(T()), d1, s1, d2, s2)
    {
      hide *;
      ghost var t, from, to := T(), NodeId(d1, s1), NodeId(d2, s2);
      TreeParts();
      MovableParts(cb, t, d1, s1, d2, s2);
      CoreInv({}, {to});
      CoreFacts({}, {to});
      ShapeRelabelled(cb, up, t, d1, s1, d2, s2);
      RelabelledDisk(count, cb, up, data, t, d1, s1, d2, s2);
      LaidOutRenamed(from, to);
      RelabelledParts(t, d1, s1, d2, s2);
      Redraw(Relabelled(t, d1, s1, d2, s2), {}, {to}, {}, {from});
    }

    /** The new set of `rename` inserted and stored. */
    method PutNew(h: nat, bytes: seq<byte>, s: Stream, ghost rec: Rec)
      returns (error: Error, ghost parent: Stream, ghost slot: nat, ghost mid: Tree)
      requires cb > 0 && Node(h) && IsDir(h) && SetFor(count, cb, up, bytes, rec)
               && NameFree(up, dirs, DirAt(h).first, rec.entry.name)
      requires rec.entry.stream == s && Storable(s) && ContentOk(count, cb, s)
      requires Base() && Core({}, {})
      modifies `cursor, `fat, `data, `hint, `lay, `dirs, `root
      ensures Base() && error in {NoError, NoSpace}
      ensures error == NoError ==>
                && parent.first == old(DirAt(h)).first && Placed(mid, T(), parent, slot, rec)
                && Core({}, {NodeId(parent.first, slot)}) && NodeId(parent.first, slot) !in lay.chain
      ensures error == NoSpace ==> Core({}, {}) && mid == T()
      ensures SameSets(old(T()), mid) && OthersSame(old(T()), mid, DirId(h)) && Evolves(old(T()), mid)
      ensures mid.rank == old(rank) && DirIds(mid) == DirIds(old(T()))
      ensures StreamsKept(old(lay), old(data), lay, data, DirIds(old(T())))
      ensures error == NoError <==> old(HasRoom(h, rec.size))
    {
      hide *;
      ghost var t0, lay0, data0 := T(), lay, data;
      TreeParts();
      var at, where;
      error, where, at, mid := Insert(h, bytes, rec, {});
      parent, slot := where, at;
      if error != NoError { return; }
      ghost var d, p, id, t1, data1 := where.first, DirId(h), NodeId(where.first, at), T(), data;
      TreeParts();
      Constants();
      PlacedIs(mid, t1, where, at, rec);
      OpenedParts(where, p);
      DirScan(where, p, {}, {id});
      error := Store(where, at, s, d, lay.chain[p], {}, {id});
      if error != NoError { return; }
      SameStream(t1, d, at);
      CoreFacts({}, {id});
      TreeParts();
      KeptWrite(count, lay, data1, data, p);
      DirIdsIn(mid, d);
      KeptAgain(lay0, data0, lay, data1, lay, data, DirIds(t0), p);
    }

    /** The directory `h` names, found again after other sets have come and directories
        have grown. */
    lemma StillThere(t0: Tree, mid: Tree, h: nat, d: nat, id: Id)
      requires cb > 0 && (h == ROOT_ID || Handle(cb, t0, h)) && DirNamed(t0, h)
      requires SameSets(t0, mid) && Evolves(t0, T()) && d in t0.dirs && d in t0.lay.owner
               && t0.lay.owner[d] == Place(DirId(h), 0)
      requires (forall x, q :: mid.Has(x, q) ==> T().Has(x, q) && T().At(x, q) == mid.At(x, q)) && mid.lay == lay
               && mid.dirs.Keys == dirs.Keys
      requires forall e :: e in t0.dirs ==> e in t0.lay.owner && e in lay.owner && lay.owner[e] == t0.lay.owner[e]
      requires DirId(h) != id && Core({}, {id})
      ensures Node(h) && IsDir(h) && Opened(DirAt(h), DirId(h)) && DirAt(h).first == d
    {
      hide *;
      CoreFacts({}, {id});
      TreeParts();
      if h != ROOT_ID {
        NamedHas(t0, h);
        SetsParts(t0, mid);
        HasParts(t0, IdFirst(h), IdSlot(h));
        SameSizes(t0, mid);
        HandleKept(cb, t0, T(), h);
        SameKind(t0, mid, IdFirst(h), IdSlot(h));
      }
      NodeIs(h);
      DirParts(h);
      DirReady(h, {}, {id});
      OpenedParts(DirAt(h), DirId(h));
      OneFirst(T(), d, DirAt(h).first);
    }

    /** The end of `rename`: the source directory is found again and the old set erased. */
    method RetireOld(h: nat, s1: nat, ghost d1: nat, ghost p2: Id, ghost parent: Stream, ghost s2: nat, ghost rec: Rec,
                     ghost t0: Tree, ghost data0: seq<seq<byte>>, ghost mid: Tree)
      returns (error: Error)
      requires cb > 0 && Shape(cb, up, t0, {}, {}) && DataOk(count, cb, data0) && ChainsInHeap(count, t0.lay)
      requires (h == ROOT_ID || Handle(cb, t0, h)) && DirNamed(t0, h)
      requires t0.Has(d1, s1) && d1 in t0.dirs && d1 in t0.lay.owner && t0.lay.owner[d1] == Place(DirId(h), 0)
      requires SameSets(t0, mid) && OthersSame(t0, mid, p2) && Evolves(t0, mid) && DirIds(mid) == DirIds(t0)
      requires Placed(mid, T(), parent, s2, rec) && NodeId(parent.first, s2) !in lay.chain
      requires NodeId(d1, s1) != p2 && rec.entry == t0.At(d1, s1).entry.(name := rec.entry.name)
      requires t0.At(d1, s1).entry.IsDirectory() ==> !Within(t0, parent.first, t0.At(d1, s1).entry.stream.first)
      requires StreamsKept(t0.lay, data0, lay, data, DirIds(t0))
      requires Base() && Core({}, {NodeId(parent.first, s2)})
      modifies `cursor, `data, `lay, `dirs, `rank
      ensures Valid() && error == NoError && Evolves(t0, T())
      ensures Moves(t0, T(), d1, s1, parent.first, s2, rec.entry.name)
      ensures FilesKept(count, cb, t0, data0, T(), data, {})
      ensures !t0.At(d1, s1).entry.IsDirectory() ==>
              FileIn(count, cb, data, T(), parent.first, s2) == FileIn(count, cb, data0, t0, d1, s1)
    {
      hide *;
      ghost var t, d2, from, to := T(), parent.first, NodeId(d1, s1), NodeId(parent.first, s2);
      TreeParts();
      PlacedIs(mid, t, parent, s2, rec);
      WithFacts(mid, d2, s2, rec);
      CoreFacts({}, {to});
      RetireReady(t0, mid, t, p2, h, d2, s2, rec);
      MovableNow(cb, up, t0, mid, t, p2, d1, s1, d2, s2, rec);
      StillThere(t0, mid, h, d1, to);
      NodeIs(h);
      DirParts(h);
      if h != ROOT_ID { NodeHandle(h); }
      var source := Locate(h, {}, {to});
      if source.None? { return NotFound; }
      var s := source.value.entry.stream;
      OpenedParts(s, DirId(h));
      ghost var lay1, data1 := lay, data;
      Transfer(d1, s1, d2, s2);
      OpenedRelabelled(cb, t, s, DirId(h), d1, s1, d2, s2);
      RelabelledIn(t, s, DirId(h), d1, s1, d2, s2);
      error := EraseMoved(s, s1, d1, d2, s2, DirId(h), t);
      if error != NoError { return; }
      MakeValid();
      CoreFacts({}, {});
      RetireOutcome(h, d1, s1, d2, s2, rec, t0, data0, mid, t, data1, DirId(h));
    }

    lemma RelabelledIn(t: Tree, s: Stream, p: Id, d1: nat, s1: nat, d2: nat, s2: nat)
      requires cb > 0 && Movable(cb, t, d1, s1, d2, s2) && T() == Relabelled(t, d1, s1, d2, s2) && s.first in t.dirs
      requires var lay1 := Renamed(t.lay, NodeId(d1, s1), NodeId(d2, s2));
               && s.first in lay1.owner && lay1.owner[s.first] == Place(p, 0)
               && p in lay1.chain && p in lay1.heads && lay1.heads[p] == Head(s.first, s.contiguous)
               && lay1.chain[p] != []
               && s.length == |lay1.chain[p]| * cb
      requires p != BitmapId && p != PendingId && p != UpcaseId && DirectoryStream(cb, s) && s.length % 32 == 0
      ensures Opened(s, p)
    {
      hide *;
      TreeParts();
      MovableParts(cb, t, d1, s1, d2, s2);
      RelabelledParts(t, d1, s1, d2, s2);
      OpenedAgain(s, p);
    }

    /** `erase` of the old set, its clusters no longer its own. */
    method EraseMoved(s: Stream, s1: nat, ghost d1: nat, ghost d2: nat, ghost s2: nat, ghost p: Id, ghost t: Tree)
      returns (error: Error)
      requires Opened(s, p) && s.first == d1
      requires cb > 0 && Movable(cb, t, d1, s1, d2, s2) && T() == Relabelled(t, d1, s1, d2, s2)
               && Shape(cb, up, t, {}, {NodeId(d2, s2)})
      requires Base() && Core({}, {NodeId(d1, s1)})
      modifies `cursor, `data, `dirs
      ensures Base() && Core({}, {}) && error == NoError && T() == Moved(t, d1, s1, d2, s2)
      ensures p in lay.chain && SameOutside(old(data), data, lay.chain[p])
    {
      hide *;
      TreeParts();
      MovableParts(cb, t, d1, s1, d2, s2);
      RelabelledParts(t, d1, s1, d2, s2);
      OpenedParts(s, p);
      DirScan(s, p, {}, {NodeId(d1, s1)});
      HasParts(t, d1, s1);
      HasOf(T(), d1, s1);
      SetRoom(d1, s1, p, {}, {NodeId(d1, s1)});
      ShapeMoved(cb, up, t, d1, s1, d2, s2);
      RedrawnMoved(t, d1, s1, d2, s2);
      error := Erase(s, s1, d1, lay.chain[p], {}, {}, {NodeId(d1, s1)}, {}, {});
      if error != NoError { return; }
      TreeParts();
      MovedIs(t, T(), d1, s1, d2, s2);
    }

    lemma RedrawnMoved(t: Tree, d1: nat, s1: nat, d2: nat, s2: nat)
      requires AllHomed(t) && t.Has(d1, s1) && t.Has(d2, s2) && d2 in t.rank
      requires NodeId(d1, s1) in t.lay.chain && NodeId(d1, s1) in t.lay.heads
      requires T() == Relabelled(t, d1, s1, d2, s2) && d1 in dirs
      ensures Redrawn(d1, dirs[d1] - {s1}, {}) == Moved(t, d1, s1, d2, s2)
    {
      hide Renamed, Reranked, AllHomed;
      var ents: map<nat, Rec> := dirs[d1] - {s1};
      assert dirs[d1 := ents] - {} == dirs[d1 := ents];
    }

    lemma RetireOutcome(h: nat, d1: nat, s1: nat, d2: nat, s2: nat, rec: Rec, t0: Tree, data0: seq<seq<byte>>,
                        mid: Tree, t: Tree, data1: seq<seq<byte>>, p: Id)
      requires cb > 0 && Movable(cb, t, d1, s1, d2, s2) && T() == Moved(t, d1, s1, d2, s2)
      requires SameSets(t0, mid) && t0.Has(d1, s1) && d2 in mid.dirs && !mid.Has(d2, s2) && t == mid.With(d2, s2, rec)
      requires rec.entry == t0.At(d1, s1).entry.(name := rec.entry.name)
      requires Shape(cb, up, t0, {}, {}) && DataOk(count, cb, data0) && ChainsInHeap(count, t0.lay)
      requires DataOk(count, cb, data1) && DataOk(count, cb, data) && ChainsInHeap(count, t.lay)
               && ChainsInHeap(count, lay) && OwnersOk(lay)
      requires StreamsKept(t0.lay, data0, t.lay, data1, DirIds(t0)) && DirIds(mid) == DirIds(t0) && Evolves(t0, t)
      requires forall e :: e in t.dirs ==> e in t.lay.owner
      requires d1 in t0.dirs && d1 in t0.lay.owner && t0.lay.owner[d1].id == p
      requires p in lay.chain && SameOutside(data1, data, lay.chain[p])
      ensures Evolves(t0, T()) && Moves(t0, T(), d1, s1, d2, s2, rec.entry.name)
              && FilesKept(count, cb, t0, data0, T(), data, {})
      ensures !t0.At(d1, s1).entry.IsDirectory() ==>
              FileIn(count, cb, data, T(), d2, s2) == FileIn(count, cb, data0, t0, d1, s1)
    {
      hide *;
      TreeParts();
      MovableParts(cb, t, d1, s1, d2, s2);
      MovedFacts(cb, t, d1, s1, d2, s2);
      MovesMake(cb, t0, mid, t, d1, s1, d2, s2, rec);
      MovedEvolves(cb, t, d1, s1, d2, s2);
      WithFacts(mid, d2, s2, rec);
      SameSizes(t0, mid);
      SetsParts(t0, mid);
      EvolvesTwice(t0, t, T());
      DirIdsIn(t0, d1);
      KeptWrite(count, lay, data1, data, p);
      KeptMore(lay, data1, lay, data, {p}, DirIds(t0));
      NotInDirIds(mid, NodeId(d2, s2));
      MovedFiles(count, cb, up, t0, data0, t.lay, data1, T(), data, d1, s1, d2, s2, rec.entry.name);
    }

    /** The writing half of `rename`. */
    method MoveSet(h1: nat, s1: nat, entry: Entry, h2: nat, bytes: seq<byte>, ghost d1: nat, ghost rec: Rec)
      returns (error: Error, ghost s2: nat)
      requires cb > 0 && Node(h1) && IsDir(h1) && Node(h2) && IsDir(h2) && DirAt(h1).first == d1
      requires T().Has(d1, s1) && T().At(d1, s1).entry == entry && rec.entry == entry.(name := rec.entry.name)
      requires SetFor(count, cb, up, bytes, rec) && NameFree(up, dirs, DirAt(h2).first, rec.entry.name)
      requires entry.IsDirectory() ==> !Within(T(), DirAt(h2).first, entry.stream.first)
      requires Base() && Core({}, {})
      modifies `cursor, `fat, `data, `hint, `lay, `dirs, `root, `rank
      ensures Valid() && error in {NoError, NoSpace} && Evolves(old(T()), T())
              && FilesKept(count, cb, old(T()), old(data), T(), data, {})
      ensures error == NoError ==> Moves(old(T()), T(), d1, s1, old(DirAt(h2)).first, s2, rec.entry.name)
      ensures error == NoError && !entry.IsDirectory() ==>
                FileIn(count, cb, data, T(), old(DirAt(h2)).first, s2) == FileIn(count, cb, old(data), old(T()), d1, s1)
      ensures error == NoSpace ==> SameSets(old(T()), T())
      ensures error == NoError <==> old(HasRoom(h2, rec.size))
    {
      hide *;
      ghost var t0, data0 := T(), data;
      TreeParts();
      CoreFacts({}, {});
      NamesDir(h1);
      NodeIs(h1);
      DirParts(h2);
      DirReady(h1, {}, {});
      OpenedParts(DirAt(h1), DirId(h1));
      MoveReady(d1, s1, entry, h2);
      ghost var parent, mid;
      error, parent, s2, mid := PutNew(h2, bytes, entry.stream, rec);
      TreeParts();
      if error != NoError {
        CoreFacts({}, {});
        MakeValid();
        SetsParts(t0, T());
        KeptMore(t0.lay, data0, lay, data, DirIds(t0), DirIds(t0) + {PendingId});
        FilesAdded(count, cb, up, t0, data0, T(), data);
        return;
      }
      error := RetireOld(h1, s1, d1, DirId(h2), parent, s2, rec, t0, data0, mid);
    }

    /** The moved set's stream can be stored again, and the set is not the target
        directory's own. */
    lemma MoveReady(d: nat, s: nat, entry: Entry, h: nat)
      requires cb > 0 && T().Has(d, s) && T().At(d, s).entry == entry && Node(h) && IsDir(h)
      requires entry.IsDirectory() ==> !Within(T(), DirAt(h).first, entry.stream.first)
      requires Base() && Core({}, {})
      ensures Storable(entry.stream) && ContentOk(count, cb, entry.stream) && NodeId(d, s) != DirId(h)
    {
      hide *;
      CoreFacts({}, {});
      TreeParts();
      HasParts(T(), d, s);
      ShapeNode(cb, up, T(), {}, {}, d, s);
      NodeParts(cb, T(), d, s);
      DirChainIs(T(), d);
      HereOf(count, cb, up, data, T(), d);
      SetStream(count, cb, up, Content(count, cb, data, DirChain(T(), d)), dirs[d], s);
      ContentParts(count, cb, entry.stream);
      ChainFrom(count, fat, lay, NodeId(d, s));
      StreamFits(count, cb, fat, entry.stream, lay.chain[NodeId(d, s)]);
      DirParts(h);
      DirReady(h, {}, {});
      OpenedParts(DirAt(h), DirId(h));
      AllHome(cb, up, T(), {}, {});
      NotItself(T(), d, s, entry, h, DirAt(h));
    }

    /** The checks `rename` makes before it changes anything. */
    ghost function RenameCheck(h1: nat, from: seq<byte>, h2: nat, to: seq<byte>): Error
      reads `root, `lay, `dirs, `rank
    {
      if !writable then ReadOnly
      else if !IsDir(h1) || !IsDir(h2) || !Listed(up, dirs, DirAt(h1).first, from) then NotFound
      else if Listed(up, dirs, DirAt(h2).first, to) then AlreadyExists
      else if !GoodName(to) then InvalidArgument
      else NoError
    }

    lemma RenameCheckIs(h1: nat, from: seq<byte>, h2: nat, to: seq<byte>)
      ensures RenameCheck(h1, from, h2, to) ==
              if !writable then ReadOnly
              else if !IsDir(h1) || !IsDir(h2) || !Listed(up, dirs, DirAt(h1).first, from) then NotFound
              else if Listed(up, dirs, DirAt(h2).first, to) then AlreadyExists
              else if !GoodName(to) then InvalidArgument
              else NoError
    {
      hide IsDir, DirAt, Listed, GoodName;
    }

    /** The target does not lie inside the directory being moved. */
    ghost predicate Outside(h1: nat, from: seq<byte>, h2: nat)
      reads `root, `lay, `dirs, `rank
    {
      forall q :: Named(up, dirs, DirAt(h1).first, from, q) && dirs[DirAt(h1).first][q].entry.IsDirectory() ==>
        !Within(T(), DirAt(h2).first, dirs[DirAt(h1).first][q].entry.stream.first)
    }

    lemma OutsideIs(h1: nat, from: seq<byte>, h2: nat, q: nat)
      requires Outside(h1, from, h2) && Named(up, dirs, DirAt(h1).first, from, q)
      ensures DirAt(h1).first in dirs && q in dirs[DirAt(h1).first]
      ensures var e := dirs[DirAt(h1).first][q].entry;
              e.IsDirectory() ==> !Within(T(), DirAt(h2).first, e.stream.first)
    {
      hide Within, Up, Wanted;
    }

    /** `rename`: one set moves, taking its stream, attributes and content with it, and
        changing its name; nothing is ever without a name, because the new set is
        written before the old one is erased. */
    method Rename(h1: nat, from: seq<byte>, h2: nat, to: seq<byte>) returns (error: Error, ghost s1: nat, ghost s2: nat)
      requires cb > 0 && Node(h1) && Node(h2) && NullFree(from) && NullFree(to) && Outside(h1, from, h2) && Valid()
      modifies `cursor, `fat, `data, `hint, `lay, `dirs, `root, `rank
      ensures Valid() && Evolves(old(T()), T()) && FilesKept(count, cb, old(T()), old(data), T(), data, {})
      ensures var check := old(RenameCheck(h1, from, h2, to));
              if check != NoError then error == check && T() == old(T()) else error in {NoError, NoSpace}
      ensures error == NoError ==>
                && GoodName(to) && Named(up, old(dirs), old(DirAt(h1)).first, from, s1)
                && CarriedOver(count, cb, old(T()), old(data), T(), data, old(DirAt(h1)).first, s1,
                               old(DirAt(h2)).first, s2, Wanted(to).value)
      ensures error == NoSpace ==> SameSets(old(T()), T())
      ensures old(RenameCheck(h1, from, h2, to)) == NoError ==>
                (error == NoError <==> old(HasRoom(h2, SlotsFor(to))))
    {
      hide *;
      s1, s2 := 0, 0;
      EvolvesSame(T());
      FilesSame(count, cb, T(), data, {});
      RenameCheckIs(h1, from, h2, to);
      var s, hit;
      error, s, hit := FindBoth(h1, from, h2, to);
      if error != NoError { return; }
      s1 := hit.slot;
      OutsideIs(h1, from, h2, s1);
      error, s2 := Relocate(h1, s, hit, h2, to);
    }

    /** The searches `rename` starts with: the set to move, and that its new name is not
        taken. */
    method FindBoth(h1: nat, from: seq<byte>, h2: nat, to: seq<byte>) returns (error: Error, s: Stream, hit: Hit)
      requires cb > 0 && Node(h1) && Node(h2) && NullFree(from) && NullFree(to) && Valid()
      modifies `cursor
      ensures Valid()
      ensures error == (if !writable then ReadOnly
                        else if !IsDir(h1) || !IsDir(h2) || !Listed(up, dirs, DirAt(h1).first, from) then NotFound
                        else if Listed(up, dirs, DirAt(h2).first, to) then AlreadyExists
                        else NoError)
      ensures error == NoError ==>
                && IsDir(h1) && IsDir(h2) && s == DirAt(h1) && Opened(s, DirId(h1)) && DirAt(h2).first in dirs
                && Named(up, dirs, s.first, from, hit.slot) && T().Has(s.first, hit.slot)
                && T().At(s.first, hit.slot) == hit.rec
                && s.first in dirs && hit.slot in dirs[s.first] && dirs[s.first][hit.slot] == hit.rec
    {
      hide *;
      s, hit := Stream(0, 0, 0, false), Hit(0, Rec(Entry(Stream(0, 0, 0, false), 0, []), 0));
      if !writable { error := ReadOnly; return; }
      var source := OpenDir(h1);
      if source.None? { error := NotFound; return; }
      var target := OpenDir(h2);
      if target.None? { error := NotFound; return; }
      var found := SeekIn(source.value, from, DirId(h1));
      if found.None? { error := NotFound; return; }
      var existing := SeekIn(target.value, to, DirId(h2));
      if existing.Some? { error := AlreadyExists; return; }
      return NoError, source.value, found.value;
    }

    /** A node taken for a directory. */
    method OpenDir(h: nat) returns (s: Option<Stream>)
      requires cb > 0 && Node(h) && Valid()
      modifies `cursor
      ensures Valid() && (s.Some? <==> IsDir(h))
              && (s.Some? ==> s.value == DirAt(h) && Opened(s.value, DirId(h)) && s.value.first in dirs)
    {
      hide *;
      ValidParts();
      DirParts(h);
      if h != ROOT_ID { NodeHandle(h); }
      RootIsDirectory(root);
      var where := Locate(h, {}, {});
      MakeValid();
      if where.None? || !where.value.entry.IsDirectory() { return None; }
      DirReady(h, {}, {});
      OpenedParts(where.value.entry.stream, DirId(h));
      return Some(where.value.entry.stream);
    }

    /** `find` between operations. */
    method SeekIn(s: Stream, name: seq<byte>, ghost p: Id) returns (hit: Option<Hit>)
      requires Opened(s, p) && NullFree(name) && Valid()
      modifies `cursor
      ensures Valid() && s.first in dirs && (hit.None? <==> !Listed(up, dirs, s.first, name))
              && Finds(up, dirs[s.first], Wanted(name), hit)
      ensures hit.Some? ==>
                && Named(up, dirs, s.first, name, hit.value.slot) && T().Has(s.first, hit.value.slot)
                && T().At(s.first, hit.value.slot) == hit.value.rec
                && hit.value.slot in dirs[s.first] && dirs[s.first][hit.value.slot] == hit.value.rec
    {
      hide *;
      ValidParts();
      hit := Seek(s, name, p, {}, {});
      MakeValid();
      FindsNamed(up, dirs, s.first, name, hit);
      TreeParts();
      if hit.Some? { HasOf(T(), s.first, hit.value.slot); }
    }

    /** `rename` from where both directories and the set are in hand. */
    method Relocate(h1: nat, s: Stream, hit: Hit, h2: nat, to: seq<byte>) returns (error: Error, ghost s2: nat)
      requires cb > 0 && Node(h1) && IsDir(h1) && Node(h2) && IsDir(h2) && s == DirAt(h1) && Opened(s, DirId(h1))
               && NullFree(to)
      requires T().Has(s.first, hit.slot) && T().At(s.first, hit.slot) == hit.rec && DirAt(h2).first in dirs
      requires !Listed(up, dirs, DirAt(h2).first, to)
      requires hit.rec.entry.IsDirectory() ==> !Within(T(), DirAt(h2).first, hit.rec.entry.stream.first)
      requires Valid()
      modifies `cursor, `fat, `data, `hint, `lay, `dirs, `root, `rank
      ensures Valid() && Evolves(old(T()), T()) && FilesKept(count, cb, old(T()), old(data), T(), data, {})
      ensures if !GoodName(to) then error == InvalidArgument && T() == old(T()) else error in {NoError, NoSpace}
      ensures error == NoError ==>
                GoodName(to) && CarriedOver(count, cb, old(T()), old(data), T(), data, s.first, hit.slot,
                                            old(DirAt(h2)).first, s2, Wanted(to).value)
      ensures error == NoSpace ==> SameSets(old(T()), T())
      ensures GoodName(to) ==>
                (error == NoError <==> old(HasRoom(h2, SlotsFor(to))))
    {
      hide *;
      s2 := 0;
      ValidParts();
      EvolvesSame(T());
      FilesSame(count, cb, T(), data, {});
      var units := DecodeName(to);
      GoodNameIs(to);
      if units.None? { error := InvalidArgument; return; }
      var legal := CheckName(units.value);
      if !legal { error := InvalidArgument; return; }
      UnlistedFree(up, dirs, DirAt(h2).first, to);
      var ok, bytes := RebuildSet(s, hit.slot, units.value, DirId(h1));
      if !ok { MakeValid(); error := DeviceError; return; }
      SlotsForIs(to);
      ghost var t0, data0, d2 := T(), data, DirAt(h2).first;
      error, s2 := MoveSet(h1, hit.slot, hit.rec.entry, h2, bytes, s.first,
                           Rec(hit.rec.entry.(name := units.value), 2 + NameEntries(|units.value|)));
      if error == NoError { CarriedMade(count, cb, t0, data0, T(), data, s.first, hit.slot, d2, s2, units.value); }
    }

    // ------------------------------------------------------- listing and lookup

    /** The identifier `to_node` makes for a set names it. */
    lemma SetHandle(s: Stream, p: Id, slot: nat)
      requires Opened(s, p) && s.first in dirs && slot in dirs[s.first] && slot <= MAX_SLOT && Base() && Core({}, {})
      ensures Handle(cb, T(), EncodeId(s.first, slot, s.contiguous)) && s.first < 0x1_0000_0000
    {
      hide *;
      OpenedParts(s, p);
      StreamReady(s, p, {}, {});
      TreeParts();
      HasOf(T(), s.first, slot);
      SetRoom(s.first, slot, p, {}, {});
      CoreFacts({}, {});
      HandleMade(count, fat, cb, T(), s, p, slot);
    }

    /** `lookup`: the node of the set with that name.  A name that is listed looks up to
        the node it is listed with. */
    method Lookup(h: nat, name: seq<byte>) returns (node: Option<NodeInfo>, ghost slot: nat)
      requires cb > 0 && Node(h) && NullFree(name) && Valid()
      modifies `cursor
      ensures Valid()
      ensures node.Some? ==>
              IsDir(h) && Named(up, dirs, DirAt(h).first, name, slot) && Shows(DirAt(h), dirs, slot, node)
              && Handle(cb, T(), node.value.id)
      ensures node.None? && IsDir(h) && Listed(up, dirs, DirAt(h).first, name) ==>
                Named(up, dirs, DirAt(h).first, name, slot) && Shows(DirAt(h), dirs, slot, None)
      ensures IsDir(h) ==> forall q, n: NodeInfo :: Shows(DirAt(h), dirs, q, Some(n)) && n.name == name ==>
              node == Some(n) && slot == q
    {
      hide *;
      slot, node := 0, None;
      var s := OpenDir(h);
      if s.None? { return; }
      var hit := SeekIn(s.value, name, DirId(h));
      ValidParts();
      CoreFacts({}, {});
      TreeParts();
      ShapeHome(cb, up, T(), {}, {}, s.value.first);
      DirScan(s.value, DirId(h), {}, {});
      DirNames(count, cb, up, Content(count, cb, data, lay.chain[DirId(h)]), dirs[s.value.first]);
      ListedLooksUp(count, cb, up, dirs, s.value, name, hit);
      if hit.None? { return; }
      slot := hit.value.slot;
      node := ToNode(s.value, hit.value.slot, hit.value.rec.entry);
      ShowsIs(s.value, dirs, slot, node);
      if node.Some? {
        ShownSlot(s.value, dirs, slot, node.value);
        SetHandle(s.value, DirId(h), slot);
      }
    }

    /** `list`: the node of the set that has `position` listable sets before it. */
    method List(h: nat, position: nat) returns (node: Option<NodeInfo>, ghost slot: nat)
      requires cb > 0 && Node(h) && Valid()
      modifies `cursor
      ensures Valid()
      ensures node.Some? ==>
                && IsDir(h) && Shows(DirAt(h), dirs, slot, node) && Handle(cb, T(), node.value.id)
                && |ShownBefore(DirAt(h), dirs, slot)| == position
      ensures node.None? && IsDir(h) ==> forall q :: |ShownBefore(DirAt(h), dirs, q)| <= position
    {
      hide *;
      slot, node := 0, None;
      var s := OpenDir(h);
      if s.None? { return; }
      node, slot := ListFrom(s.value, position, DirId(h));
    }

    method ListFrom(s: Stream, position: nat, ghost p: Id) returns (node: Option<NodeInfo>, ghost slot: nat)
      requires Opened(s, p) && Valid()
      modifies `cursor
      ensures Valid()
      ensures node.Some? ==>
              Shows(s, dirs, slot, node) && Handle(cb, T(), node.value.id) && |ShownBefore(s, dirs, slot)| == position
      ensures node.None? ==> forall q :: |ShownBefore(s, dirs, q)| <= position
    {
      hide *;
      slot := 0;
      ValidParts();
      OpenedParts(s, p);
      DirScan(s, p, {}, {});
      Constants();
      ghost var content := Content(count, cb, data, lay.chain[p]);
      SlotBound(content, s.length);
      NoneShown(s, dirs);
      var index, at := 0, 0;
      while true
        invariant Base() && 0 <= index <= position && index == |ShownBefore(s, dirs, at)|
        decreases MAX_SLOT + 1 - at
      {
        NoneKnown(s, at, lay.chain[p]);
        NextInDir(count, cb, up, content, dirs[s.first], at);
        var hit := NextEntry(s, at, lay.chain[p], None);
        if hit.None? {
          AllShown(s, dirs, at);
          MakeValid();
          return None, slot;
        }
        SetWithin(count, cb, up, content, dirs[s.first], hit.value.slot);
        NoSetInside(count, cb, up, content, dirs[s.first], hit.value.slot);
        node := ToNode(s, hit.value.slot, hit.value.rec.entry);
        NextShown(s, dirs, at, hit.value.slot, hit.value.rec.size, node);
        if node.Some? {
          if index == position {
            slot := hit.value.slot;
            ShownSlot(s, dirs, slot, node.value);
            SetHandle(s, p, slot);
            MakeValid();
            return;
          }
          index := index + 1;
        }
        at := hit.value.slot + hit.value.rec.size;
      }
    }

    lemma NoneKnown(s: Stream, slot: nat, cs: seq<nat>)
      requires DataOk(count, cb, data) && Clusters(count, cs) && s.length == |cs| * cb && s.length % 32 == 0
      ensures Scannable(s, slot, cs, None)
    {
    }

    // ------------------------------------------------------- what the invariant says

    /** A freshly formatted volume: the bitmap in cluster 2, an empty root in cluster 3. */
    constructor Format(count: nat, cb: nat, up: Upcase)
      requires 2 <= count <= cb * 8 && count < END_OF_CHAIN - 1 && 32 <= cb <= 0x200_0000 && cb % 32 == 0
      ensures Valid() && this.count == count && this.cb == cb && this.up == up && writable
      ensures dirs == map[3 := map[]] && root == Stream(3, cb, cb, false) && Bytes(RootId) == Zeros(cb)
      ensures count > 2 ==> Free() > 0
    {
      this.count, this.cb, this.up, this.writable := count, cb, up, true;
      bitmap, root := Stream(2, cb, cb, false), Stream(3, cb, cb, false);
      fat := BlankFat(count);
      data := BlankData(count, cb);
      cursor, hint := NO_CURSOR, 2;
      lay, dirs, rank := BlankLayout(), map[3 := map[]], map[3 := 0];
      new;
      hide *;
      BlankValid();
      BlankRoom();
    }

    lemma BlankRoom()
      requires 2 <= count <= cb * 8 && count < END_OF_CHAIN - 1 && cb > 0
      requires bitmap == Stream(2, cb, cb, false) && data == BlankData(count, cb) && lay == BlankLayout()
      ensures Bytes(RootId) == Zeros(cb) && (count > 2 ==> Free() > 0)
    {
      BlankBase(count, cb);
      BlankRoot(count, cb);
      BlankLaid(count, cb);
      if count > 2 {
        BlankMark(count, cb, 4);
        assert 4 in FreeClusters(count, Content(count, cb, data, [2])[..cb]);
      }
    }

    lemma BlankValid()
      requires 2 <= count <= cb * 8 && count < END_OF_CHAIN - 1 && 32 <= cb <= 0x200_0000 && cb % 32 == 0
      requires bitmap == Stream(2, cb, cb, false) && root == Stream(3, cb, cb, false) && fat == BlankFat(count)
               && data == BlankData(count, cb)
      requires cursor == NO_CURSOR && lay == BlankLayout() && dirs == map[3 := map[]] && rank == map[3 := 0]
      ensures Valid()
    {
      BlankFits(count, cb, up, root);
      BlankBase(count, cb);
      hide LayoutOk, Shape, OnDisk, HeadsOk, ChainsInHeap, BlankFat, BlankData, Content, CursorOk, Clusters, Covers,
        DataOk;
    }

    /** Between operations no cluster belongs to two streams, and the bitmap marks
        exactly the clusters that belong to one. */
    lemma Exact(c: nat)
      requires InHeap(count, c) && Valid()
      ensures BitmapId in lay.chain && DataOk(count, cb, data) && Clusters(count, lay.chain[BitmapId])
      ensures (count + 7) / 8 <= bitmap.length <= |lay.chain[BitmapId]| * cb
      ensures Used(Bits(lay.chain[BitmapId]), c) <==> exists i :: i in lay.chain && c in lay.chain[i]
      ensures forall i, j :: i in lay.chain && j in lay.chain && c in lay.chain[i] && c in lay.chain[j] ==> i == j
      ensures forall i :: i in lay.chain ==> Known(T(), {}, i)
    {
      hide *;
      ValidParts();
      CoreInv({}, {});
      InvParts();
      BitmapParts(lay.chain[BitmapId]);
      CoreFacts({}, {});
      TreeParts();
      Owners(count, fat, Bits(lay.chain[BitmapId]), lay, c);
      forall i | i in lay.chain ensures Known(T(), {}, i) {
        ShapeKnown(cb, up, T(), {}, {}, i);
      }
    }

    /** An identifier handed out before any operation still names its set after it, if
        the set is still there. */
    lemma IdsStay(t: Tree, h: nat)
      requires cb > 0 && Handle(cb, t, h) && Evolves(t, T()) && T().Has(IdFirst(h), IdSlot(h)) && Valid()
      ensures Node(h)
    {
      hide *;
      ValidParts();
      CoreFacts({}, {});
      TreeParts();
      HasParts(T(), IdFirst(h), IdSlot(h));
      HandleKept(cb, t, T(), h);
      NodeIs(h);
    }
  }

  /** `fat` is `fat0` with the links of clusters `lo .. hi` of `cs` cleared. */
  ghost predicate Cleared(fat0: seq<nat>, fat: seq<nat>, cs: seq<nat>, lo: nat, hi: nat) {
    && |fat| == |fat0|
    && (forall c :: 0 <= c < |fat| && c !in cs ==> fat[c] == fat0[c])
    && (forall k :: 0 <= k < |cs| ==> cs[k] < |fat| && fat[cs[k]] == if lo <= k < hi then 0 else fat0[cs[k]])
  }

  /** `bits` is `bits0` with clusters `lo .. hi` of `cs` unmarked. */
  ghost predicate Unmarked(count: nat, bits0: seq<byte>, bits: seq<byte>, cs: seq<nat>, lo: nat, hi: nat) {
    && |bits| == |bits0| && Covers(count, bits0)
    && (forall c :: InBits(bits0, c) && c !in cs ==> (Used(bits, c) <==> Used(bits0, c)))
    && (forall k :: 0 <= k < |cs| ==>
          InBits(bits0, cs[k]) && (Used(bits, cs[k]) <==> Used(bits0, cs[k]) && !(lo <= k < hi)))
  }

  lemma NothingYet(count: nat, fat: seq<nat>, bits: seq<byte>, cs: seq<nat>, at: nat)
    requires |fat| == count + 2 && Covers(count, bits) && forall k :: 0 <= k < |cs| ==> InHeap(count, cs[k])
    ensures Cleared(fat, fat, cs, at, at) && Unmarked(count, bits, bits, cs, at, at)
  {
  }

  lemma ClearedOutside(fat0: seq<nat>, fat: seq<nat>, cs: seq<nat>, lo: nat, hi: nat)
    requires Cleared(fat0, fat, cs, lo, hi)
    ensures |fat| == |fat0| && forall c :: 0 <= c < |fat| && c !in cs ==> fat[c] == fat0[c]
  {
  }

  lemma ClearedStep(fat0: seq<nat>, fat1: seq<nat>, fat2: seq<nat>, cs: seq<nat>, lo: nat, hi: nat)
    requires Cleared(fat0, fat1, cs, lo, hi) && Distinct(cs) && lo <= hi < |cs|
    requires fat2 == fat1[cs[hi] := 0]
    ensures Cleared(fat0, fat2, cs, lo, hi + 1)
  {
  }

  lemma UnmarkedStep(count: nat, bits0: seq<byte>, bits1: seq<byte>, bits2: seq<byte>, cs: seq<nat>, lo: nat, hi: nat)
    requires Unmarked(count, bits0, bits1, cs, lo, hi) && Distinct(cs) && lo <= hi < |cs|
    requires InBits(bits1, cs[hi]) && bits2 == Marked(bits1, cs[hi], false)
    ensures Unmarked(count, bits0, bits2, cs, lo, hi + 1)
  {
    hide Used, Marked;
    MarkedAll(bits1, cs[hi], false);
  }

  /** Where the release loop stands and where it goes next. */
  lemma ChainStep(count: nat, fat0: seq<nat>, fat: seq<nat>, first: nat, contiguous: bool, cs: seq<nat>, lo: nat,
                  at: nat)
    requires |fat0| == |fat| == count + 2 && ChainOk(count, fat0, first, contiguous, cs) && lo <= at < |cs|
    requires if contiguous then fat == fat0 else Cleared(fat0, fat, cs, lo, at)
    ensures InHeap(count, cs[at])
    ensures at + 1 < |cs| ==> cs[at + 1] == if contiguous then cs[at] + 1 else fat[cs[at]]
  {
    assert !contiguous ==> fat0[cs[at]] == Link(cs, at);
  }

  lemma ClearedLinks(count: nat, fat0: seq<nat>, fat: seq<nat>, first: nat, cs: seq<nat>, keep: nat)
    requires |fat0| == count + 2 && ChainOk(count, fat0, first, false, cs) && 0 < keep < |cs|
    requires Cleared(fat0, fat, cs, keep, |cs|)
    ensures Linked(count, fat, cs, keep)
    ensures keep - 1 < count && InHeap(count, cs[keep - 1])
    ensures Walk(count, fat, first, keep - 1) == Some(cs[keep - 1])
  {
    forall k | 0 <= k < keep - 1 ensures fat[cs[k]] == cs[k + 1] {
      assert fat0[cs[k]] == Link(cs, k);
    }
    LinkedWalk(count, fat, cs, keep, keep - 1);
  }

  ghost predicate Apart(cs: seq<nat>, bcs: seq<nat>) {
    forall k :: 0 <= k < |cs| ==> cs[k] !in bcs
  }

  /** How many of `length` bytes from `offset` a stream has. */
  function Available(s: Stream, offset: nat, length: nat): nat {
    if offset >= s.length then 0 else Min(length, s.length - offset)
  }

  /** Every cluster bitmap byte `j` speaks for is marked. */
  ghost predicate ByteFull(count: nat, j: nat, b: byte) {
    forall bit :: 0 <= bit < 8 ==> j * 8 + bit >= count || Bit(b, bit)
  }

  lemma FullMark(count: nat, j: nat)
    ensures ByteFull(count, j, 0xFF)
  {
    forall bit | 0 <= bit < 8 ensures Bit(0xFF, bit) { FullByte(bit); }
  }

  /** The byte a lap from `start` meets at step `t` has no free cluster. */
  ghost predicate Swept(count: nat, bits: seq<byte>, start: nat, t: nat)
    requires Covers(count, bits) && count > 0
  {
    var j := (start + t) % ((count + 7) / 8);
    ByteFull(count, j, bits[j])
  }

  /** The scan starts inside the bitmap. */
  lemma FirstByte(count: nat, start: nat)
    requires count > 0 && start < count
    ensures start / 8 < (count + 7) / 8
  {
  }

  lemma SweepChunk(count: nat, bits: seq<byte>, start: nat, scanned: nat, chunk: seq<byte>)
    requires Covers(count, bits) && count > 0
    requires var total := (count + 7) / 8;
             var index := (start + scanned) % total;
             && index + |chunk| <= total
             && chunk == bits[index..index + |chunk|]
             && forall i :: 0 <= i < |chunk| ==> ByteFull(count, index + i, chunk[i])
    ensures forall t :: scanned <= t < scanned + |chunk| ==> Swept(count, bits, start, t)
  {
    var total := (count + 7) / 8;
    forall t | scanned <= t < scanned + |chunk| ensures Swept(count, bits, start, t) {
      var index := (start + scanned) % total;
      WithinCluster(start + scanned, t - scanned, total);
      assert ByteFull(count, index + (t - scanned), chunk[t - scanned]);
    }
  }

  lemma LapCovers(count: nat, bits: seq<byte>, start: nat, c: nat)
    requires Covers(count, bits) && InHeap(count, c) && start < (count + 7) / 8
    requires forall t :: 0 <= t < (count + 7) / 8 ==> Swept(count, bits, start, t)
    ensures Used(bits, c)
  {
    var total, j := (count + 7) / 8, (c - 2) / 8;
    var t := if j >= start then j - start else j + total - start;
    DivModUnique(start + t, total, if j >= start then 0 else 1, j);
    assert Swept(count, bits, start, t);
    assert c - 2 == j * 8 + (c - 2) % 8;
  }

  function CurrentClusters(s: Stream, cb: nat): nat
    requires cb > 0
  {
    if s.first == 0 then 0 else CeilDiv(s.length, cb)
  }

  /** The stream's and the bitmap's own clusters are marked and apart. */
  ghost predicate Owned(bits: seq<byte>, cs: seq<nat>, bcs: seq<nat>) {
    && Distinct(cs) && Apart(cs, bcs)
    && (forall k :: 0 <= k < |cs| ==> InBits(bits, cs[k]) && Used(bits, cs[k]))
    && (forall k :: 0 <= k < |bcs| ==> InBits(bits, bcs[k]) && Used(bits, bcs[k]))
  }

  /** Growth so far: `cs0` is a prefix of `cs`, the rest was free and is now marked. */
  ghost predicate Grown(count: nat, fat0: seq<nat>, fat: seq<nat>, bits0: seq<byte>, bits: seq<byte>, cs0: seq<nat>,
                        cs: seq<nat>)
  {
    && |fat| == |fat0| && |bits| == |bits0| && Covers(count, bits0)
    && cs0 <= cs && Distinct(cs)
    && (forall k :: 0 <= k < |cs| ==> InHeap(count, cs[k]))
    && (forall k :: |cs0| <= k < |cs| ==> !Used(bits0, cs[k]))
    && (forall c :: InBits(bits0, c) ==> (Used(bits, c) <==> Used(bits0, c) || c in cs))
    && (forall c :: 0 <= c < |fat| && c !in cs ==> fat[c] == fat0[c])
  }

  lemma GrownNothing(count: nat, fat: seq<nat>, bits: seq<byte>, cs: seq<nat>, bcs: seq<nat>)
    requires Covers(count, bits) && Owned(bits, cs, bcs) && forall k :: 0 <= k < |cs| ==> InHeap(count, cs[k])
    ensures Grown(count, fat, fat, bits, bits, cs, cs)
  {
  }

  /** A cluster just found free is new to the stream and not the bitmap's. */
  lemma GrownFresh(count: nat, fat0: seq<nat>, fat: seq<nat>, bits0: seq<byte>, bits: seq<byte>, cs0: seq<nat>,
                   cs: seq<nat>, bcs: seq<nat>, c: nat)
    requires Grown(count, fat0, fat, bits0, bits, cs0, cs) && Owned(bits0, cs0, bcs)
    requires InHeap(count, c) && !Used(bits, c)
    ensures Distinct(cs + [c]) && Apart(cs + [c], bcs)
  {
    hide Used;
    var more := cs + [c];
    assert c !in cs;
    forall k, m | 0 <= k < |more| && 0 <= m < |bcs| ensures more[k] != bcs[m] {
      assert Used(bits0, bcs[m]);
      assert k < |cs0| ==> more[k] == cs0[k];
    }
  }

  lemma GrownApart(count: nat, fat0: seq<nat>, fat: seq<nat>, bits0: seq<byte>, bits: seq<byte>, cs0: seq<nat>,
                   cs: seq<nat>, bcs: seq<nat>)
    requires Grown(count, fat0, fat, bits0, bits, cs0, cs) && Owned(bits0, cs0, bcs)
    ensures Distinct(cs) && Apart(cs, bcs)
  {
    hide Used;
    forall k, m | 0 <= k < |cs| && 0 <= m < |bcs| ensures cs[k] != bcs[m] {
      assert Used(bits0, bcs[m]);
      assert k < |cs0| ==> cs[k] == cs0[k];
    }
  }

  lemma GrownReshape(count: nat, fat0: seq<nat>, fat: seq<nat>, bits0: seq<byte>, bits: seq<byte>, s: Stream,
                     cs0: seq<nat>, cs: seq<nat>)
    requires |fat0| == |fat| == count + 2
    requires Grown(count, fat0, fat, bits0, bits, cs0, cs) && ChainOk(count, fat, s.first, s.contiguous, cs)
    ensures Reshape(count, fat0, fat, bits0, bits, cs0, Head(s.first, s.contiguous), cs)
  {
    hide Used, ChainOk;
    forall k | 0 <= k < |cs| ensures cs[k] in cs0 || !Used(bits0, cs[k]) {
      assert k < |cs0| ==> cs[k] == cs0[k];
    }
    forall c | c in cs0 ensures c in cs {
      var k :| 0 <= k < |cs0| && cs0[k] == c;
      assert cs[k] == c;
    }
  }

  /** Releasing what was grown restores the bitmap bytes, and the stream as it was
      recorded before is intact. */
  lemma Undone(count: nat, fat0: seq<nat>, fat1: seq<nat>, fat2: seq<nat>, bits0: seq<byte>, bits1: seq<byte>,
               bits2: seq<byte>,
               s: Stream, s': Stream, cs0: seq<nat>, cs: seq<nat>, bcs: seq<nat>)
    requires |fat0| == |fat1| == |fat2| == count + 2 && |bits1| == |bits2|
    requires Grown(count, fat0, fat1, bits0, bits1, cs0, cs) && Owned(bits0, cs0, bcs)
    requires ChainOk(count, fat0, s.first, s.contiguous, cs0)
    requires |cs0| == |cs| ==> bits2 == bits1
    requires |cs0| < |cs| ==> Unmarked(count, bits1, bits2, cs, |cs0|, |cs|)
    requires ChainOk(count, fat2, s'.first, s'.contiguous, cs[..|cs0|])
    requires s.contiguous || cs0 == [] || !s'.contiguous
    requires forall c :: 0 <= c < |fat2| && c !in cs ==> fat2[c] == fat1[c]
    ensures bits2 == bits0
    ensures Reshape(count, fat0, fat2, bits0, bits2, cs0, Head(s.first, s.contiguous), cs0)
  {
    UndoneBits(count, fat0, fat1, bits0, bits1, bits2, cs0, cs, bcs);
    assert cs[..|cs0|] == cs0;
    assert ChainOk(count, fat2, s.first, s.contiguous, cs0);
    hide Used, ChainOk;
    forall c | InHeap(count, c) && Used(bits0, c) && c !in cs0 ensures c !in cs {
      assert forall k :: 0 <= k < |cs| && cs[k] == c ==> k < |cs0| && cs0[k] == c;
    }
    forall c | InBits(bits0, c) ensures c in cs0 ==> Used(bits0, c) {
      assert forall k :: 0 <= k < |cs0| ==> Used(bits0, cs0[k]);
    }
  }

  lemma UndoneBits(count: nat, fat0: seq<nat>, fat1: seq<nat>, bits0: seq<byte>, bits1: seq<byte>, bits2: seq<byte>,
                   cs0: seq<nat>, cs: seq<nat>, bcs: seq<nat>)
    requires |bits1| == |bits2|
    requires Grown(count, fat0, fat1, bits0, bits1, cs0, cs) && Owned(bits0, cs0, bcs)
    requires |cs0| == |cs| ==> bits2 == bits1
    requires |cs0| < |cs| ==> Unmarked(count, bits1, bits2, cs, |cs0|, |cs|)
    ensures bits2 == bits0
  {
    hide Used;
    forall c | InBits(bits0, c) ensures Used(bits2, c) <==> Used(bits0, c) {
      if c in cs {
        var k :| 0 <= k < |cs| && cs[k] == c;
        assert k < |cs0| ==> cs0[k] == c;
      }
    }
    MarksDetermine(bits2, bits0);
  }

  lemma GrownStep(count: nat, fat0: seq<nat>, fat1: seq<nat>, fat2: seq<nat>, bits0: seq<byte>, bits1: seq<byte>,
                  bits2: seq<byte>,
                  cs0: seq<nat>, cs: seq<nat>, c: nat)
    requires Grown(count, fat0, fat1, bits0, bits1, cs0, cs) && Distinct(cs + [c])
    requires InHeap(count, c) && InBits(bits1, c) && !Used(bits1, c) && bits2 == Marked(bits1, c, true)
    requires |fat2| == |fat1| && forall d :: 0 <= d < |fat1| && d !in cs + [c] ==> fat2[d] == fat1[d]
    ensures Grown(count, fat0, fat2, bits0, bits2, cs0, cs + [c])
    ensures FreeClusters(count, bits2) == FreeClusters(count, bits1) - {c} && c in FreeClusters(count, bits1)
  {
    hide Used, Marked;
    MarkedAll(bits1, c, true);
    assert cs0 <= cs + [c];
  }

  lemma LayoutOwned(count: nat, fat: seq<nat>, bits: seq<byte>, lay: Layout, id: Id)
    requires |fat| == count + 2 && Covers(count, bits) && LayoutOk(count, fat, bits, lay)
    requires id in lay.chain && BitmapId in lay.chain && id != BitmapId
    ensures id in lay.heads && ChainOk(count, fat, lay.heads[id].first, lay.heads[id].contiguous, lay.chain[id])
    ensures Owned(bits, lay.chain[id], lay.chain[BitmapId]) && OwnersOk(lay)
  {
    var cs, bcs := lay.chain[id], lay.chain[BitmapId];
    ChainDistinct(lay, id);
    assert ChainOk(count, fat, lay.heads[BitmapId].first, lay.heads[BitmapId].contiguous, bcs);
    hide ChainOk, Used;
    ChainFacts(count, fat, lay.heads[id].first, lay.heads[id].contiguous, cs);
    ChainFacts(count, fat, lay.heads[BitmapId].first, lay.heads[BitmapId].contiguous, bcs);
    forall k | 0 <= k < |cs| ensures cs[k] !in bcs && Used(bits, cs[k]) {
      assert lay.chain[id][k] == cs[k];
      ChainsApart(lay, id, BitmapId, cs[k]);
    }
    forall k | 0 <= k < |bcs| ensures Used(bits, bcs[k]) {
      assert lay.chain[BitmapId][k] == bcs[k];
    }
  }

  lemma OwnedParts(bits: seq<byte>, cs: seq<nat>, bcs: seq<nat>)
    requires Owned(bits, cs, bcs)
    ensures Distinct(cs) && Apart(cs, bcs)
  {
  }

  lemma FreeRoom(count: nat, fat: seq<nat>, bits: seq<byte>, lay: Layout, id: Id)
    requires |fat| == count + 2 && Covers(count, bits) && LayoutOk(count, fat, bits, lay)
    requires id in lay.chain && BitmapId in lay.chain && id != BitmapId
    ensures |lay.chain[id]| + |FreeClusters(count, bits)| <= count
  {
    LayoutOwned(count, fat, bits, lay, id);
    FreeBound(count, bits, lay.chain[id], lay.chain[BitmapId]);
  }

  lemma Released(count: nat, fat0: seq<nat>, fat: seq<nat>, bits0: seq<byte>, bits: seq<byte>, s: Stream, s': Stream,
                 cs: seq<nat>, keep: nat, bcs: seq<nat>)
    requires |fat0| == |fat| == count + 2 && Covers(count, bits0) && |bits| == |bits0| && keep <= |cs|
    requires Owned(bits0, cs, bcs) && ChainOk(count, fat0, s.first, s.contiguous, cs)
    requires keep == |cs| ==> s' == s && fat == fat0 && bits == bits0
    requires keep < |cs| ==> ChainOk(count, fat, s'.first, s'.contiguous, cs[..keep])
    requires keep < |cs| ==> Unmarked(count, bits0, bits, cs, keep, |cs|)
    requires forall c :: 0 <= c < |fat| && c !in cs ==> fat[c] == fat0[c]
    ensures Reshape(count, fat0, fat, bits0, bits, cs, Head(s'.first, s'.contiguous), cs[..keep])
  {
    var cut := cs[..keep];
    assert keep == |cs| ==> cut == cs;
    hide Used, ChainOk;
    forall c | InBits(bits0, c) ensures Used(bits, c) <==> c in cut || (Used(bits0, c) && c !in cs) {
      if c in cs {
        var k :| 0 <= k < |cs| && cs[k] == c;
        assert k < keep ==> cut[k] == c;
        assert c in cut ==> k < keep;
      }
    }
  }

  ghost function HeapSet(count: nat): (r: set<nat>)
    ensures |r| == count && forall c :: c in r <==> InHeap(count, c)
  {
    if count == 0 then {} else HeapSet(count - 1) + {count + 1}
  }

  ghost function Elements(cs: seq<nat>): (r: set<nat>)
    ensures forall c :: c in r <==> c in cs
    ensures Distinct(cs) ==> |r| == |cs|
  {
    if cs == [] then {} else Elements(cs[..|cs| - 1]) + {cs[|cs| - 1]}
  }

  /** The clusters the bitmap bytes leave free. */
  ghost function FreeIn(count: nat, cb: nat, length: nat, lay: Layout, data: seq<seq<byte>>): nat {
    if BitmapId in lay.chain && DataOk(count, cb, data) && Clusters(count, lay.chain[BitmapId])
       && (count + 7) / 8 <= length <= |lay.chain[BitmapId]| * cb
    then |FreeClusters(count, Content(count, cb, data, lay.chain[BitmapId])[..length])| else 0
  }

  lemma FreeSame(count: nat, cb: nat, length: nat, lay: Layout, data: seq<seq<byte>>, lay': Layout,
                 data': seq<seq<byte>>)
    requires DataOk(count, cb, data) && DataOk(count, cb, data') && Kept(lay, data, lay', data', BitmapId)
    ensures FreeIn(count, cb, length, lay', data') == FreeIn(count, cb, length, lay, data)
  {
    if Clusters(count, lay.chain[BitmapId]) { ContentFrame(count, cb, data, data', lay.chain[BitmapId]); }
    hide FreeClusters, Content, Clusters;
  }

  /** What one list gains, the free clusters lose. */
  lemma ReshapeCount(count: nat, fat: seq<nat>, fat': seq<nat>, bits: seq<byte>, bits': seq<byte>, before: seq<nat>,
                     head: Head, cs: seq<nat>, bcs: seq<nat>)
    requires |fat| == |fat'| == count + 2 && Covers(count, bits) && |bits| == |bits'|
    requires Reshape(count, fat, fat', bits, bits', before, head, cs) && Owned(bits, before, bcs)
             && forall k :: 0 <= k < |before| ==> InHeap(count, before[k])
    ensures |cs| + |FreeClusters(count, bits')| == |before| + |FreeClusters(count, bits)|
  {
    hide *;
    ReshapeParts(count, fat, fat', bits, bits', before, head, cs);
    var mine, theirs, free, free' :=
                                     Elements(cs), Elements(before), FreeClusters(count, bits),
                                     FreeClusters(count, bits');
    OwnedParts(bits, before, bcs);
    forall c
      ensures c in free || c in theirs <==> c in free' || c in mine
      ensures !(c in free && c in theirs) && !(c in free' && c in mine)
    {
      FreeAt(count, bits, c);
      FreeAt(count, bits', c);
      if c in before { OwnedAt(count, bits, before, bcs, c); }
      if 0 <= c { ReshapeAt(count, fat, fat', bits, bits', before, head, cs, c); }
    }
    assert free + theirs == free' + mine;
    assert free !! theirs && free' !! mine;
    assert |free + theirs| == |free| + |theirs| && |free' + mine| == |free'| + |mine|;
  }

  lemma OwnedAt(count: nat, bits: seq<byte>, cs: seq<nat>, bcs: seq<nat>, c: nat)
    requires Owned(bits, cs, bcs) && c in cs && forall k :: 0 <= k < |cs| ==> InHeap(count, cs[k])
    ensures InHeap(count, c) && InBits(bits, c) && Used(bits, c)
  {
    hide Used;
  }

  /** Owned and free clusters together are no more than the heap. */
  lemma FreeBound(count: nat, bits: seq<byte>, cs: seq<nat>, bcs: seq<nat>)
    requires Covers(count, bits) && Owned(bits, cs, bcs) && forall k :: 0 <= k < |cs| ==> InHeap(count, cs[k])
    ensures |cs| + |FreeClusters(count, bits)| <= count
  {
    hide Used;
    var mine, free := Elements(cs), FreeClusters(count, bits);
    assert mine !! free;
    assert |mine + free| == |mine| + |free|;
    SubsetSize(mine + free, HeapSet(count));
  }

  /** The units a C string names, when there are at most 255 of them. */
  function Wanted(name: seq<byte>): Option<seq<unit>> {
    match Decode(name, false)
    case None => None
    case Some(units) => if |units| <= 255 then Some(units) else None
  }

  /** What `find` promises: the one set with the wanted name, or that there is none. */
  ghost predicate Finds(up: Upcase, ents: map<nat, Rec>, wanted: Option<seq<unit>>, hit: Option<Hit>) {
    match hit
    case Some(h) =>
      && wanted.Some? && wanted.value != [] && h.slot in ents && ents[h.slot] == h.rec
      && Up(up, h.rec.entry.name) == Up(up, wanted.value)
    case None =>
      wanted.Some? && wanted.value != [] ==>
        forall q :: q in ents ==> Up(up, ents[q].entry.name) != Up(up, wanted.value)
  }

  /** Where a node lives: the directory holding it and its own entry. */
  datatype Location = Location(parent: Stream, slot: nat, entry: Entry, isRoot: bool)

  lemma EmptyStream(count: nat, cb: nat, fat: seq<nat>, s: Stream, cs: seq<nat>)
    requires |fat| == count + 2 && cb > 0 && ChainOk(count, fat, s.first, s.contiguous, cs)
             && |cs| == CeilDiv(s.length, cb)
    ensures CurrentClusters(s, cb) == |cs|
  {
  }

  lemma AvailableIs(s: Stream, offset: nat, length: nat)
    requires offset + length <= s.length
    ensures Available(s, offset, length) == length
  {
  }

  /** The stream a node identifier stands for. */
  function NodeOf(h: nat): Id { NodeId(IdFirst(h), IdSlot(h)) }

  lemma NodeOfIs(h: nat)
    ensures NodeOf(h) == NodeId(IdFirst(h), IdSlot(h))
  {
  }

  /** The cluster list of the directory a node identifier names. */
  function DirId(h: nat): Id { if h == ROOT_ID then RootId else NodeOf(h) }

  lemma DirIdIs(h: nat)
    ensures DirId(h) == if h == ROOT_ID then RootId else NodeOf(h)
  {
  }

  lemma DirClusters(count: nat, cb: nat, fat: seq<nat>, s: Stream, cs: seq<nat>)
    requires |fat| == count + 2 && cb > 0 && ChainOk(count, fat, s.first, s.contiguous, cs) && s.length == |cs| * cb
    ensures CurrentClusters(s, cb) == |cs| == CeilDiv(s.length, cb)
  {
    DivModUnique(s.length + cb - 1, cb, |cs|, cb - 1);
    EmptyStream(count, cb, fat, s, cs);
  }

  /** `bytes` is a whole set holding `rec`. */
  ghost predicate SetFor(count: nat, cb: nat, up: Upcase, bytes: seq<byte>, rec: Rec) {
    && cb > 0 && 3 <= rec.size <= MAX_SET && |bytes| == rec.size * ENTRY_BYTES && |bytes| % ENTRY_BYTES == 0
    && bytes[0] == 0x85 && bytes[1] == rec.size - 1 && ParseSet(count, cb, up, bytes) == Good(rec.entry)
  }

  lemma SetForIs(count: nat, cb: nat, up: Upcase, bytes: seq<byte>, rec: Rec)
    requires SetFor(count, cb, up, bytes, rec)
    ensures cb > 0 && 3 <= rec.size <= MAX_SET && |bytes| == rec.size * ENTRY_BYTES && |bytes| % ENTRY_BYTES == 0
            && |bytes| >= 96
    ensures ENTRY_BYTES == 32 && MAX_SET == 19 && |bytes| / 32 == rec.size
    ensures bytes[0] == 0x85 && bytes[1] == rec.size - 1 && ParseSet(count, cb, up, bytes) == Good(rec.entry)
  {
    hide ParseSet;
  }

  /** No set of directory `d` has that name, up to case. */
  ghost predicate NameFree(up: Upcase, dirs: map<nat, map<nat, Rec>>, d: nat, name: seq<unit>) {
    d in dirs && forall q :: q in dirs[d] ==> Up(up, dirs[d][q].entry.name) != Up(up, name)
  }

  lemma NameFreeIs(up: Upcase, dirs: map<nat, map<nat, Rec>>, d: nat, name: seq<unit>)
    requires NameFree(up, dirs, d, name)
    ensures d in dirs && forall q :: q in dirs[d] ==> Up(up, dirs[d][q].entry.name) != Up(up, name)
  {
    hide Up;
  }

  /** The set `rec` is new in directory `s` at `slot`; nothing else changed. */
  ghost predicate Placed(t: Tree, t': Tree, s: Stream, slot: nat, rec: Rec) {
    && s.first in t.dirs && !t.Has(s.first, slot) && t' == t.With(s.first, slot, rec)
    && (slot + rec.size) * 32 <= s.length && slot <= MAX_SLOT
  }

  lemma PlacedMake(t: Tree, t': Tree, s: Stream, slot: nat, rec: Rec)
    requires s.first in t.dirs && slot !in t.dirs[s.first] && t'.root == t.root && t'.lay == t.lay && t'.rank == t.rank
    requires var ents: map<nat, Rec> := t.dirs[s.first];
             var ents' := ents[slot := rec];
             t'.dirs == t.dirs[s.first := ents'] - {}
    requires (slot + rec.size) * 32 <= s.length && slot <= MAX_SLOT
    ensures Placed(t, t', s, slot, rec) && t'.dirs.Keys == t.dirs.Keys
  {
    var ents: map<nat, Rec> := t.dirs[s.first];
    var ents' := ents[slot := rec];
    assert t.dirs[s.first := ents'] - {} == t.dirs[s.first := ents'];
  }

  /** A longer directory has the same names. */
  lemma NameFreeKept(up: Upcase, t: Tree, t': Tree, d: nat, name: seq<unit>)
    requires SameSets(t, t') && NameFree(up, t.dirs, d, name)
    ensures NameFree(up, t'.dirs, d, name)
  {
    hide Up;
    forall q | q in t'.dirs[d] ensures Up(up, t'.dirs[d][q].entry.name) != Up(up, name) {
      assert t'.Has(d, q) && t.Has(d, q) && SameSet(t.At(d, q), t'.At(d, q));
    }
  }

  lemma NoClusters(cb: nat)
    requires cb > 0
    ensures CurrentClusters(Stream(0, 0, 0, false), cb) == 0
  {
  }

  lemma PlacedIs(t: Tree, t': Tree, s: Stream, slot: nat, rec: Rec)
    requires Placed(t, t', s, slot, rec)
    ensures s.first in t.dirs && !t.Has(s.first, slot) && t' == t.With(s.first, slot, rec) && t'.Has(s.first, slot)
            && t'.At(s.first, slot) == rec
    ensures (slot + rec.size) * 32 <= s.length && slot <= MAX_SLOT && t'.lay == t.lay && t'.root == t.root
            && t'.rank == t.rank && t'.dirs.Keys == t.dirs.Keys
  {
  }

  /** From the tree `create` found to the one it leaves. */
  lemma EnterOutcome(t0: Tree, mid: Tree, t1: Tree, t2: Tree, parent: Stream, slot: nat, rec: Rec, s: Stream)
    requires SameSets(t0, mid) && Evolves(t0, mid) && Placed(mid, t1, parent, slot, rec)
    requires t1.Has(parent.first, slot) && t2 == t1.WithStream(parent.first, slot, s)
    requires t2.Has(parent.first, slot) && PendingId in t2.lay.chain && PendingId in t2.lay.heads
             && parent.first in t2.rank
    requires NodeId(parent.first, slot) !in t2.lay.chain && OwnersOk(t2.lay) && t2.lay.heads.Keys == t2.lay.chain.Keys
    requires forall e :: e in t2.dirs ==> e in t2.lay.owner && t2.lay.owner[e].id != PendingId
    requires rec.entry.IsDirectory() ==> s.first !in t2.dirs
    ensures var t3 := Adopted(t2, PendingId, parent.first, slot);
            && Adds(t0, t3, parent.first, slot, rec.entry.(stream := s)) && Evolves(t0, t3)
            && (rec.entry.IsDirectory() ==> s.first in t3.dirs && t3.dirs[s.first] == map[])
  {
    hide *;
    var t3 := Adopted(t2, PendingId, parent.first, slot);
    PlacedIs(mid, t1, parent, slot, rec);
    StoredParts(t1, parent.first, slot, s);
    WithFacts(mid, parent.first, slot, rec);
    WithStreamFacts(t1, parent.first, slot, s);
    AdoptedTree(t2, parent.first, slot);
    EnterAdds(t0, mid, t1, t2, t3, parent.first, slot, rec, s);
    EnterEvolves(mid, t3, parent.first, slot);
    SameSizes(t0, mid);
    SetsParts(t0, mid);
    EvolvesTwice(t0, mid, t3);
  }

  /** Midnight on 1 January 1980, which is what a new set is dated. */
  const EPOCH: nat := 0x21_0000

  lemma SetForMake(count: nat, cb: nat, up: Upcase, bytes: seq<byte>, rec: Rec)
    requires 3 <= rec.size <= MAX_SET && |bytes| == rec.size * ENTRY_BYTES && |bytes| > 1
    requires bytes[0] == 0x85 && bytes[1] == rec.size - 1 && ParsesTo(count, cb, up, bytes, rec.entry)
    ensures SetFor(count, cb, up, bytes, rec)
  {
    hide ParseSet;
  }

  datatype NodeType = RegularFile | Directory | CharacterDevice | BlockDevice

  /** The part of a VFS node this file system fills in. */
  datatype NodeInfo = NodeInfo(id: nat, kind: NodeType, size: nat, name: seq<byte>)

  ghost function NodeFor(parent: Stream, slot: nat, entry: Entry): Option<NodeInfo> {
    if slot <= MAX_SLOT && NullFree(entry.name) && |Encode(entry.name)| <= 255 then
      Some(NodeInfo(EncodeId(parent.first, slot, parent.contiguous),
                    if entry.IsDirectory() then Directory else RegularFile, entry.stream.length, Encode(entry.name)))
    else None
  }

  /** A path component that decodes to a name exFAT allows. */
  ghost predicate GoodName(name: seq<byte>) { Wanted(name).Some? && LegalName(Wanted(name).value) }

  lemma GoodNameIs(name: seq<byte>)
    ensures GoodName(name) <==> Wanted(name).Some? && LegalName(Wanted(name).value)
  {
  }

  lemma FindsName(up: Upcase, dirs: map<nat, map<nat, Rec>>, d: nat, name: seq<unit>, hit: Option<Hit>)
    requires d in dirs && Finds(up, dirs[d], Some(name), hit) && LegalName(name)
    ensures hit.None? <==> NameFree(up, dirs, d, name)
  {
  }

  /** The set at `d1`, `s1` is now the one at `d2`, `s2`, under its new name, and a file has
      taken its bytes along. */
  ghost predicate CarriedOver(count: nat, cb: nat, t: Tree, data: seq<seq<byte>>, t': Tree, data': seq<seq<byte>>,
                          d1: nat, s1: nat, d2: nat, s2: nat, name: seq<unit>) {
    && Moves(t, t', d1, s1, d2, s2, name) && t.Has(d1, s1)
    && (!t.At(d1, s1).entry.IsDirectory() ==>
        FileIn(count, cb, data', t', d2, s2) == FileIn(count, cb, data, t, d1, s1))
  }

  lemma CarriedMade(count: nat, cb: nat, t: Tree, data: seq<seq<byte>>, t': Tree, data': seq<seq<byte>>,
                    d1: nat, s1: nat, d2: nat, s2: nat, name: seq<unit>)
    requires Moves(t, t', d1, s1, d2, s2, name) && t.Has(d1, s1)
    requires !t.At(d1, s1).entry.IsDirectory() ==>
             FileIn(count, cb, data', t', d2, s2) == FileIn(count, cb, data, t, d1, s1)
    ensures CarriedOver(count, cb, t, data, t', data', d1, s1, d2, s2, name)
  {
    hide Moves, FileIn;
  }

  /** The slots the set of a name takes. */
  ghost function SlotsFor(name: seq<byte>): nat {
    match Wanted(name)
    case None => 0
    case Some(units) => 2 + NameEntries(|units|)
  }

  lemma SlotsForIs(name: seq<byte>)
    requires Wanted(name).Some?
    ensures SlotsFor(name) == 2 + NameEntries(|Wanted(name).value|)
  {
  }

  lemma NodeOfName(parent: Stream, slot: nat, s: Stream, kind: NodeType, name: seq<byte>)
    requires GoodName(name) && NullFree(name) && slot <= MAX_SLOT && parent.first < 0x1_0000_0000
             && (kind == RegularFile || kind == Directory)
    ensures var node := NodeFor(parent, slot, Entry(s, if kind == Directory then 0x10 else 0x20, Wanted(name).value));
            if |name| <= 255 then
              && node.Some? && node.value.name == name && node.value.kind == kind && node.value.size == s.length
              && node.value.id == EncodeId(parent.first, slot, parent.contiguous)
              && IdFirst(node.value.id) == parent.first && IdSlot(node.value.id) == slot
            else node.None?
  {
    hide *;
    GoodNameIs(name);
    WantedIs(name);
    EncodeDecode(name);
    IdRoundTrip(parent.first, slot, parent.contiguous);
    KindOf(s, Wanted(name).value);
    NodeForIs(parent, slot, Entry(s, if kind == Directory then 0x10 else 0x20, Wanted(name).value));
  }

  lemma WantedIs(name: seq<byte>)
    ensures Wanted(name).Some? ==> Decode(name, false) == Wanted(name)
  {
    hide Decode;
  }

  lemma NodeForIs(parent: Stream, slot: nat, entry: Entry)
    ensures NodeFor(parent, slot, entry) ==
            if slot <= MAX_SLOT && NullFree(entry.name) && |Encode(entry.name)| <= 255 then
              Some(NodeInfo(EncodeId(parent.first, slot, parent.contiguous),
                            if entry.IsDirectory() then Directory
                               else RegularFile, entry.stream.length, Encode(entry.name)))
            else None
  {
    hide Encode, EncodeId;
  }

  /** The set at `q` of directory `d` has that name, up to case. */
  ghost predicate Named(up: Upcase, dirs: map<nat, map<nat, Rec>>, d: nat, name: seq<byte>, q: nat) {
    && d in dirs && q in dirs[d] && Wanted(name).Some? && Wanted(name).value != []
    && Up(up, dirs[d][q].entry.name) == Up(up, Wanted(name).value)
  }

  ghost predicate Listed(up: Upcase, dirs: map<nat, map<nat, Rec>>, d: nat, name: seq<byte>) {
    exists q :: Named(up, dirs, d, name, q)
  }

  /** The set at `q` is a directory with sets in it. */
  ghost predicate Occupied(dirs: map<nat, map<nat, Rec>>, d: nat, q: nat) {
    && d in dirs && q in dirs[d] && dirs[d][q].entry.IsDirectory()
    && var m := dirs[d][q].entry.stream.first;
    && m in dirs && dirs[m] != map[]
  }

  lemma OccupiedIs(dirs: map<nat, map<nat, Rec>>, d: nat, q: nat)
    requires d in dirs && q in dirs[d]
    ensures Occupied(dirs, d, q) <==>
            dirs[d][q].entry.IsDirectory() && dirs[d][q].entry.stream.first in dirs
            && dirs[dirs[d][q].entry.stream.first] != map[]
  {
  }

  lemma FindsNamed(up: Upcase, dirs: map<nat, map<nat, Rec>>, d: nat, name: seq<byte>, hit: Option<Hit>)
    requires d in dirs && Finds(up, dirs[d], Wanted(name), hit)
    ensures hit.None? ==> !Listed(up, dirs, d, name)
    ensures hit.Some? ==>
            Named(up, dirs, d, name, hit.value.slot) && Listed(up, dirs, d, name) && hit.value.slot in dirs[d]
            && dirs[d][hit.value.slot] == hit.value.rec
  {
    hide Up, Wanted;
    if hit.Some? { assert Named(up, dirs, d, name, hit.value.slot); }
  }

  /** Getting from the first tree to the one with both sets. */
  lemma RetireReady(t0: Tree, mid: Tree, t: Tree, p2: Id, h: nat, d2: nat, s2: nat, rec: Rec)
    requires SameSets(t0, mid) && OthersSame(t0, mid, p2) && Evolves(t0, mid) && d2 in mid.dirs && !mid.Has(d2, s2)
             && t == mid.With(d2, s2, rec)
    requires OwnersOk(t.lay) && t.lay.heads.Keys == t.lay.chain.Keys && DirNamed(t0, h)
    requires forall e :: e in t.dirs ==> e in t.lay.owner
    ensures Evolves(t0, t) && DirId(h) != NodeId(d2, s2) && mid.dirs.Keys == t.dirs.Keys
    ensures forall x, q :: mid.Has(x, q) ==> t.Has(x, q) && t.At(x, q) == mid.At(x, q)
    ensures forall e :: e in t0.dirs ==> e in t0.lay.owner && e in t.lay.owner && t.lay.owner[e] == t0.lay.owner[e]
  {
    WithFacts(mid, d2, s2, rec);
    EvolvesWith(mid, d2, s2, rec);
    hide Tree.With, OwnersOk, SameSet;
    if h != ROOT_ID {
      assert t0.Has(IdFirst(h), IdSlot(h)) && mid.Has(IdFirst(h), IdSlot(h));
    }
    SetsEvolve(t0, mid, t);
  }

  /** A directory is not moved into itself, so the set moved is not the target's. */
  lemma NotItself(t: Tree, d: nat, s: nat, entry: Entry, h: nat, target: Stream)
    requires AllHomed(t) && t.Has(d, s) && t.At(d, s).entry == entry && target.first in t.dirs
    requires h != ROOT_ID ==>
             t.Has(IdFirst(h), IdSlot(h)) && t.At(IdFirst(h), IdSlot(h)).entry.stream == target
             && t.At(IdFirst(h), IdSlot(h)).entry.IsDirectory()
    requires entry.IsDirectory() ==> !Within(t, target.first, entry.stream.first)
    ensures NodeId(d, s) != DirId(h)
  {
  }

  lemma UnlistedFree(up: Upcase, dirs: map<nat, map<nat, Rec>>, d: nat, name: seq<byte>)
    requires d in dirs && !Listed(up, dirs, d, name) && GoodName(name)
    ensures NameFree(up, dirs, d, Wanted(name).value)
  {
    forall q | q in dirs[d] ensures Up(up, dirs[d][q].entry.name) != Up(up, Wanted(name).value) {
      assert !Named(up, dirs, d, name, q);
    }
  }

  /** The set at `q` is told to callers as `node`; `None` when its name does not fit. */
  ghost predicate Shows(s: Stream, dirs: map<nat, map<nat, Rec>>, q: nat, node: Option<NodeInfo>) {
    s.first in dirs && q in dirs[s.first] && node == NodeFor(s, q, dirs[s.first][q].entry)
  }

  /** The listable sets before slot `at`. */
  ghost function ShownBefore(s: Stream, dirs: map<nat, map<nat, Rec>>, at: nat): set<nat> {
    set q | 0 <= q < at && s.first in dirs && q in dirs[s.first] && NodeFor(s, q, dirs[s.first][q].entry).Some?
  }

  lemma ShowsIs(s: Stream, dirs: map<nat, map<nat, Rec>>, q: nat, node: Option<NodeInfo>)
    requires s.first in dirs && q in dirs[s.first] && node == NodeFor(s, q, dirs[s.first][q].entry)
    ensures Shows(s, dirs, q, node)
  {
  }

  lemma ShownSlot(s: Stream, dirs: map<nat, map<nat, Rec>>, q: nat, node: NodeInfo)
    requires Shows(s, dirs, q, Some(node))
    ensures q <= MAX_SLOT && node.id == EncodeId(s.first, q, s.contiguous)
  {
  }

  /** Decoding what was encoded gives the name back, and no other set has it: so a
      listed name finds its own set. */
  lemma ListedLooksUp(count: nat, cb: nat, up: Upcase, dirs: map<nat, map<nat, Rec>>, s: Stream, name: seq<byte>,
                      hit: Option<Hit>)
    requires s.first in dirs && NamesApart(up, dirs[s.first]) && Finds(up, dirs[s.first], Wanted(name), hit)
    requires forall q :: q in dirs[s.first] ==> 1 <= |dirs[s.first][q].entry.name| <= 255
    ensures forall q, n: NodeInfo {:trigger Shows(s, dirs, q, Some(n))} ::
              Shows(s, dirs, q, Some(n)) && n.name == name ==>
                hit == Some(Hit(q, dirs[s.first][q])) && NodeFor(s, q, dirs[s.first][q].entry) == Some(n)
  {
    forall q, n: NodeInfo | Shows(s, dirs, q, Some(n)) && n.name == name
      ensures hit == Some(Hit(q, dirs[s.first][q]))
    {
      DecodeEncode(dirs[s.first][q].entry.name);
    }
  }

  lemma NoneShown(s: Stream, dirs: map<nat, map<nat, Rec>>)
    ensures ShownBefore(s, dirs, 0) == {} && |ShownBefore(s, dirs, 0)| == 0
  {
  }

  lemma AllShown(s: Stream, dirs: map<nat, map<nat, Rec>>, at: nat)
    requires s.first in dirs && forall q :: q in dirs[s.first] ==> q < at
    ensures forall q :: |ShownBefore(s, dirs, q)| <= |ShownBefore(s, dirs, at)|
  {
    forall q ensures |ShownBefore(s, dirs, q)| <= |ShownBefore(s, dirs, at)| {
      SubsetSize(ShownBefore(s, dirs, q), ShownBefore(s, dirs, at));
    }
  }

  /** From one set to the next, what lies before grows by that set, if it shows. */
  lemma NextShown(s: Stream, dirs: map<nat, map<nat, Rec>>, at: nat, q: nat, size: nat, node: Option<NodeInfo>)
    requires s.first in dirs && q in dirs[s.first] && at <= q && size > 0
             && node == NodeFor(s, q, dirs[s.first][q].entry)
    requires forall t :: t in dirs[s.first] && t >= at ==> t >= q
    requires forall t :: t in dirs[s.first] && q < t ==> t >= q + size
    ensures |ShownBefore(s, dirs, q)| == |ShownBefore(s, dirs, at)| && Shows(s, dirs, q, node)
    ensures |ShownBefore(s, dirs, q + size)| == |ShownBefore(s, dirs, at)| + (if node.Some? then 1 else 0)
    ensures node.Some? ==> q <= MAX_SLOT
  {
    assert ShownBefore(s, dirs, q) == ShownBefore(s, dirs, at);
    var before, after := ShownBefore(s, dirs, q), ShownBefore(s, dirs, q + size);
    forall x ensures x in after <==> x in before || (x == q && node.Some?) {
      ShownAt(s, dirs, q, x);
      ShownAt(s, dirs, q + size, x);
    }
    hide ShownBefore, NodeFor;
    assert after == before + (if node.Some? then {q} else {});
    assert q !in before by { ShownAt(s, dirs, q, q); }
  }

  lemma ShownAt(s: Stream, dirs: map<nat, map<nat, Rec>>, at: nat, x: nat)
    ensures x in ShownBefore(s, dirs, at) <==>
            x < at && s.first in dirs && x in dirs[s.first] && NodeFor(s, x, dirs[s.first][x].entry).Some?
  {
  }

  function BlankFat(count: nat): (fat: seq<nat>)
    requires count >= 2
    ensures |fat| == count + 2 && fat[2] == fat[3] == END_OF_CHAIN
  {
    seq(count + 2, c => if c == 2 || c == 3 then END_OF_CHAIN else 0)
  }

  function BlankData(count: nat, cb: nat): (data: seq<seq<byte>>)
    requires cb > 0
    ensures |data| == count + 2 && forall c :: 0 <= c < count + 2 ==> data[c] == Blank(c, cb)
  {
    seq<seq<byte>>(count + 2, c requires 0 <= c < count + 2 => Blank(c, cb))
  }

  /** Cluster `c` of a freshly formatted volume. */
  function Blank(c: nat, cb: nat): (r: seq<byte>)
    requires cb > 0
    ensures |r| == cb && r[0] == (if c == 2 then 3 else 0) && forall i :: 1 <= i < cb ==> r[i] == 0
  {
    if c == 2 then [3] + Zeros(cb - 1) else Zeros(cb)
  }

  ghost function BlankLayout(): Layout {
    Layout(map[RootId := Head(3, false), BitmapId := Head(2, false)], map[RootId := [3], BitmapId := [2]],
           map[3 := Place(RootId, 0), 2 := Place(BitmapId, 0)])
  }

  lemma BlankBase(count: nat, cb: nat)
    requires 2 <= count <= cb * 8 && count < END_OF_CHAIN - 1 && cb > 0
    ensures DataOk(count, cb, BlankData(count, cb)) && CursorOk(count, BlankFat(count), NO_CURSOR)
    ensures (count + 7) / 8 <= cb && Clusters(count, [2]) && Clusters(count, [3])
    ensures BlankLayout().chain[BitmapId] == [2] && BitmapId in BlankLayout().heads
            && BlankLayout().heads[BitmapId] == Head(2, false)
  {
  }

  lemma BlankFits(count: nat, cb: nat, up: Upcase, root: Stream)
    requires 2 <= count <= cb * 8 && count < END_OF_CHAIN - 1 && 32 <= cb <= 0x200_0000 && cb % 32 == 0
    requires root == Stream(3, cb, cb, false)
    ensures var fat, data, lay := BlankFat(count), BlankData(count, cb), BlankLayout();
            var t := Tree(root, lay, map[3 := map[]], map[3 := 0]);
            && DataOk(count, cb, data) && Clusters(count, [2]) && Covers(count, Content(count, cb, data, [2])[..cb])
            && LayoutOk(count, fat, Content(count, cb, data, [2])[..cb], lay)
            && ChainsInHeap(count, lay) && HeadsOk(lay) && Shape(cb, up, t, {}, {}) && OnDisk(count, cb, up, data, t)
  {
    hide *;
    BlankBase(count, cb);
    BlankLaid(count, cb);
    Constants();
    BlankShape(cb, up, root);
    BlankDisk(count, cb, up, root);
  }

  lemma BlankLaid(count: nat, cb: nat)
    requires 2 <= count <= cb * 8 && count < END_OF_CHAIN - 1 && cb > 0
    ensures var fat, data, lay := BlankFat(count), BlankData(count, cb), BlankLayout();
            && DataOk(count, cb, data) && Clusters(count, [2]) && Covers(count, Content(count, cb, data, [2])[..cb])
            && LayoutOk(count, fat, Content(count, cb, data, [2])[..cb], lay)
  {
    BlankBase(count, cb);
    hide Content, BlankData, BlankFat, Used;
    forall c | InHeap(count, c)
           ensures Used(Content(count, cb, BlankData(count, cb), [2])[..cb], c) <==> c == 2 || c == 3 {
      BlankMark(count, cb, c);
    }
  }

  lemma BlankMark(count: nat, cb: nat, c: nat)
    requires 2 <= count <= cb * 8 && cb > 0 && DataOk(count, cb, BlankData(count, cb)) && Clusters(count, [2])
             && InHeap(count, c)
    ensures Used(Content(count, cb, BlankData(count, cb), [2])[..cb], c) <==> c == 2 || c == 3
  {
    var data := BlankData(count, cb);
    var bits, j := Content(count, cb, data, [2])[..cb], (c - 2) / 8;
    ChunkContent(count, cb, data, [2], 0, cb);
    assert bits[j] == Blank(2, cb)[j];
    hide Content, BlankData;
  }

  lemma BlankShape(cb: nat, up: Upcase, root: Stream)
    requires 32 <= cb <= 0x200_0000 && cb % ENTRY_BYTES == 0 && root == Stream(3, cb, cb, false)
    ensures Shape(cb, up, Tree(root, BlankLayout(), map[3 := map[]], map[3 := 0]), {}, {}) && HeadsOk(BlankLayout())
  {
    OneCluster(root, cb);
    hide CeilDiv;
  }

  lemma BlankRoot(count: nat, cb: nat)
    requires count >= 2 && cb > 0 && DataOk(count, cb, BlankData(count, cb)) && Clusters(count, [3])
    ensures Content(count, cb, BlankData(count, cb), [3]) == Zeros(cb)
  {
    var data := BlankData(count, cb);
    ChunkContent(count, cb, data, [3], 0, cb);
    assert data[3] == Blank(3, cb) == Zeros(cb);
  }

  lemma BlankDisk(count: nat, cb: nat, up: Upcase, root: Stream)
    requires 2 <= count <= cb * 8 && cb > 0 && cb % ENTRY_BYTES == 0 && DataOk(count, cb, BlankData(count, cb))
             && Clusters(count, [2]) && Clusters(count, [3])
    ensures ChainsInHeap(count, BlankLayout())
    ensures OnDisk(count, cb, up, BlankData(count, cb), Tree(root, BlankLayout(), map[3 := map[]], map[3 := 0]))
  {
    var data := BlankData(count, cb);
    BlankRoot(count, cb);
    hide Content, DirOk, DataOk, BlankData;
    EmptyDirectory(count, cb, up, cb);
    var t := Tree(root, BlankLayout(), map[3 := map[]], map[3 := 0]);
    assert Here(count, cb, up, data, t, 3);
  }

}
