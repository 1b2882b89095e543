/** kernel/fs/ext4.cpp: a mounted, read-only volume.  Mapping logical blocks of a file to
    physical ones, with the last extent remembered, and reading through that mapping.

    The device may fail at any read. */
module Ext4Volume {
  import opened Common
  import opened Ext4Extents
  import opened Ext4Indirect

  /** An inode as `load_inode` decodes it. */
  datatype Inode = Inode(number: nat, extents: bool, block: seq<byte>, size: nat, fastSymlink: bool)

  /** The last answer of `map_extent`. */
  datatype Memo = Memo(inode: nat, logical: nat, length: nat, physical: nat)

  /** Which block of which directory the buffer holds; inode 0 for none. */
  datatype Loaded = Loaded(inode: nat, logical: nat)

  /** Logical block `l` of a file is in physical block `p`; 0 when it reads as zeros. */
  ghost predicate Located(bl: Blocks, per: nat, f: Inode, l: nat, p: nat)
    requires per > 0 && |f.block| == 60
  {
    if l >= LOGICAL_LIMIT then p == 0
    else if f.extents then Reads(bl, f.block, Depth(f.block), l, p)
    else IndirectAt(bl, per, f.block, l) == Some(p) && p < |bl|
  }

  /** The block map of the file is sound. */
  ghost predicate Sound(bl: Blocks, per: nat, f: Inode)
    requires per > 0 && |f.block| == 60
  {
    if f.extents then WellFormed(bl, f.block, Depth(f.block), 0, LOGICAL_LIMIT)
    else forall l: nat :: l < LOGICAL_LIMIT ==>
      IndirectAt(bl, per, f.block, l).Some? && IndirectAt(bl, per, f.block, l).value < |bl|
  }

  /** In a sound file every block has one place. */
  lemma LocatedOnce(bl: Blocks, per: nat, f: Inode, l: nat, p: nat, q: nat)
    requires per > 0 && |f.block| == 60 && Sound(bl, per, f) && Located(bl, per, f, l, p) && Located(bl, per, f, l, q)
    ensures p == q
  {
    hide WellFormed, Reads, IndirectAt;
    if l < LOGICAL_LIMIT && f.extents { OnePlace(bl, f.block, Depth(f.block), 0, LOGICAL_LIMIT, l, p, q); }
  }

  // -------------------------------------------------------- where a descent is

  /** If the file is sound, the tree below `node` is sound, spans `lo .. hi`, and says about
      those blocks what the whole tree says. */
  ghost predicate At(bl: Blocks, per: nat, f: Inode, node: seq<byte>, lo: nat, hi: nat) {
    && |node| >= HEADER_BYTES && |f.block| == 60 && per > 0 && f.extents && hi <= LOGICAL_LIMIT
    && (Sound(bl, per, f) ==>
          && WellFormed(bl, node, Depth(node), lo, hi)
          && Same(bl, f.block, Depth(f.block), node, Depth(node), lo, hi))
  }

  lemma AtStart(bl: Blocks, per: nat, f: Inode)
    requires |f.block| == 60 && per > 0 && f.extents
    ensures At(bl, per, f, f.block, 0, LOGICAL_LIMIT)
  {
    hide WellFormed, Same;
    SameRefl(bl, f.block, Depth(f.block), 0, LOGICAL_LIMIT);
  }

  lemma AtNode(bl: Blocks, per: nat, f: Inode, node: seq<byte>, lo: nat, hi: nat)
    requires At(bl, per, f, node, lo, hi)
    ensures |node| >= HEADER_BYTES && |f.block| == 60 && per > 0 && hi <= LOGICAL_LIMIT
    ensures Sound(bl, per, f) ==> Header(node)
    ensures Sound(bl, per, f) && Depth(node) > 0 ==> forall i: nat :: i < Entries(node) ==> 0 < Child(node, i) < |bl|
    ensures Sound(bl, per, f) && Depth(node) == 0 ==>
              forall i: nat :: i < Entries(node) && Leaf(node, i).count > 0 ==>
                     Leaf(node, i).at != 0 && Leaf(node, i).at + Leaf(node, i).count <= |bl|
  {
    hide Sorted, Same, Sound, Leaf, Child, Header, First, End, Entries;
    if Sound(bl, per, f) {
      var d := Depth(node);
      forall i: nat | i < Entries(node)
        ensures d > 0 ==> 0 < Child(node, i) < |bl|
        ensures d == 0 && Leaf(node, i).count > 0 ==>
                Leaf(node, i).at != 0 && Leaf(node, i).at + Leaf(node, i).count <= |bl|
      {
        NodeParts(bl, node, d, lo, hi, i);
        EntryParts(bl, node, d, i, hi);
      }
    }
  }

  lemma EntryParts(bl: Blocks, n: seq<byte>, d: nat, i: nat, hi: nat)
    requires Header(n) && i < Entries(n) && EntryOk(bl, n, d, i, hi)
    ensures d > 0 ==> 0 < Child(n, i) < |bl|
    ensures d == 0 && Leaf(n, i).count > 0 ==> Leaf(n, i).at != 0 && Leaf(n, i).at + Leaf(n, i).count <= |bl|
  {
  }

  /** One level down, through the last entry that starts at or before `logical`. */
  lemma AtDown(bl: Blocks, per: nat, f: Inode, node: seq<byte>, lo: nat, hi: nat, i: nat, end: nat)
    requires Header(node) && i < Entries(node) && Depth(node) > 0 && Child(node, i) < |bl|
             && |bl[Child(node, i)]| >= HEADER_BYTES
    requires end == if i + 1 < Entries(node) then Min(hi, First(node, i + 1)) else hi
    requires At(bl, per, f, node, lo, hi)
    ensures At(bl, per, f, bl[Child(node, i)], First(node, i), end)
    ensures Sound(bl, per, f) ==> Depth(bl[Child(node, i)]) == Depth(node) - 1
  {
    hide Same, Sound, First, Child, Sorted, Header;
    if Sound(bl, per, f) {
      NodeParts(bl, node, Depth(node), lo, hi, i);
      EndWithin(bl, node, Depth(node), lo, hi, i);
      SameDown(bl, f.block, Depth(f.block), node, Depth(node), lo, hi, i);
    }
  }

  lemma EndWithin(bl: Blocks, n: seq<byte>, d: nat, lo: nat, hi: nat, i: nat)
    requires WellFormed(bl, n, d, lo, hi) && i < Entries(n)
    ensures End(n, i, hi) == if i + 1 < Entries(n) then Min(hi, First(n, i + 1)) else hi
  {
    hide First, EntryOk, Header;
  }

  /** `len` blocks from `logical` on are answered by `p`, if the file is sound. */
  ghost predicate Answers(bl: Blocks, per: nat, f: Inode, logical: nat, len: nat, p: nat) {
    && |f.block| == 60 && per > 0
    && (Sound(bl, per, f) ==> Run(bl, f.block, Depth(f.block), logical, len, p) && logical + len <= LOGICAL_LIMIT)
  }

  /** No entry starts at or before `logical`. */
  lemma AtGap(bl: Blocks, per: nat, f: Inode, node: seq<byte>, lo: nat, hi: nat, logical: nat, end: nat)
    requires Header(node) && lo <= logical < end <= hi && (Entries(node) > 0 ==> end <= First(node, 0))
    requires At(bl, per, f, node, lo, hi)
    ensures Answers(bl, per, f, logical, end - logical, 0)
  {
    hide Same, Sound, First, WellFormed, Header, Run;
    if Sound(bl, per, f) {
      HoleBefore(bl, f.block, Depth(f.block), node, Depth(node), lo, hi, logical, end);
    }
  }

  /** The last leaf entry that starts at or before `logical` ends before it. */
  lemma AtHole(bl: Blocks, per: nat, f: Inode, node: seq<byte>, lo: nat, hi: nat, logical: nat, i: nat, end: nat)
    requires Header(node) && Depth(node) == 0 && i < Entries(node) && First(node, i) <= logical < end
             && !Covers(Leaf(node, i), logical)
    requires end == if i + 1 < Entries(node) then Min(hi, First(node, i + 1)) else hi
    requires At(bl, per, f, node, lo, hi)
    ensures Answers(bl, per, f, logical, end - logical, 0)
  {
    hide Same, Sound, First, WellFormed, Header, Run, Leaf;
    if Sound(bl, per, f) {
      EndWithin(bl, node, 0, lo, hi, i);
      NodeParts(bl, node, 0, lo, hi, i);
      HoleAfter(bl, f.block, Depth(f.block), node, lo, hi, i, logical);
    }
  }

  /** A leaf entry answers for all it covers. */
  lemma AtExtent(bl: Blocks, per: nat, f: Inode, node: seq<byte>, lo: nat, hi: nat, i: nat)
    requires Header(node) && Depth(node) == 0 && i < Entries(node) && Leaf(node, i).at != 0
    requires At(bl, per, f, node, lo, hi)
    ensures var e := Leaf(node, i); Answers(bl, per, f, e.first, e.count, if e.written then e.at else 0)
  {
    hide Same, Sound, First, WellFormed, Header, Run, Leaf;
    if Sound(bl, per, f) {
      NodeParts(bl, node, 0, lo, hi, i);
      ExtentRun(bl, f.block, Depth(f.block), node, lo, hi, i);
    }
  }

  class Volume {
    const blocks: Blocks
    const blockBytes: nat
    /** What the inode numbers stand for; nothing on a read-only volume changes it. */
    ghost const inodes: map<nat, Inode>
    var memo: Memo
    var loaded: Loaded
    var block: seq<byte>
    /** Device reads that failed so far. */
    ghost var faults: nat

    ghost predicate Layout() {
      && blockBytes >= 1024 && blockBytes % 4 == 0 && |blocks| > 0
      && (forall i :: 0 <= i < |blocks| ==> |blocks[i]| == blockBytes)
      && (forall n :: n in inodes ==> n != 0 && InodeOk(inodes[n], n))
    }

    ghost predicate InodeOk(f: Inode, n: nat) { f.number == n && |f.block| == 60 && (f.fastSymlink ==> f.size < 60) }

    ghost predicate Known(f: Inode) { f.number in inodes && inodes[f.number] == f }

    function PerBlock(): nat { blockBytes / 4 }

    /** The remembered answer is one the tree gives. */
    ghost predicate MemoOk(m: Memo) {
      m.inode != 0 ==>
        && m.inode in inodes
        && (m.physical != 0 ==> m.physical + m.length <= |blocks|)
        && Answers(blocks, PerBlock(), inodes[m.inode], m.logical, m.length, m.physical)
    }

    /** The buffer holds the block it is said to hold. */
    ghost predicate LoadedOk(w: Loaded, b: seq<byte>) {
      w.inode != 0 ==>
        && w.inode in inodes && |inodes[w.inode].block| == 60 && PerBlock() > 0
        && (Sound(blocks, PerBlock(), inodes[w.inode]) ==>
              exists p: nat :: 0 < p < |blocks| && Located(blocks, PerBlock(), inodes[w.inode], w.logical, p)
                && b == blocks[p])
    }

    ghost predicate Valid()
      reads `memo, `loaded, `block
    {
      && Layout() && |block| == blockBytes
      && MemoOk(memo) && LoadedOk(loaded, block)
    }

    /** A freshly mounted volume remembers nothing. */
    constructor (bl: Blocks, bs: nat, ghost files: map<nat, Inode>)
      requires bs >= 1024 && bs % 4 == 0 && |bl| > 0 && forall i :: 0 <= i < |bl| ==> |bl[i]| == bs
      requires forall n :: n in files ==>
               n != 0 && files[n].number == n && |files[n].block| == 60 && (files[n].fastSymlink ==> files[n].size < 60)
      ensures Valid() && blocks == bl && blockBytes == bs && inodes == files
    {
      blocks, blockBytes, inodes := bl, bs, files;
      memo, loaded, faults := Memo(0, 0, 0, 0), Loaded(0, 0), 0;
      block := seq(bs, _ => 0);
    }

    lemma Parts(f: Inode)
      requires Known(f) && Layout()
      ensures f.number != 0 && |f.block| == 60 && (f.fastSymlink ==> f.size < 60) && PerBlock() >= 256
              && PerBlock() * 4 == blockBytes
    {
    }

    /** `read_bytes` of one whole block into the buffer. */
    method ReadBlock(b: nat) returns (ok: bool)
      requires b < |blocks| && |block| == blockBytes && |blocks[b]| == blockBytes
      modifies `block, `faults
      ensures |block| == blockBytes && (ok ==> block == blocks[b])
      ensures faults == old(faults) + if ok then 0 else 1
    {
      var works: bool := *;
      if works {
        block := blocks[b];
        return true;
      }
      var junk: seq<byte> := *;
      var was := block;
      block := seq(|was|, i requires 0 <= i < |was| => if i < |junk| then junk[i] else was[i]);
      faults := faults + 1;
      return false;
    }

    /** The scan of an index node: the last of the leading entries that start at or before
        `logical`, and how far a hole behind it reaches. */
    method ScanIndex(n: seq<byte>, logical: nat, limit: nat) returns (chosen: int, end: nat)
      requires Header(n) && logical < limit
      ensures -1 <= chosen < Entries(n) && logical < end <= limit
      ensures forall i: nat :: i <= chosen ==> First(n, i) <= logical
      ensures chosen + 1 == Entries(n) ==> end == limit
      ensures chosen + 1 < Entries(n) ==> First(n, chosen + 1) > logical && end == Min(limit, First(n, chosen + 1))
    {
      hide First, Header;
      chosen, end := -1, limit;
      var i := 0;
      while i < Entries(n)
        invariant 0 <= i <= Entries(n) && chosen == i - 1 && end == limit
        invariant forall j: nat :: j < i ==> First(n, j) <= logical
      {
        var first := First(n, i);
        if first > logical {
          if first < end { end := first; }
          break;
        }
        chosen := i;
        i := i + 1;
      }
    }

    /** The scan of a leaf: an extent that covers `logical` among the leading entries that
        start at or before it, or the first entry past it. */
    method ScanLeaf(n: seq<byte>, logical: nat, limit: nat) returns (ok: bool, found: bool, at: nat, end: nat)
      requires Header(n) && logical < limit
      ensures at <= Entries(n) && logical < end <= limit
      ensures forall i: nat :: i < at ==> First(n, i) <= logical && !Covers(Leaf(n, i), logical)
      ensures !ok || found ==> at < Entries(n) && Covers(Leaf(n, at), logical) && end == limit
      ensures !ok ==> Leaf(n, at).at == 0 || Leaf(n, at).at + Leaf(n, at).count > |blocks|
      ensures found ==> ok && Leaf(n, at).at != 0 && Leaf(n, at).at + Leaf(n, at).count <= |blocks|
      ensures ok && !found && at == Entries(n) ==> end == limit
      ensures ok && !found && at < Entries(n) ==> First(n, at) > logical && end == Min(limit, First(n, at))
    {
      hide First, Header, Leaf;
      ok, found, at, end := true, false, 0, limit;
      while at < Entries(n)
        invariant at <= Entries(n) && end == limit && ok && !found
        invariant forall j: nat :: j < at ==> First(n, j) <= logical && !Covers(Leaf(n, j), logical)
      {
        var e := Leaf(n, at);
        if e.first > logical {
          if e.first < end { end := e.first; }
          break;
        }
        if logical - e.first >= e.count {
          at := at + 1;
          continue;
        }
        if e.at == 0 || e.at >= |blocks| || e.count > |blocks| - e.at {
          ok := false;
          return;
        }
        found := true;
        return;
      }
    }

    lemma ValidParts()
      requires Valid()
      ensures Layout() && |block| == blockBytes && MemoOk(memo) && LoadedOk(loaded, block)
      ensures forall i :: 0 <= i < |blocks| ==> |blocks[i]| == blockBytes
      ensures blockBytes >= 1024
    {
      hide MemoOk, LoadedOk;
    }

    lemma Sizes()
      requires Layout()
      ensures blockBytes >= 1024 && |blocks| > 0 && forall i :: 0 <= i < |blocks| ==> |blocks[i]| == blockBytes
    {
    }

    lemma ValidMade()
      requires Layout() && |block| == blockBytes && MemoOk(memo) && LoadedOk(loaded, block)
      ensures Valid()
    {
      hide Layout, MemoOk, LoadedOk;
    }

    lemma NoneLoaded(b: seq<byte>)
      ensures LoadedOk(Loaded(0, 0), b)
    {
    }

    lemma MemoMade(f: Inode, logical: nat, length: nat, physical: nat)
      requires Known(f) && (physical != 0 ==> physical + length <= |blocks|)
      requires Answers(blocks, PerBlock(), f, logical, length, physical)
      ensures MemoOk(Memo(f.number, logical, length, physical))
    {
      hide Answers;
    }

    lemma MemoParts(f: Inode, m: Memo)
      requires Known(f) && m.inode == f.number && f.number != 0 && MemoOk(m)
      ensures Answers(blocks, PerBlock(), f, m.logical, m.length, m.physical)
      ensures m.physical != 0 ==> m.physical + m.length <= |blocks|
    {
      hide Answers;
    }

    /** The part of an answered stretch from `logical` on. */
    lemma AnswersTail(f: Inode, m: Memo, logical: nat)
      requires m.logical <= logical < m.logical + m.length
               && Answers(blocks, PerBlock(), f, m.logical, m.length, m.physical)
      ensures Answers(blocks, PerBlock(), f, logical, m.logical + m.length - logical,
                      Step(m.physical, m.logical, logical))
    {
      hide Sound, Reads;
      var p := Step(m.physical, m.logical, logical);
      if Sound(blocks, PerBlock(), f) {
        forall l: nat | logical <= l < m.logical + m.length
               ensures Reads(blocks, f.block, Depth(f.block), l, Step(p, logical, l)) {
          assert Reads(blocks, f.block, Depth(f.block), l, Step(m.physical, m.logical, l));
        }
      }
    }

    /** `map_extent`: whatever the bytes on disk, it ends, and blocks it names are in the
        volume; on a sound tree the answer is the tree's, for the whole run. */
    method MapExtent(f: Inode, logical: nat) returns (ok: bool, physical: nat, run: nat)
      requires logical < LOGICAL_LIMIT && f.extents && Known(f) && Valid()
      modifies `memo, `loaded, `block, `faults
      ensures Valid() && faults >= old(faults)
      ensures ok ==> run > 0 && (physical != 0 ==> physical + run <= |blocks|)
      ensures ok ==> Answers(blocks, PerBlock(), f, logical, run, physical)
      ensures |f.block| == 60 && PerBlock() > 0 && (!ok && Sound(blocks, PerBlock(), f) ==> faults > old(faults))
    {
      hide *;
      ValidParts();
      Parts(f);
      StepIs();
      if memo.inode == f.number && logical >= memo.logical && logical - memo.logical < memo.length {
        var skip := logical - memo.logical;
        MemoParts(f, memo);
        AnswersTail(f, memo, logical);
        return true, if memo.physical == 0 then 0 else memo.physical + skip, memo.length - skip;
      }
      var node, limit, expected := f.block, LOGICAL_LIMIT, -1;
      ghost var lo: nat := 0;
      AtStart(blocks, PerBlock(), f);
      ExtentConstants();
      while true
        invariant -1 <= expected <= 5 && lo <= logical < limit && Layout() && |block| == blockBytes && MemoOk(memo)
                  && LoadedOk(loaded, block)
        invariant |node| >= 12 && At(blocks, PerBlock(), f, node, lo, limit)
        invariant expected >= 0 && Sound(blocks, PerBlock(), f) ==> Depth(node) == expected
        invariant faults == old(faults)
        decreases if expected == -1 then 6 else expected
      {
        AtNode(blocks, PerBlock(), f, node, lo, limit);
        if Header(node) { HeaderParts(node); }
        if !Header(node) || (expected >= 0 && Depth(node) != expected) {
          ValidMade();
          return false, 0, 0;
        }
        if Depth(node) == 0 {
          ok, physical, run := MapLeaf(f, node, logical, limit, lo);
          return;
        }
        var chosen, end := ScanIndex(node, logical, limit);
        if chosen < 0 {
          AtGap(blocks, PerBlock(), f, node, lo, limit, logical, end);
          MemoMade(f, logical, end - logical, 0);
          memo := Memo(f.number, logical, end - logical, 0);
          ValidMade();
          return true, 0, end - logical;
        }
        var child := Child(node, chosen);
        if child == 0 || child >= |blocks| {
          ValidMade();
          return false, 0, 0;
        }
        loaded := Loaded(0, 0);
        var read := ReadBlock(child);
        NoneLoaded(block);
        if !read {
          ValidMade();
          return false, 0, 0;
        }
        AtDown(blocks, PerBlock(), f, node, lo, limit, chosen, end);
        expected := Depth(node) - 1;
        lo := First(node, chosen);
        limit := end;
        node := block;
      }
    }

    /** The end of the descent: a leaf. */
    method MapLeaf(f: Inode, node: seq<byte>, logical: nat, limit: nat, ghost lo: nat)
      returns (ok: bool, physical: nat, run: nat)
      requires lo <= logical < limit && Header(node) && Depth(node) == 0 && At(blocks, PerBlock(), f, node, lo, limit)
      requires Known(f) && Layout() && |block| == blockBytes && MemoOk(memo) && LoadedOk(loaded, block)
      modifies `memo
      ensures Valid()
      ensures ok ==> run > 0 && (physical != 0 ==> physical + run <= |blocks|)
      ensures ok ==> Answers(blocks, PerBlock(), f, logical, run, physical)
      ensures |f.block| == 60 && PerBlock() > 0 && (Sound(blocks, PerBlock(), f) ==> ok)
    {
      hide *;
      AtNode(blocks, PerBlock(), f, node, lo, limit);
      var good, found, at, end := ScanLeaf(node, logical, limit);
      if !good {
        CoversIs(Leaf(node, at), logical);
        ValidMade();
        return false, 0, 0;
      }
      var start, length, target := logical, end - logical, 0;
      if found {
        var e := Leaf(node, at);
        CoversIs(e, logical);
        start, length, target := e.first, e.count, if e.written then e.at else 0;
        AtExtent(blocks, PerBlock(), f, node, lo, limit, at);
      } else if at == 0 {
        AtGap(blocks, PerBlock(), f, node, lo, limit, logical, end);
      } else {
        AtHole(blocks, PerBlock(), f, node, lo, limit, logical, at - 1, end);
      }
      MemoMade(f, start, length, target);
      memo := Memo(f.number, start, length, target);
      ValidMade();
      AnswersTail(f, memo, logical);
      StepIs();
      var skip := logical - start;
      return true, if target == 0 then 0 else target + skip, length - skip;
    }

    /** One pointer of a pointer block. */
    method PointerAt(table: nat, index: nat) returns (ok: bool, value: nat)
      requires index * 4 + 4 <= blockBytes && Layout()
      modifies `faults
      ensures faults >= old(faults)
      ensures ok ==> faults == old(faults) && Follow(blocks, table, index) == Some(value)
      ensures !ok ==> faults > old(faults) || Follow(blocks, table, index).None?
    {
      hide Le32;
      if table == 0 { return true, 0; }
      if table >= |blocks| { return false, 0; }
      var works: bool := *;
      if !works {
        faults := faults + 1;
        return false, 0;
      }
      return true, Le32(blocks[table], index * 4);
    }

    /** `map_indirect`: the pointer the block's number, written in base `PerBlock()`,
        leads to; refused exactly when that leads out of the volume. */
    method MapIndirect(f: Inode, logical: nat) returns (ok: bool, physical: nat)
      requires Known(f) && Layout()
      modifies `faults
      ensures |f.block| == 60 && PerBlock() > 0 && faults >= old(faults)
      ensures ok ==> IndirectAt(blocks, PerBlock(), f.block, logical) == Some(physical) && physical < |blocks|
      ensures !ok && faults == old(faults) ==>
                var p := IndirectAt(blocks, PerBlock(), f.block, logical); p.None? || p.value >= |blocks|
    {
      Parts(f);
      Sizes();
      hide *;
      var per, top := PerBlock(), f.block;
      IndirectParts(blocks, per, top, logical);
      var good, value := true, 0;
      if logical < 12 {
        value := Le32(top, 4 * logical);
      } else {
        var levels, off := WhichTree(top, logical - 12);
        if levels > 3 {
          TreesEnd(blocks, per, top, off);
          return true, 0;
        }
        TreesStep(blocks, per, top, levels, off);
        good, value := WalkTree(Le32(top, 4 * (11 + levels)), levels, off);
        if !good { return false, 0; }
      }
      if value >= |blocks| { return false, 0; }
      return true, value;
    }

    /** Which tree a block is in, and its number there; 4 for none. */
    method WhichTree(top: seq<byte>, number: nat) returns (levels: nat, off: nat)
      requires PerBlock() > 0 && |top| == 60
      ensures 1 <= levels <= 4 && (levels <= 3 ==> off < Power(PerBlock(), levels))
      ensures InTrees(blocks, PerBlock(), top, levels, off) == InTrees(blocks, PerBlock(), top, 1, number)
    {
      hide *;
      var per := PerBlock();
      var span := per;
      levels, off := 1, number;
      PowerParts(per, 1);
      while off >= span
        invariant 1 <= levels <= 3 && span == Power(per, levels) > 0
        invariant InTrees(blocks, per, top, levels, off) == InTrees(blocks, per, top, 1, number)
        decreases 4 - levels
      {
        TreesStep(blocks, per, top, levels, off);
        off := off - span;
        levels := levels + 1;
        if levels > 3 { return; }
        PowerParts(per, levels);
        span := Product(span, per);
      }
    }

    /** Down a tree of pointer blocks. */
    method WalkTree(top: nat, height: nat, number: nat) returns (ok: bool, value: nat)
      requires 4 <= blockBytes && blockBytes % 4 == 0 && number < Power(PerBlock(), height) && Layout()
      modifies `faults
      ensures faults >= old(faults)
      ensures ok ==> Pointer(blocks, PerBlock(), top, height, number) == Some(value)
      ensures !ok && faults == old(faults) ==> Pointer(blocks, PerBlock(), top, height, number).None?
    {
      PerBlockIs();
      hide *;
      var per, off, levels := PerBlock(), number, height;
      var span := Power(per, height);
      value := top;
      while levels > 0
        invariant 0 <= levels && off < span == Power(per, levels)
        invariant Pointer(blocks, per, value, levels, off) == Pointer(blocks, per, top, height, number)
        invariant faults == old(faults)
      {
        FromTop(blocks, per, value, levels, off);
        PowerParts(per, levels);
        span := Div(span, per);
        DivLess(off, span, per);
        var good, next := PointerAt(value, Div(off, span));
        if !good { return false, 0; }
        value := next;
        off := Mod(off, span);
        levels := levels - 1;
      }
      PointerNone(blocks, per, value, off);
      ok := true;
    }

    lemma PerBlockIs()
      requires blockBytes % 4 == 0
      ensures PerBlock() * 4 == blockBytes
    {
    }

    /** `map_block`. */
    method MapBlock(f: Inode, logical: nat) returns (ok: bool, physical: nat, run: nat)
      requires Known(f) && Valid()
      modifies `memo, `loaded, `block, `faults
      ensures Valid() && faults >= old(faults)
      ensures ok ==> run > 0 && (physical != 0 ==> physical + run <= |blocks|)
      ensures |f.block| == 60 && PerBlock() > 0
      ensures Sound(blocks, PerBlock(), f) && ok ==> RunAt(blocks, PerBlock(), f, logical, run, physical)
      ensures Sound(blocks, PerBlock(), f) && !ok ==> faults > old(faults)
    {
      ValidParts();
      Parts(f);
      hide Layout, Known, Answers, RunAt, IndirectAt, WellFormed, Reads, PerBlock;
      if logical >= LOGICAL_LIMIT {
        RunOne(blocks, PerBlock(), f, logical, 0);
        return true, 0, 1;
      }
      if f.extents {
        ok, physical, run := MapExtent(f, logical);
        if ok && Sound(blocks, PerBlock(), f) { RunAnswers(blocks, PerBlock(), f, logical, run, physical); }
        return;
      }
      ok, physical := MapIndirect(f, logical);
      run := 1;
      if ok { RunOne(blocks, PerBlock(), f, logical, physical); }
    }

    /** `read_bytes`: bytes from `within` of block `b` on; what came before a failure is
        right too. */
    method ReadBytes(b: nat, within: nat, take: nat, ghost run: nat) returns (ok: bool, out: seq<byte>)
      requires 0 < b && b + run <= |blocks| && within + take <= Product(run, blockBytes) && Layout()
      modifies `faults
      ensures |out| <= take && (ok ==> |out| == take) && faults >= old(faults) && (!ok ==> faults > old(faults))
      ensures forall i: nat :: i < |out| ==> out[i] == DiskByte(blocks, blockBytes, b, within + i)
    {
      Sizes();
      hide *;
      out := [];
      while |out| < take
        invariant |out| <= take && faults == old(faults)
        invariant forall i: nat :: i < |out| ==> out[i] == DiskByte(blocks, blockBytes, b, within + i)
        decreases take - |out|
      {
        var works: bool := *;
        if !works {
          faults := faults + 1;
          return false, out;
        }
        BlockWithin(within + |out|, blockBytes, run);
        DiskByteIs(blocks, blockBytes, b, within + |out|);
        var value := blocks[b + Div(within + |out|, blockBytes)][Mod(within + |out|, blockBytes)];
        out := out + [value];
      }
      ok := true;
    }

    /** `read_inode`: the file's bytes from `offset` on, as far as the file goes, whatever
        is remembered; what was read before a failure is right too. */
    method ReadInode(f: Inode, offset: nat, length: nat) returns (out: seq<byte>, error: Error)
      requires Known(f) && Valid()
      modifies `memo, `loaded, `block, `faults
      ensures Valid() && |f.block| == 60 && PerBlock() > 0
      ensures Sound(blocks, PerBlock(), f) || f.fastSymlink ==> Reading(blocks, blockBytes, f, offset, out)
      ensures error == NoError ==> |out| == if offset >= f.size then 0 else Min(length, f.size - offset)
      ensures error != NoError && Sound(blocks, PerBlock(), f) ==> faults > old(faults)
    {
      hide *;
      ValidParts();
      Sizes();
      Parts(f);
      ReadingNone(blocks, blockBytes, f, offset);
      if offset >= f.size { return [], NoError; }
      var total := if length > f.size - offset then f.size - offset else length;
      out := [];
      if f.fastSymlink {
        ReadingLink(blocks, blockBytes, f, offset, f.block[offset..offset + total]);
        return f.block[offset..offset + total], NoError;
      }
      while |out| < total
        invariant |out| <= total && Valid() && faults >= old(faults)
        invariant Sound(blocks, PerBlock(), f) ==> Reading(blocks, blockBytes, f, offset, out)
        decreases total - |out|
      {
        var at := offset + |out|;
        var within := Mod(at, blockBytes);
        var ok, physical, run := MapBlock(f, Div(at, blockBytes));
        if !ok { return out, DeviceError; }
        RoomLeft(run, blockBytes, within);
        var available := Product(run, blockBytes) - within;
        var take := if available < total - |out| then available else total - |out|;
        var good, more := true, seq(take, _ => 0);
        if physical != 0 {
          ValidParts();
          good, more := ReadBytes(physical, within, take, run);
        }
        if Sound(blocks, PerBlock(), f) {
          ReadRun(blocks, blockBytes, f, at, run, physical, more);
          ReadingMore(blocks, blockBytes, f, offset, out, more);
        }
        out := out + more;
        if !good { return out, DeviceError; }
      }
      error := NoError;
    }

    /** The start of `next_entry`: the buffer is made to hold block `logical` of a
        directory, unless that is a hole or cannot be read.  A block already there is used
        as it is, and is right although `map_extent` shares the buffer. */
    method LoadBlock(f: Inode, logical: nat) returns (ok: bool, hole: bool)
      requires Known(f) && Valid()
      modifies `memo, `loaded, `block, `faults
      ensures Valid() && |f.block| == 60 && PerBlock() > 0
      ensures ok && !hole ==> loaded == Loaded(f.number, logical)
      ensures ok && !hole && Sound(blocks, PerBlock(), f) ==>
                exists p: nat :: 0 < p < |blocks| && Located(blocks, PerBlock(), f, logical, p) && block == blocks[p]
      ensures ok && hole && Sound(blocks, PerBlock(), f) ==> Located(blocks, PerBlock(), f, logical, 0)
      ensures !ok && Sound(blocks, PerBlock(), f) ==> faults > old(faults)
    {
      hide *;
      ValidParts();
      Parts(f);
      hole := false;
      if loaded.inode != f.number || loaded.logical != logical {
        var mapped, physical, run := MapBlock(f, logical);
        ValidParts();
        if !mapped { return false, false; }
        if Sound(blocks, PerBlock(), f) { RunFirst(blocks, PerBlock(), f, logical, run, physical); }
        if physical == 0 { return true, true; }
        loaded := Loaded(0, 0);
        var read := ReadBlock(physical);
        NoneLoaded(block);
        ValidMade();
        if !read { return false, false; }
        loaded := Loaded(f.number, logical);
        LoadedMade(f, logical, physical, block);
        ValidMade();
      }
      LoadedParts(f);
      ok := true;
    }

    lemma LoadedMade(f: Inode, logical: nat, p: nat, b: seq<byte>)
      requires Known(f) && |f.block| == 60 && PerBlock() > 0 && 0 < p < |blocks| && b == blocks[p]
      requires Sound(blocks, PerBlock(), f) ==> Located(blocks, PerBlock(), f, logical, p)
      ensures LoadedOk(Loaded(f.number, logical), b)
    {
      hide Located, Sound;
    }

    lemma LoadedParts(f: Inode)
      requires Known(f) && f.number != 0 && |f.block| == 60 && PerBlock() > 0 && loaded.inode == f.number
               && LoadedOk(loaded, block)
      ensures Sound(blocks, PerBlock(), f) ==>
                exists p: nat :: 0 < p < |blocks| && Located(blocks, PerBlock(), f, loaded.logical, p)
                  && block == blocks[p]
    {
      hide Located, Sound;
    }
  }

  /** Blocks from `logical` on are at `p` and on, or all holes. */
  ghost predicate RunAt(bl: Blocks, per: nat, f: Inode, logical: nat, run: nat, p: nat) {
    && |f.block| == 60 && per > 0
    && forall l: nat :: logical <= l < logical + run ==> Located(bl, per, f, l, Step(p, logical, l))
  }

  lemma RunOne(bl: Blocks, per: nat, f: Inode, logical: nat, p: nat)
    requires |f.block| == 60 && per > 0 && Located(bl, per, f, logical, p)
    ensures RunAt(bl, per, f, logical, 1, p)
  {
    hide Located;
  }

  lemma RunAnswers(bl: Blocks, per: nat, f: Inode, logical: nat, run: nat, p: nat)
    requires f.extents && Answers(bl, per, f, logical, run, p) && Sound(bl, per, f)
    ensures RunAt(bl, per, f, logical, run, p)
  {
    hide Sound, Reads;
  }

  /** Byte `o` of physical block `p`; a hole is all zeros. */
  ghost function ValueAt(bl: Blocks, p: nat, o: nat): byte {
    if p == 0 || p >= |bl| || o >= |bl[p]| then 0 else bl[p][o]
  }

  /** Byte `at`, counted from physical block `b` on. */
  ghost function DiskByte(bl: Blocks, bs: nat, b: nat, at: nat): byte {
    if bs == 0 then 0 else ValueAt(bl, b + Div(at, bs), Mod(at, bs))
  }

  lemma DiskByteIs(bl: Blocks, bs: nat, b: nat, at: nat)
    requires bs > 0 && 0 < b && b + Div(at, bs) < |bl| && |bl[b + Div(at, bs)]| == bs
    ensures DiskByte(bl, bs, b, at) == bl[b + Div(at, bs)][Mod(at, bs)]
  {
    hide Div, Mod;
  }

  /** Byte `j` of a file is `b`. */
  ghost predicate Content(bl: Blocks, bs: nat, f: Inode, j: nat, b: byte) {
    && |f.block| == 60 && bs >= 4
    && if f.fastSymlink then j < 60 && b == f.block[j]
       else exists p: nat :: Located(bl, bs / 4, f, Div(j, bs), p) && b == ValueAt(bl, p, Mod(j, bs))
  }

  /** A stretch of a file, from byte `at` on. */
  ghost predicate Reading(bl: Blocks, bs: nat, f: Inode, at: nat, out: seq<byte>) {
    forall i: nat :: i < |out| ==> Content(bl, bs, f, at + i, out[i])
  }

  lemma ReadingMore(bl: Blocks, bs: nat, f: Inode, at: nat, out: seq<byte>, more: seq<byte>)
    requires Reading(bl, bs, f, at, out) && Reading(bl, bs, f, at + |out|, more)
    ensures Reading(bl, bs, f, at, out + more)
  {
    hide Content;
    forall i: nat | i < |out + more| ensures Content(bl, bs, f, at + i, (out + more)[i]) {
      if i >= |out| { assert at + |out| + (i - |out|) == at + i; }
    }
  }

  /** Byte `i` past `at`, in blocks. */
  lemma ByteOf(at: nat, bs: nat, i: nat)
    requires bs > 0
    ensures Div(at + i, bs) == Div(at, bs) + Div(Mod(at, bs) + i, bs)
    ensures Mod(at + i, bs) == Mod(Mod(at, bs) + i, bs)
  {
    var a, w := at / bs, at % bs + i;
    var q, r := w / bs, w % bs;
    assert at == a * bs + at % bs && w == q * bs + r;
    Distribute(a, q, bs);
    DivModUnique(at + i, bs, a + q, r);
  }

  lemma Distribute(a: nat, b: nat, c: nat)
    ensures (a + b) * c == a * c + b * c
  {
  }

  /** A run of blocks read from disk is the file's bytes. */
  lemma ReadRun(bl: Blocks, bs: nat, f: Inode, at: nat, run: nat, p: nat, out: seq<byte>)
    requires bs >= 4 && !f.fastSymlink && Mod(at, bs) + |out| <= Product(run, bs)
    requires forall i: nat :: i < |out| ==> out[i] == if p == 0 then 0 else DiskByte(bl, bs, p, Mod(at, bs) + i)
    requires RunAt(bl, bs / 4, f, Div(at, bs), run, p)
    ensures Reading(bl, bs, f, at, out)
  {
    hide Located, Div, Mod, Product;
    forall i: nat | i < |out| ensures Content(bl, bs, f, at + i, out[i]) {
      var k := Div(Mod(at, bs) + i, bs);
      ByteOf(at, bs, i);
      BlockWithin(Mod(at, bs) + i, bs, run);
      assert Located(bl, bs / 4, f, Div(at, bs) + k, Step(p, Div(at, bs), Div(at, bs) + k));
    }
  }

  lemma BlockWithin(w: nat, bs: nat, run: nat)
    requires bs > 0 && w < Product(run, bs)
    ensures Div(w, bs) < run
  {
    DivLess(w, bs, run);
  }

  lemma StepIs()
    ensures forall p: nat, lo: nat, l: nat :: Step(p, lo, l) == if p == 0 || l < lo then 0 else p + (l - lo)
  {
  }

  lemma ExtentConstants()
    ensures LOGICAL_LIMIT == 0x1_0000_0000 && HEADER_BYTES == 12 && MAX_DEPTH == 5
  {
  }

  lemma HeaderParts(n: seq<byte>)
    requires Header(n)
    ensures |n| >= 12 && Depth(n) <= 5
  {
  }

  lemma IndirectParts(bl: Blocks, per: nat, top: seq<byte>, l: nat)
    requires per > 0 && |top| == 60
    ensures l < 12 ==> IndirectAt(bl, per, top, l) == Some(Le32(top, 4 * l))
    ensures l >= 12 ==> IndirectAt(bl, per, top, l) == InTrees(bl, per, top, 1, l - 12)
  {
    hide Le32, InTrees;
  }

  lemma TreesStep(bl: Blocks, per: nat, top: seq<byte>, levels: nat, off: nat)
    requires per > 0 && |top| == 60 && 1 <= levels <= 3
    ensures off < Power(per, levels) ==>
            InTrees(bl, per, top, levels, off) == Pointer(bl, per, Le32(top, 4 * (11 + levels)), levels, off)
    ensures off >= Power(per, levels) ==>
            InTrees(bl, per, top, levels, off) == InTrees(bl, per, top, levels + 1, off - Power(per, levels))
    ensures InTrees(bl, per, top, 4, off) == Some(0)
    ensures off >= Power(per, levels) && levels == 3 ==> InTrees(bl, per, top, levels, off) == Some(0)
  {
    hide Le32, Power, Pointer;
  }

  lemma TreesEnd(bl: Blocks, per: nat, top: seq<byte>, off: nat)
    requires per > 0 && |top| == 60
    ensures InTrees(bl, per, top, 4, off) == Some(0)
  {
  }

  lemma PowerParts(per: nat, k: nat)
    requires per > 0 && k > 0
    ensures Power(per, k) == Product(Power(per, k - 1), per) == Product(per, Power(per, k - 1))
            && Div(Power(per, k), per) == Power(per, k - 1)
    ensures Power(per, 0) == 1 && Power(per, 1) == per
  {
    var m := Power(per, k - 1);
    assert Power(per, k) == per * m;
    DivModUnique(per * m, per, m, 0);
    assert Power(per, 1) == Times(per, Power(per, 0));
  }

  lemma PointerNone(bl: Blocks, per: nat, top: nat, off: nat)
    requires per > 0
    ensures Pointer(bl, per, top, 0, off) == Some(top)
  {
  }

  lemma ReadingNone(bl: Blocks, bs: nat, f: Inode, at: nat)
    ensures Reading(bl, bs, f, at, [])
  {
  }

  lemma ReadingLink(bl: Blocks, bs: nat, f: Inode, at: nat, out: seq<byte>)
    requires |f.block| == 60 && bs >= 4 && f.fastSymlink && at + |out| <= 60 && out == f.block[at..at + |out|]
    ensures Reading(bl, bs, f, at, out)
  {
  }

  lemma RoomLeft(run: nat, bs: nat, within: nat)
    requires run > 0 && within < bs
    ensures within < Product(run, bs)
  {
    Scale(bs, 0, run);
  }

  lemma RunFirst(bl: Blocks, per: nat, f: Inode, logical: nat, run: nat, p: nat)
    requires run > 0 && RunAt(bl, per, f, logical, run, p)
    ensures |f.block| == 60 && per > 0 && Located(bl, per, f, logical, p)
  {
    hide Located;
    assert Step(p, logical, logical) == p;
  }
}
