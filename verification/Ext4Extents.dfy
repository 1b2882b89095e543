/** kernel/fs/ext4.cpp: the extent tree of an inode, as bytes, and the mapping from logical
    blocks to physical blocks it stands for. */
module Ext4Extents {
  import opened Common

  const MAGIC: nat := 0xF30A
  const HEADER_BYTES: nat := 12
  const ENTRY_BYTES: nat := 12
  const MAX_DEPTH: nat := 5
  const MAX_WRITTEN: nat := 32768
  const LOGICAL_LIMIT: nat := 0x1_0000_0000

  type Blocks = seq<seq<byte>>

  /** A 48-bit block number, high half first. */
  function Le48(b: seq<byte>, high: nat, low: nat): nat
    requires high + 2 <= |b| && low + 4 <= |b|
  {
    Le16(b, high) * 0x1_0000_0000 + Le32(b, low)
  }

  // ----------------------------------------------------------------- one node

  function Entries(n: seq<byte>): nat requires |n| >= HEADER_BYTES { Le16(n, 2) }
  function Capacity(n: seq<byte>): nat requires |n| >= HEADER_BYTES { Le16(n, 4) }
  function Depth(n: seq<byte>): nat requires |n| >= HEADER_BYTES { Le16(n, 6) }

  /** What `map_extent` demands of a node before it looks at its entries. */
  predicate Header(n: seq<byte>): (r: bool)
    ensures r ==> |n| >= HEADER_BYTES
  {
    && |n| >= HEADER_BYTES
    && Le16(n, 0) == MAGIC
    && Entries(n) <= Capacity(n)
    && HEADER_BYTES + Capacity(n) * ENTRY_BYTES <= |n|
    && Depth(n) <= MAX_DEPTH
  }

  /** The first logical block of entry `i`. */
  function First(n: seq<byte>, i: nat): (v: nat)
    requires Header(n) && i < Entries(n)
    ensures v < LOGICAL_LIMIT
  {
    Le32(n, HEADER_BYTES + i * ENTRY_BYTES)
  }

  datatype Extent = Extent(first: nat, count: nat, at: nat, written: bool)

  /** Entry `i` of a leaf. */
  function Leaf(n: seq<byte>, i: nat): (e: Extent)
    requires Header(n) && i < Entries(n)
    ensures e.first == First(n, i)
  {
    var entry := HEADER_BYTES + i * ENTRY_BYTES;
    var raw := Le16(n, entry + 4);
    Extent(First(n, i), if raw <= MAX_WRITTEN then raw
           else raw - MAX_WRITTEN, Le48(n, entry + 6, entry + 8), raw <= MAX_WRITTEN)
  }

  /** The block entry `i` of an index node leads to. */
  function Child(n: seq<byte>, i: nat): nat
    requires Header(n) && i < Entries(n)
  {
    var entry := HEADER_BYTES + i * ENTRY_BYTES;
    Le48(n, entry + 8, entry + 4)
  }

  predicate Covers(e: Extent, l: nat) { e.first <= l < e.first + e.count }

  // ----------------------------------------------------------------- the tree

  /** `e` is one of the extents in the leaves below `n`. */
  ghost predicate Holds(bl: Blocks, n: seq<byte>, d: nat, e: Extent)
    decreases d
  {
    Header(n) && exists i: nat :: i < Entries(n) && HeldBy(bl, n, d, i, e)
  }

  /** `e` comes from entry `i` of `n`. */
  ghost predicate HeldBy(bl: Blocks, n: seq<byte>, d: nat, i: nat, e: Extent)
    requires Header(n) && i < Entries(n)
    decreases d, 0
  {
    if d == 0 then e == Leaf(n, i) else Child(n, i) < |bl| && Holds(bl, bl[Child(n, i)], d - 1, e)
  }

  /** Where the range of entry `i` ends. */
  function End(n: seq<byte>, i: nat, hi: nat): nat
    requires Header(n) && i < Entries(n)
  {
    if i + 1 < Entries(n) then First(n, i + 1) else hi
  }

  /** Entries in ascending order, within `lo .. hi`. */
  ghost predicate Sorted(n: seq<byte>, lo: nat, hi: nat)
    requires Header(n)
  {
    && (forall i: nat :: i < Entries(n) ==> lo <= First(n, i) < hi)
    && (forall i: nat, j: nat :: i < j < Entries(n) ==> First(n, i) < First(n, j))
  }

  /** The tree below `n` is sound and keeps to the logical blocks `lo .. hi`. */
  ghost predicate WellFormed(bl: Blocks, n: seq<byte>, d: nat, lo: nat, hi: nat)
    decreases d
  {
    && Header(n) && Depth(n) == d && Sorted(n, lo, hi)
    && forall i: nat :: i < Entries(n) ==> EntryOk(bl, n, d, i, hi)
  }

  ghost predicate EntryOk(bl: Blocks, n: seq<byte>, d: nat, i: nat, hi: nat)
    requires Header(n) && i < Entries(n)
    decreases d, 0
  {
    if d == 0 then
      && Leaf(n, i).first + Leaf(n, i).count <= End(n, i, hi)
      && (Leaf(n, i).count > 0 ==> Leaf(n, i).at != 0 && Leaf(n, i).at + Leaf(n, i).count <= |bl|)
    else
      && 0 < Child(n, i) < |bl|
      && WellFormed(bl, bl[Child(n, i)], d - 1, First(n, i), End(n, i, hi))
  }

  /** Logical block `l` is stored in physical block `p`, or reads as zeros when `p` is 0. */
  ghost predicate Reads(bl: Blocks, n: seq<byte>, d: nat, l: nat, p: nat) {
    if p == 0 then forall e: Extent :: Holds(bl, n, d, e) && Covers(e, l) ==> !e.written
    else exists e: Extent :: Holds(bl, n, d, e) && Covers(e, l) && e.written && p == e.at + (l - e.first)
  }

  // ------------------------------------------------------------ what it implies

  lemma Held(bl: Blocks, n: seq<byte>, d: nat, e: Extent) returns (i: nat)
    requires Holds(bl, n, d, e)
    ensures Header(n) && i < Entries(n) && HeldBy(bl, n, d, i, e)
  {
    i :| i < Entries(n) && HeldBy(bl, n, d, i, e);
  }

  /** The extents of a sound tree lie in its range. */
  lemma {:induction false} Inside(bl: Blocks, n: seq<byte>, d: nat, lo: nat, hi: nat, e: Extent)
    requires WellFormed(bl, n, d, lo, hi) && Holds(bl, n, d, e)
    ensures lo <= e.first && e.first + e.count <= hi
    ensures e.count > 0 ==> 0 < e.at && e.at + e.count <= |bl|
    decreases d
  {
    var i := Held(bl, n, d, e);
    InsideEntry(bl, n, d, lo, hi, i, e);
  }

  /** ... and in the range of the entry they come from. */
  lemma {:induction false} InsideEntry(bl: Blocks, n: seq<byte>, d: nat, lo: nat, hi: nat, i: nat, e: Extent)
    requires WellFormed(bl, n, d, lo, hi) && i < Entries(n) && HeldBy(bl, n, d, i, e)
    ensures First(n, i) <= e.first && e.first + e.count <= End(n, i, hi)
    ensures lo <= e.first && End(n, i, hi) <= hi
    ensures e.count > 0 ==> 0 < e.at && e.at + e.count <= |bl|
    decreases d, 0
  {
    NodeParts(bl, n, d, lo, hi, i);
    hide WellFormed, Header, Leaf, First, Child, Sorted, Holds;
    if d > 0 { Inside(bl, bl[Child(n, i)], d - 1, First(n, i), End(n, i, hi), e); }
  }

  lemma NodeParts(bl: Blocks, n: seq<byte>, d: nat, lo: nat, hi: nat, i: nat)
    requires WellFormed(bl, n, d, lo, hi) && i < Entries(n)
    ensures Header(n) && EntryOk(bl, n, d, i, hi) && lo <= First(n, i) < End(n, i, hi) <= hi
    ensures forall j: nat :: i < j < Entries(n) ==> End(n, i, hi) <= First(n, j)
    ensures forall j: nat :: j < i ==> First(n, j) < First(n, i) && End(n, j, hi) <= First(n, i)
  {
    hide EntryOk, Header, First;
  }

  /** Only the entry whose range holds `l` can lead to an extent that covers `l`. */
  lemma Search(bl: Blocks, n: seq<byte>, d: nat, lo: nat, hi: nat, c: nat, l: nat, e: Extent)
    requires WellFormed(bl, n, d, lo, hi) && c < Entries(n) && First(n, c) <= l < End(n, c, hi) && Covers(e, l)
    ensures Holds(bl, n, d, e) <==> HeldBy(bl, n, d, c, e)
  {
    if Holds(bl, n, d, e) {
      var i := Held(bl, n, d, e);
      InsideEntry(bl, n, d, lo, hi, i, e);
      NodeParts(bl, n, d, lo, hi, i);
      NodeParts(bl, n, d, lo, hi, c);
      hide *;
      CoversIs(e, l);
      assert i == c;
    }
  }

  lemma CoversIs(e: Extent, l: nat)
    ensures Covers(e, l) <==> e.first <= l < e.first + e.count
  {
  }

  /** No extent starts before the first entry. */
  lemma BeforeFirst(bl: Blocks, n: seq<byte>, d: nat, lo: nat, hi: nat, l: nat, e: Extent)
    requires WellFormed(bl, n, d, lo, hi) && Covers(e, l) && (Entries(n) > 0 ==> l < First(n, 0))
    ensures !Holds(bl, n, d, e)
  {
    if Holds(bl, n, d, e) {
      var i := Held(bl, n, d, e);
      InsideEntry(bl, n, d, lo, hi, i, e);
      NodeParts(bl, n, d, lo, hi, i);
    }
  }

  /** Two extents of a sound tree never cover the same block. */
  lemma {:induction false} Apart(bl: Blocks, n: seq<byte>, d: nat, lo: nat, hi: nat, l: nat, e: Extent, f: Extent)
    requires WellFormed(bl, n, d, lo, hi) && Holds(bl, n, d, e) && Holds(bl, n, d, f) && Covers(e, l) && Covers(f, l)
    ensures e == f
    decreases d
  {
    var i := Held(bl, n, d, e);
    InsideEntry(bl, n, d, lo, hi, i, e);
    CoversIs(e, l);
    Search(bl, n, d, lo, hi, i, l, f);
    NodeParts(bl, n, d, lo, hi, i);
    hide WellFormed, Header, Leaf, First, Child, Sorted, Holds, Covers;
    if d > 0 { Apart(bl, bl[Child(n, i)], d - 1, First(n, i), End(n, i, hi), l, e, f); }
  }

  /** So the tree is a function: a block has one place. */
  lemma OnePlace(bl: Blocks, n: seq<byte>, d: nat, lo: nat, hi: nat, l: nat, p: nat, q: nat)
    requires WellFormed(bl, n, d, lo, hi) && Reads(bl, n, d, l, p) && Reads(bl, n, d, l, q)
    ensures p == q
  {
    hide WellFormed, Holds, Covers;
    if p != 0 && q != 0 {
      var e: Extent :| Holds(bl, n, d, e) && Covers(e, l) && e.written && p == e.at + (l - e.first);
      var f: Extent :| Holds(bl, n, d, f) && Covers(f, l) && f.written && q == f.at + (l - f.first);
      Apart(bl, n, d, lo, hi, l, e, f);
    }
  }

  /** The range `lo .. lo + len` is at `p` and on, or all reads as zeros. */
  ghost predicate Run(bl: Blocks, n: seq<byte>, d: nat, lo: nat, len: nat, p: nat) {
    forall l: nat :: lo <= l < lo + len ==> Reads(bl, n, d, l, Step(p, lo, l))
  }

  /** Block `l` of a stretch that starts with block `lo` at `p`. */
  function Step(p: nat, lo: nat, l: nat): nat { if p == 0 || l < lo then 0 else p + (l - lo) }

  /** Two nodes say the same about the blocks `lo .. hi`. */
  ghost predicate Same(bl: Blocks, m: seq<byte>, c: nat, n: seq<byte>, d: nat, lo: nat, hi: nat) {
    forall l: nat, e: Extent :: lo <= l < hi && Covers(e, l) ==> (Holds(bl, m, c, e) <==> Holds(bl, n, d, e))
  }

  /** Descending keeps what matters. */
  lemma SameDown(bl: Blocks, m: seq<byte>, c: nat, n: seq<byte>, d: nat, lo: nat, hi: nat, i: nat)
    requires d > 0 && WellFormed(bl, n, d, lo, hi) && i < Entries(n) && Child(n, i) < |bl|
             && Same(bl, m, c, n, d, lo, hi)
    ensures Same(bl, m, c, bl[Child(n, i)], d - 1, First(n, i), End(n, i, hi))
  {
    NodeParts(bl, n, d, lo, hi, i);
    hide WellFormed, Header, First, Child, Holds, Covers, End;
    forall l: nat, e: Extent | First(n, i) <= l < End(n, i, hi) && Covers(e, l)
      ensures Holds(bl, m, c, e) <==> Holds(bl, bl[Child(n, i)], d - 1, e)
    {
      Search(bl, n, d, lo, hi, i, l, e);
    }
  }

  lemma SameRefl(bl: Blocks, n: seq<byte>, d: nat, lo: nat, hi: nat)
    ensures Same(bl, n, d, n, d, lo, hi)
  {
  }

  /** A stretch nothing covers reads as zeros. */
  lemma HoleRun(bl: Blocks, m: seq<byte>, c: nat, n: seq<byte>, d: nat, lo: nat, hi: nat, from: nat, to: nat)
    requires Same(bl, m, c, n, d, lo, hi) && lo <= from <= to <= hi
    requires forall l: nat, e: Extent :: from <= l < to && Covers(e, l) ==> !Holds(bl, n, d, e)
    ensures Run(bl, m, c, from, to - from, 0)
  {
    hide Holds, Covers;
  }

  /** No entry at or before `from`: a hole up to the first entry. */
  lemma HoleBefore(bl: Blocks, m: seq<byte>, c: nat, n: seq<byte>, d: nat, lo: nat, hi: nat, from: nat, to: nat)
    requires WellFormed(bl, n, d, lo, hi) && Same(bl, m, c, n, d, lo, hi) && lo <= from <= to <= hi
    requires Entries(n) > 0 ==> to <= First(n, 0)
    ensures Run(bl, m, c, from, to - from, 0)
  {
    hide Holds, Covers, Same, Run, First, WellFormed;
    forall l: nat, e: Extent | from <= l < to && Covers(e, l) ensures !Holds(bl, n, d, e) {
      BeforeFirst(bl, n, d, lo, hi, l, e);
    }
    HoleRun(bl, m, c, n, d, lo, hi, from, to);
  }

  /** The last entry at or before `from` ends before it: a hole up to the next entry. */
  lemma HoleAfter(bl: Blocks, m: seq<byte>, c: nat, n: seq<byte>, lo: nat, hi: nat, i: nat, from: nat)
    requires WellFormed(bl, n, 0, lo, hi) && Same(bl, m, c, n, 0, lo, hi) && i < Entries(n)
    requires Leaf(n, i).first + Leaf(n, i).count <= from < End(n, i, hi)
    ensures Run(bl, m, c, from, End(n, i, hi) - from, 0)
  {
    NodeParts(bl, n, 0, lo, hi, i);
    hide Header, First, Holds, Same, Run, Leaf, WellFormed;
    forall l: nat, e: Extent | from <= l < End(n, i, hi) && Covers(e, l) ensures !Holds(bl, n, 0, e) {
      Search(bl, n, 0, lo, hi, i, l, e);
    }
    hide Covers;
    HoleRun(bl, m, c, n, 0, lo, hi, from, End(n, i, hi));
  }

  /** A leaf entry answers for all the blocks it covers. */
  lemma ExtentRun(bl: Blocks, m: seq<byte>, c: nat, n: seq<byte>, lo: nat, hi: nat, i: nat)
    requires WellFormed(bl, n, 0, lo, hi) && Same(bl, m, c, n, 0, lo, hi) && i < Entries(n) && Leaf(n, i).at != 0
    ensures var e := Leaf(n, i); Run(bl, m, c, e.first, e.count, if e.written then e.at else 0)
  {
    NodeParts(bl, n, 0, lo, hi, i);
    var e := Leaf(n, i);
    var p := if e.written then e.at else 0;
    hide Header, First, Leaf, WellFormed, Holds;
    forall l: nat | e.first <= l < e.first + e.count ensures Reads(bl, m, c, l, Step(p, e.first, l)) {
      Search(bl, n, 0, lo, hi, i, l, e);
      assert Covers(e, l) && HeldBy(bl, n, 0, i, e);
      forall f: Extent | Covers(f, l) && Holds(bl, m, c, f) ensures f == e {
        Search(bl, n, 0, lo, hi, i, l, f);
      }
    }
  }
}
