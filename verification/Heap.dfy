/** kernel/memory/heap.cpp: address-ordered first fit with alignment, splitting and
    coalescing.

    Memory is a row of 16-byte cells of two words each, so that what a user writes may
    look like a header.  Addresses count cells; a block's header is its first cell and a
    free block's `next` is the first word of its second. */
module Heap {
  import opened Common

  const USED: nat := 0x4445_5355_5348_5248
  const FREE: nat := 0x4545_5246_5348_5248
  const CELL: nat := 16
  const MIN_BLOCK: nat := 2

  datatype Cell = Cell(lo: nat, hi: nat)

  /** What a caller holds: how many cells they asked for and how they are aligned. */
  datatype Live = Live(cells: nat, al: nat)

  datatype Block = Block(start: nat, size: nat, live: Option<Live>) {
    predicate Used() { live.Some? }
  }

  // -------------------------------------------------------------------- tiling

  /** The blocks follow one another from `begin` to `end`. */
  ghost predicate Tiles(bs: seq<Block>, begin: nat, end: nat) {
    if bs == [] then begin == end
    else bs[0].start == begin && bs[0].size >= MIN_BLOCK && Tiles(bs[1..], begin + bs[0].size, end)
  }

  lemma {:induction false} TilesApart(a: seq<Block>, b: seq<Block>, begin: nat, end: nat)
    requires Tiles(a + b, begin, end)
    ensures exists mid: nat :: Tiles(a, begin, mid) && Tiles(b, mid, end)
  {
    if a == [] {
      assert a + b == b;
      assert Tiles(a, begin, begin);
    } else {
      assert (a + b)[1..] == a[1..] + b;
      TilesApart(a[1..], b, begin + a[0].size, end);
      var mid: nat :| Tiles(a[1..], begin + a[0].size, mid) && Tiles(b, mid, end);
      assert Tiles(a, begin, mid);
    }
  }

  lemma {:induction false} TilesJoin(a: seq<Block>, b: seq<Block>, begin: nat, mid: nat, end: nat)
    requires Tiles(a, begin, mid) && Tiles(b, mid, end)
    ensures Tiles(a + b, begin, end)
  {
    if a == [] {
      assert a + b == b;
    } else {
      assert (a + b)[1..] == a[1..] + b;
      TilesJoin(a[1..], b, begin + a[0].size, mid, end);
    }
  }

  /** Every block of a tiling lies inside it. */
  lemma {:induction false} TilesWithin(bs: seq<Block>, begin: nat, end: nat)
    requires Tiles(bs, begin, end)
    ensures begin <= end && forall k :: 0 <= k < |bs| ==>
            bs[k].size >= MIN_BLOCK && begin <= bs[k].start && bs[k].start + bs[k].size <= end
  {
    if bs != [] {
      TilesWithin(bs[1..], begin + bs[0].size, end);
      forall k | 0 < k < |bs| ensures bs[k] == bs[1..][k - 1] {}
    }
  }

  /** Where a block of the tiling starts, the ones before it have ended. */
  lemma TilesAt(a: seq<Block>, f: Block, c: seq<Block>, begin: nat, end: nat)
    requires Tiles(a + [f] + c, begin, end)
    ensures Tiles(a, begin, f.start) && f.size >= MIN_BLOCK && Tiles(c, f.start + f.size, end)
    ensures begin <= f.start && f.start + f.size <= end
  {
    assert a + [f] + c == a + ([f] + c);
    TilesApart(a, [f] + c, begin, end);
    var mid: nat :| Tiles(a, begin, mid) && Tiles([f] + c, mid, end);
    assert ([f] + c)[1..] == c && ([f] + c)[0] == f;
    TilesWithin(a, begin, mid);
    TilesWithin(c, f.start + f.size, end);
  }

  lemma TilesOne(f: Block)
    requires f.size >= MIN_BLOCK
    ensures Tiles([f], f.start, f.start + f.size)
  {
    assert [f][1..] == [];
  }

  // ------------------------------------------------------------- the free list

  /** The start of the first free block, or `tail` if there is none. */
  function FirstFree(bs: seq<Block>, tail: nat): nat {
    if bs == [] then tail else if !bs[0].Used() then bs[0].start else FirstFree(bs[1..], tail)
  }

  /** The start of the last free block, or 0. */
  function LastFree(bs: seq<Block>): nat {
    if bs == [] then 0 else if !bs[|bs| - 1].Used() then bs[|bs| - 1].start else LastFree(bs[..|bs| - 1])
  }

  lemma {:induction false} FirstFreeConcat(a: seq<Block>, b: seq<Block>, tail: nat)
    ensures FirstFree(a + b, tail) == FirstFree(a, FirstFree(b, tail))
  {
    if a == [] {
      assert a + b == b;
    } else {
      assert (a + b)[1..] == a[1..] + b && (a + b)[0] == a[0];
      FirstFreeConcat(a[1..], b, tail);
    }
  }

  function CellAt(mem: seq<Cell>, begin: nat, a: nat): Cell {
    if begin <= a < begin + |mem| then mem[a - begin] else Cell(0, 0)
  }

  /** One block's header is right, and its link if it is free. */
  ghost predicate Headed(mem: seq<Cell>, begin: nat, b: Block, next: nat) {
    && CellAt(mem, begin, b.start) == Cell(b.size, if b.Used() then USED else FREE)
    && (!b.Used() ==> CellAt(mem, begin, b.start + 1).lo == next)
  }

  /** The blocks' headers are right, and the free ones are linked in order, the last one
      to `tail`. */
  ghost predicate Chained(mem: seq<Cell>, begin: nat, bs: seq<Block>, tail: nat) {
    bs == [] || (Headed(mem, begin, bs[0], FirstFree(bs[1..], tail)) && Chained(mem, begin, bs[1..], tail))
  }

  lemma {:induction false} ChainedConcat(mem: seq<Cell>, begin: nat, a: seq<Block>, b: seq<Block>, tail: nat)
    ensures Chained(mem, begin, a + b, tail) <==>
            Chained(mem, begin, a, FirstFree(b, tail)) && Chained(mem, begin, b, tail)
  {
    if a == [] {
      assert a + b == b;
    } else {
      assert (a + b)[1..] == a[1..] + b && (a + b)[0] == a[0];
      FirstFreeConcat(a[1..], b, tail);
      ChainedConcat(mem, begin, a[1..], b, tail);
    }
  }

  /** The headers and links of `bs` are the same in both memories. */
  ghost predicate SameHeads(mem: seq<Cell>, mem': seq<Cell>, begin: nat, bs: seq<Block>) {
    forall k :: 0 <= k < |bs| ==> SameHead(mem, mem', begin, bs[k])
  }

  ghost predicate SameHead(mem: seq<Cell>, mem': seq<Cell>, begin: nat, b: Block) {
    && CellAt(mem', begin, b.start) == CellAt(mem, begin, b.start)
    && (!b.Used() ==> CellAt(mem', begin, b.start + 1).lo == CellAt(mem, begin, b.start + 1).lo)
  }

  /** Writes outside a stretch of blocks, or to their users' cells, leave it chained. */
  lemma {:induction false} ChainedFrame(mem: seq<Cell>, mem': seq<Cell>, begin: nat, bs: seq<Block>, tail: nat)
    requires Chained(mem, begin, bs, tail) && SameHeads(mem, mem', begin, bs)
    ensures Chained(mem', begin, bs, tail)
  {
    if bs != [] {
      forall k | 0 <= k < |bs[1..]| ensures SameHead(mem, mem', begin, bs[1..][k]) { assert bs[1..][k] == bs[k + 1]; }
      assert SameHead(mem, mem', begin, bs[0]);
      ChainedFrame(mem, mem', begin, bs[1..], tail);
    }
  }

  /** A stretch without free blocks is chained to anything. */
  lemma {:induction false} ChainedUsed(mem: seq<Cell>, begin: nat, bs: seq<Block>, tail: nat, tail': nat)
    requires Chained(mem, begin, bs, tail) && forall k :: 0 <= k < |bs| ==> bs[k].Used()
    ensures Chained(mem, begin, bs, tail') && FirstFree(bs, tail) == tail
  {
    if bs != [] {
      forall k | 0 <= k < |bs[1..]| ensures bs[1..][k].Used() { assert bs[1..][k] == bs[k + 1]; }
      ChainedUsed(mem, begin, bs[1..], tail, tail');
    }
  }

  ghost predicate AllUsed(bs: seq<Block>) { forall k :: 0 <= k < |bs| ==> bs[k].Used() }

  /** The stretch up to the first free block, that block, and the rest. */
  lemma {:induction false} FirstSplit(bs: seq<Block>, tail: nat) returns (u: seq<Block>, f: Block, c: seq<Block>)
    requires !AllUsed(bs)
    ensures bs == u + [f] + c && AllUsed(u) && !f.Used() && FirstFree(bs, tail) == f.start
  {
    if !bs[0].Used() {
      u, f, c := [], bs[0], bs[1..];
      assert bs == u + [f] + c;
    } else {
      assert !AllUsed(bs[1..]) by {
        var k :| 0 <= k < |bs| && !bs[k].Used();
        assert !bs[1..][k - 1].Used();
      }
      var u1, f1, c1 := FirstSplit(bs[1..], tail);
      u, f, c := [bs[0]] + u1, f1, c1;
      assert bs == [bs[0]] + bs[1..] == u + [f] + c;
    }
  }

  /** The stretch before the last free block, that block, and what follows. */
  lemma {:induction false} LastSplit(bs: seq<Block>) returns (x: seq<Block>, f: Block, u: seq<Block>)
    requires !AllUsed(bs)
    ensures bs == x + [f] + u && AllUsed(u) && !f.Used() && LastFree(bs) == f.start
  {
    var n := |bs| - 1;
    if !bs[n].Used() {
      x, f, u := bs[..n], bs[n], [];
      assert bs == x + [f] + u;
    } else {
      assert !AllUsed(bs[..n]) by {
        var k :| 0 <= k < |bs| && !bs[k].Used();
        assert !bs[..n][k].Used();
      }
      var x1, f1, u1 := LastSplit(bs[..n]);
      x, f, u := x1, f1, u1 + [bs[n]];
      assert bs == bs[..n] + [bs[n]] == x + [f] + u;
    }
  }

  lemma {:induction false} NoLast(bs: seq<Block>)
    requires AllUsed(bs)
    ensures LastFree(bs) == 0
  {
    if bs != [] {
      assert bs[..|bs| - 1][..] == bs[..|bs| - 1];
      NoLast(bs[..|bs| - 1]);
    }
  }

  lemma {:induction false} NoFirst(bs: seq<Block>, tail: nat)
    requires AllUsed(bs)
    ensures FirstFree(bs, tail) == tail
  {
    if bs != [] { NoFirst(bs[1..], tail); }
  }

  lemma ChainedOne(mem: seq<Cell>, begin: nat, f: Block, tail: nat)
    ensures Chained(mem, begin, [f], tail) <==> Headed(mem, begin, f, tail)
  {
    assert [f][1..] == [];
  }

  lemma ChainedThree(mem: seq<Cell>, begin: nat, a: seq<Block>, f: Block, c: seq<Block>, tail: nat)
    ensures Chained(mem, begin, a + [f] + c, tail) <==>
            && Chained(mem, begin, a, if f.Used() then FirstFree(c, tail) else f.start)
            && Headed(mem, begin, f, FirstFree(c, tail)) && Chained(mem, begin, c, tail)
    ensures FirstFree(a + [f] + c, tail) == FirstFree(a, if f.Used() then FirstFree(c, tail) else f.start)
  {
    assert a + [f] + c == a + ([f] + c);
    ChainedConcat(mem, begin, a, [f] + c, tail);
    ChainedConcat(mem, begin, [f], c, tail);
    FirstFreeConcat(a, [f] + c, tail);
    FirstFreeConcat([f], c, tail);
    ChainedOne(mem, begin, f, FirstFree(c, tail));
    assert [f][1..] == [];
  }

  /** Rewriting the last link of a stretch: `p` is its last free block. */
  lemma Relinked(mem: seq<Cell>, mem': seq<Cell>, begin: nat, a: seq<Block>, lo: nat, hi: nat, t: nat, t': nat)
    requires Chained(mem, begin, a, t) && Tiles(a, lo, hi) && lo > 0
    requires forall k :: 0 <= k < |a| && (a[k].Used() || a[k].start != LastFree(a)) ==> SameHead(mem, mem', begin, a[k])
    requires LastFree(a) != 0 ==>
             CellAt(mem', begin, LastFree(a)) == CellAt(mem, begin, LastFree(a))
             && CellAt(mem', begin, LastFree(a) + 1).lo == t'
    ensures Chained(mem', begin, a, t') && FirstFree(a, t') == if LastFree(a) == 0 then t' else FirstFree(a, t)
  {
    if AllUsed(a) {
      NoLast(a);
      NoFirst(a, t');
      ChainedFrame(mem, mem', begin, a, t);
      ChainedUsed(mem', begin, a, t, t');
    } else {
      var x, f, u := LastSplit(a);
      TilesWithin(a, lo, hi);
      assert a[|x|] == f;
      TilesAt(x, f, u, lo, hi);
      TilesWithin(x, lo, f.start);
      forall k | 0 <= k < |x| ensures SameHead(mem, mem', begin, x[k]) { assert a[k] == x[k]; }
      forall k | 0 <= k < |u| ensures SameHead(mem, mem', begin, u[k]) { assert a[|x| + 1 + k] == u[k]; }
      hide Chained, Tiles, LastFree;
      RelinkedSplit(mem, mem', begin, x, f, u, t, t');
    }
  }

  lemma RelinkedSplit(mem: seq<Cell>, mem': seq<Cell>, begin: nat, x: seq<Block>, f: Block, u: seq<Block>, t: nat,
                      t': nat)
    requires Chained(mem, begin, x + [f] + u, t) && AllUsed(u) && !f.Used()
    requires SameHeads(mem, mem', begin, x) && SameHeads(mem, mem', begin, u)
    requires CellAt(mem', begin, f.start) == CellAt(mem, begin, f.start) && CellAt(mem', begin, f.start + 1).lo == t'
    ensures Chained(mem', begin, x + [f] + u, t') && FirstFree(x + [f] + u, t') == FirstFree(x + [f] + u, t)
  {
    ChainedThree(mem, begin, x, f, u, t);
    ChainedThree(mem', begin, x, f, u, t');
    NoFirst(u, t');
    ChainedFrame(mem, mem', begin, x, f.start);
    ChainedFrame(mem, mem', begin, u, t);
    ChainedUsed(mem', begin, u, t, t');
  }

  // ------------------------------------------------------------------- carving

  /** A free block cut for an allocation from `at` to `stop`; what is left in front and
      behind stays free. */
  function Carved(f: Block, at: nat, stop: nat, l: Live): seq<Block> {
    Before(f, at) + [Block(at, if stop >= at then stop - at else 0, Some(l))] + After(f, stop)
  }

  function Before(f: Block, at: nat): seq<Block> {
    if at > f.start then [Block(f.start, at - f.start, None)] else []
  }

  function After(f: Block, stop: nat): seq<Block> {
    if stop < f.start + f.size then [Block(stop, f.start + f.size - stop, None)] else []
  }

  /** The cut leaves no remainder too small to be a block. */
  predicate Cuts(f: Block, at: nat, stop: nat) {
    && f.start <= at && at + MIN_BLOCK <= stop <= f.start + f.size
    && (at == f.start || at >= f.start + MIN_BLOCK)
    && (stop == f.start + f.size || stop + MIN_BLOCK <= f.start + f.size)
  }

  lemma CarvedTiles(f: Block, at: nat, stop: nat, l: Live)
    requires Cuts(f, at, stop)
    ensures Tiles(Carved(f, at, stop, l), f.start, f.start + f.size)
  {
    var used := Block(at, stop - at, Some(l));
    if at > f.start { TilesOne(Block(f.start, at - f.start, None)); }
    if stop < f.start + f.size { TilesOne(Block(stop, f.start + f.size - stop, None)); }
    TilesOne(used);
    assert Tiles(Before(f, at), f.start, at) && Tiles(After(f, stop), stop, f.start + f.size);
    hide Tiles, Before, After;
    TilesJoin(Before(f, at), [used], f.start, at, stop);
    TilesJoin(Before(f, at) + [used], After(f, stop), f.start, stop, f.start + f.size);
  }

  /** A block in a tiling replaced by a tiling of the same stretch. */
  lemma TilesSwap(a: seq<Block>, f: Block, c: seq<Block>, mid: seq<Block>, begin: nat, end: nat)
    requires Tiles(a + [f] + c, begin, end) && Tiles(mid, f.start, f.start + f.size)
    ensures Tiles(a + mid + c, begin, end)
  {
    TilesAt(a, f, c, begin, end);
    TilesJoin(a, mid, begin, f.start, f.start + f.size);
    TilesJoin(a + mid, c, begin, f.start + f.size, end);
  }

  /** No cell changed outside `lo .. hi`, save perhaps the link of block `p`. */
  ghost predicate Elsewhere(mem: seq<Cell>, mem': seq<Cell>, begin: nat, lo: nat, hi: nat, p: nat) {
    forall x: nat :: !(lo <= x < hi) && (p == 0 || x != p + 1) ==> CellAt(mem', begin, x) == CellAt(mem, begin, x)
  }

  /** Blocks outside the stretch written keep their headers and links. */
  lemma HeadsOutside(mem: seq<Cell>, mem': seq<Cell>, begin: nat, bs: seq<Block>, from: nat, to: nat, lo: nat, hi: nat,
                     p: nat)
    requires Elsewhere(mem, mem', begin, lo, hi, p) && Tiles(bs, from, to) && (to <= lo || hi <= from)
    requires p == 0 || p + 1 < from || to <= p + 1
    ensures SameHeads(mem, mem', begin, bs)
  {
    TilesWithin(bs, from, to);
    forall k | 0 <= k < |bs| ensures SameHead(mem, mem', begin, bs[k]) {
    }
  }

  /** The header and the link of the blocks of `a`, its last link aside. */
  lemma {:induction false} HeadsButLast(mem: seq<Cell>, mem': seq<Cell>, begin: nat, a: seq<Block>, from: nat, to: nat,
                                        lo: nat, hi: nat)
    requires Elsewhere(mem, mem', begin, lo, hi, LastFree(a)) && Tiles(a, from, to) && to <= lo
    ensures forall k :: 0 <= k < |a| && (a[k].Used() || a[k].start != LastFree(a)) ==> SameHead(mem, mem', begin, a[k])
    ensures LastFree(a) != 0 ==> CellAt(mem', begin, LastFree(a)) == CellAt(mem, begin, LastFree(a))
  {
    TilesWithin(a, from, to);
    var p := LastFree(a);
    if p != 0 {
      if AllUsed(a) { NoLast(a); }
      var x, f, u := LastSplit(a);
      TilesAt(x, f, u, from, to);
      TilesWithin(x, from, f.start);
      TilesWithin(u, f.start + f.size, to);
      assert a[|x|] == f;
      forall k | 0 <= k < |a| && (a[k].Used() || a[k].start != p) ensures SameHead(mem, mem', begin, a[k]) {
        if k < |x| { assert a[k] == x[k]; }
        if k > |x| { assert a[k] == u[k - |x| - 1]; }
      }
    }
  }

  /** What `allocate` writes makes the carved blocks and threads them onto the list. */
  lemma CarvedChained(mem: seq<Cell>, mem': seq<Cell>, begin: nat, end: nat, a: seq<Block>, f: Block, c: seq<Block>,
                      at: nat, stop: nat, l: Live)
    requires Tiles(a + [f] + c, begin, end) && Chained(mem, begin, a + [f] + c, 0) && !f.Used() && begin > 0
             && Cuts(f, at, stop)
    requires Elsewhere(mem, mem', begin, f.start, f.start + f.size, if at == f.start then LastFree(a) else 0)
    requires CellAt(mem', begin, at) == Cell(stop - at, USED)
    requires var next := if stop < f.start + f.size then stop else FirstFree(c, 0);
             && (stop < f.start + f.size ==>
                 CellAt(mem', begin, stop) == Cell(f.start + f.size - stop, FREE)
                 && CellAt(mem', begin, stop + 1).lo == FirstFree(c, 0))
             && (at > f.start ==>
                 CellAt(mem', begin, f.start) == Cell(at - f.start, FREE)
                 && CellAt(mem', begin, f.start + 1).lo == next)
             && (at == f.start && LastFree(a) != 0 ==> CellAt(mem', begin, LastFree(a) + 1).lo == next)
    ensures Tiles(a + Carved(f, at, stop, l) + c, begin, end) && Chained(mem', begin, a + Carved(f, at, stop, l) + c, 0)
    ensures FirstFree(a + Carved(f, at, stop, l) + c, 0) ==
            if at == f.start && LastFree(a) == 0 then (if stop < f.start + f.size then stop else FirstFree(c, 0))
               else FirstFree(a + [f] + c, 0)
  {
    CarvedTiles(f, at, stop, l);
    TilesSwap(a, f, c, Carved(f, at, stop, l), begin, end);
    TilesAt(a, f, c, begin, end);
    ChainedThree(mem, begin, a, f, c, 0);
    var p := if at == f.start then LastFree(a) else 0;
    LastWithin(a, begin, f.start);
    HeadsOutside(mem, mem', begin, c, f.start + f.size, end, f.start, f.start + f.size, p);
    ChainedFrame(mem, mem', begin, c, 0);
    CarvedMiddle(mem', begin, f, at, stop, FirstFree(c, 0), l);
    var mid, next := Carved(f, at, stop, l), FirstFree(Carved(f, at, stop, l), FirstFree(c, 0));
    hide Carved, Chained, Tiles, Headed;
    if at == f.start {
      HeadsButLast(mem, mem', begin, a, begin, f.start, f.start, f.start + f.size);
      Relinked(mem, mem', begin, a, begin, f.start, f.start, next);
    } else {
      HeadsOutside(mem, mem', begin, a, begin, f.start, f.start, f.start + f.size, 0);
      ChainedFrame(mem, mem', begin, a, f.start);
    }
    ChainedConcat(mem', begin, a + mid, c, 0);
    ChainedConcat(mem', begin, a, mid, FirstFree(c, 0));
    FirstFreeConcat(a + mid, c, 0);
    FirstFreeConcat(a, mid, FirstFree(c, 0));
  }

  lemma {:induction false} LastWithin(a: seq<Block>, from: nat, to: nat)
    requires Tiles(a, from, to)
    ensures LastFree(a) != 0 ==> from <= LastFree(a) && LastFree(a) + MIN_BLOCK <= to
  {
    if AllUsed(a) { NoLast(a); } else {
      var x, f, u := LastSplit(a);
      TilesAt(x, f, u, from, to);
    }
  }

  lemma CarvedMiddle(mem: seq<Cell>, begin: nat, f: Block, at: nat, stop: nat, tail: nat, l: Live)
    requires Cuts(f, at, stop) && CellAt(mem, begin, at) == Cell(stop - at, USED)
    requires var next := if stop < f.start + f.size then stop else tail;
             && (stop < f.start + f.size ==>
                 CellAt(mem, begin, stop) == Cell(f.start + f.size - stop, FREE)
                 && CellAt(mem, begin, stop + 1).lo == tail)
             && (at > f.start ==>
                 CellAt(mem, begin, f.start) == Cell(at - f.start, FREE) && CellAt(mem, begin, f.start + 1).lo == next)
    ensures Chained(mem, begin, Carved(f, at, stop, l), tail)
    ensures FirstFree(Carved(f, at, stop, l), tail) == if at > f.start then f.start else if stop < f.start + f.size
            then stop else tail
  {
    var used := Block(at, stop - at, Some(l));
    ChainedThree(mem, begin, Before(f, at), used, After(f, stop), tail);
    assert Carved(f, at, stop, l) == Before(f, at) + [used] + After(f, stop);
    if stop < f.start + f.size { ChainedOne(mem, begin, Block(stop, f.start + f.size - stop, None), tail); }
    var next := if stop < f.start + f.size then stop else tail;
    assert FirstFree(After(f, stop), tail) == next;
    if at > f.start { ChainedOne(mem, begin, Block(f.start, at - f.start, None), next); }
  }

  // ------------------------------------------------------------------- joining

  function LeftOf(a: seq<Block>): seq<Block> { if a != [] && !a[|a| - 1].Used() then a[..|a| - 1] else a }

  function RightOf(c: seq<Block>): seq<Block> { if c != [] && !c[0].Used() then c[1..] else c }

  function JoinStart(a: seq<Block>, u: Block): nat
  {
    if a != [] && !a[|a| - 1].Used() then a[|a| - 1].start else u.start
  }

  function JoinSize(a: seq<Block>, u: Block, c: seq<Block>): nat {
    (if a != [] && !a[|a| - 1].Used() then a[|a| - 1].size else 0) + u.size + (if c != [] && !c[0].Used() then c[0].size
                                                                               else 0)
  }

  /** `u` freed and merged with whichever neighbours are free. */
  function Freed(a: seq<Block>, u: Block, c: seq<Block>): seq<Block> {
    LeftOf(a) + [Block(JoinStart(a, u), JoinSize(a, u, c), None)] + RightOf(c)
  }

  lemma LastApart(a: seq<Block>, from: nat, to: nat)
    requires Tiles(a, from, to) && a != []
    ensures Tiles(a[..|a| - 1], from, a[|a| - 1].start) && a[|a| - 1].size >= MIN_BLOCK
            && a[|a| - 1].start + a[|a| - 1].size == to
  {
    var x, f := a[..|a| - 1], a[|a| - 1];
    assert x + [f] + [] == a;
    TilesAt(x, f, [], from, to);
  }

  lemma FreedTiles(a: seq<Block>, u: Block, c: seq<Block>, begin: nat, end: nat)
    requires Tiles(a + [u] + c, begin, end)
    ensures var y := Block(JoinStart(a, u), JoinSize(a, u, c), None);
            && Tiles(LeftOf(a), begin, y.start) && Tiles(RightOf(c), y.start + y.size, end) && y.size >= MIN_BLOCK
            && y.start <= u.start && u.start + u.size <= y.start + y.size && Tiles(Freed(a, u, c), begin, end)
  {
    TilesAt(a, u, c, begin, end);
    if a != [] { LastApart(a, begin, u.start); }
    var y := Block(JoinStart(a, u), JoinSize(a, u, c), None);
    TilesOne(y);
    TilesJoin(LeftOf(a), [y], begin, y.start, y.start + y.size);
    TilesJoin(LeftOf(a) + [y], RightOf(c), begin, y.start + y.size, end);
  }

  /** What `free` writes makes the joined block and threads it onto the list. */
  lemma FreedChained(mem: seq<Cell>, mem': seq<Cell>, begin: nat, end: nat, a: seq<Block>, u: Block, c: seq<Block>)
    requires Tiles(a + [u] + c, begin, end) && Chained(mem, begin, a + [u] + c, 0) && u.Used() && begin > 0
    requires var y := Block(JoinStart(a, u), JoinSize(a, u, c), None);
             && Elsewhere(mem, mem', begin, y.start, y.start + y.size, if y.start == u.start then LastFree(a) else 0)
             && CellAt(mem', begin, y.start) == Cell(y.size, FREE)
             && CellAt(mem', begin, y.start + 1).lo == FirstFree(RightOf(c), 0)
             && (y.start == u.start && LastFree(a) != 0 ==> CellAt(mem', begin, LastFree(a) + 1).lo == y.start)
    ensures Tiles(Freed(a, u, c), begin, end) && Chained(mem', begin, Freed(a, u, c), 0)
    ensures FirstFree(Freed(a, u, c), 0) == if LastFree(a) == 0 then u.start else FirstFree(a + [u] + c, 0)
  {
    hide *;
    FreedLinks(mem, mem', begin, end, a, u, c);
    FreedFirst(mem, begin, end, a, u, c);
  }

  lemma FreedLinks(mem: seq<Cell>, mem': seq<Cell>, begin: nat, end: nat, a: seq<Block>, u: Block, c: seq<Block>)
    requires Tiles(a + [u] + c, begin, end) && Chained(mem, begin, a + [u] + c, 0) && u.Used() && begin > 0
    requires var y := Block(JoinStart(a, u), JoinSize(a, u, c), None);
             && Elsewhere(mem, mem', begin, y.start, y.start + y.size, if y.start == u.start then LastFree(a) else 0)
             && CellAt(mem', begin, y.start) == Cell(y.size, FREE)
             && CellAt(mem', begin, y.start + 1).lo == FirstFree(RightOf(c), 0)
             && (y.start == u.start && LastFree(a) != 0 ==> CellAt(mem', begin, LastFree(a) + 1).lo == y.start)
    ensures Tiles(Freed(a, u, c), begin, end) && Chained(mem', begin, Freed(a, u, c), 0)
  {
    hide Tiles, CellAt, Elsewhere, Chained;
    FreedTiles(a, u, c, begin, end);
    var y := Block(JoinStart(a, u), JoinSize(a, u, c), None);
    var x, z := LeftOf(a), RightOf(c);
    TilesAt(a, u, c, begin, end);
    LastWithin(a, begin, u.start);
    ChainedThree(mem, begin, a, u, c, 0);
    JoinRight(mem, begin, c);
    var p := if y.start == u.start then LastFree(a) else 0;
    HeadsOutside(mem, mem', begin, z, y.start + y.size, end, y.start, y.start + y.size, p);
    ChainedFrame(mem, mem', begin, z, 0);
    ChainedThree(mem', begin, x, y, z, 0);
    if a != [] && !a[|a| - 1].Used() {
      JoinLeft(mem, begin, a, FirstFree(c, 0));
      HeadsOutside(mem, mem', begin, x, begin, y.start, y.start, y.start + y.size, 0);
      ChainedFrame(mem, mem', begin, x, y.start);
    } else {
      HeadsButLast(mem, mem', begin, a, begin, u.start, y.start, y.start + y.size);
      Relinked(mem, mem', begin, a, begin, u.start, FirstFree(c, 0), y.start);
    }
  }

  lemma FreedFirst(mem: seq<Cell>, begin: nat, end: nat, a: seq<Block>, u: Block, c: seq<Block>)
    requires Tiles(a + [u] + c, begin, end) && Chained(mem, begin, a + [u] + c, 0) && u.Used() && begin > 0
    ensures FirstFree(Freed(a, u, c), 0) == if LastFree(a) == 0 then u.start else FirstFree(a + [u] + c, 0)
  {
    var y, z := Block(JoinStart(a, u), JoinSize(a, u, c), None), RightOf(c);
    TilesAt(a, u, c, begin, end);
    ChainedThree(mem, begin, a, u, c, 0);
    ChainedThree(mem, begin, LeftOf(a), y, z, 0);
    if a != [] && !a[|a| - 1].Used() {
      LastApart(a, begin, u.start);
      TilesWithin(a, begin, u.start);
      JoinLeft(mem, begin, a, FirstFree(c, 0));
    } else if AllUsed(a) {
      NoLast(a);
      NoFirst(a, u.start);
    } else {
      var v, f, w := LastSplit(a);
      TilesWithin(a, begin, u.start);
      assert a[|v|] == f;
      ChainedThree(mem, begin, v, f, w, u.start);
      ChainedThree(mem, begin, v, f, w, FirstFree(c, 0));
    }
    hide Chained;
  }

  lemma JoinRight(mem: seq<Cell>, begin: nat, c: seq<Block>)
    requires Chained(mem, begin, c, 0)
    ensures Chained(mem, begin, RightOf(c), 0)
  {
  }

  lemma JoinLeft(mem: seq<Cell>, begin: nat, a: seq<Block>, tail: nat)
    requires Chained(mem, begin, a, tail) && a != [] && !a[|a| - 1].Used()
    ensures Chained(mem, begin, a[..|a| - 1], a[|a| - 1].start)
    ensures FirstFree(a, tail) == FirstFree(a[..|a| - 1], a[|a| - 1].start) && LastFree(a) == a[|a| - 1].start
  {
    var x, f := a[..|a| - 1], a[|a| - 1];
    assert x + [f] + [] == a;
    ChainedThree(mem, begin, x, f, [], tail);
  }

  // --------------------------------------------------- sums, neighbours, geometry

  function FreeSum(bs: seq<Block>): nat {
    if bs == [] then 0 else (if bs[0].Used() then 0 else bs[0].size) + FreeSum(bs[1..])
  }

  lemma {:induction false} FreeSumConcat(a: seq<Block>, b: seq<Block>)
    ensures FreeSum(a + b) == FreeSum(a) + FreeSum(b)
  {
    if a == [] {
      assert a + b == b;
    } else {
      assert (a + b)[1..] == a[1..] + b && (a + b)[0] == a[0];
      FreeSumConcat(a[1..], b);
    }
  }

  lemma FreeSumThree(a: seq<Block>, f: Block, c: seq<Block>)
    ensures FreeSum(a + [f] + c) == FreeSum(a) + (if f.Used() then 0 else f.size) + FreeSum(c)
  {
    FreeSumConcat(a + [f], c);
    FreeSumConcat(a, [f]);
    assert [f][1..] == [];
  }

  /** No two free blocks touch. */
  ghost predicate Apart(bs: seq<Block>) {
    forall k :: 0 <= k < |bs| - 1 ==> bs[k].Used() || bs[k + 1].Used()
  }

  lemma ApartParts(a: seq<Block>, b: seq<Block>)
    ensures Apart(a + b) <==> Apart(a) && Apart(b) && (a == [] || b == [] || a[|a| - 1].Used() || b[0].Used())
  {
    var s := a + b;
    if Apart(s) {
      forall k | 0 <= k < |a| - 1
             ensures a[k].Used() || a[k + 1].Used() { assert s[k] == a[k] && s[k + 1] == a[k + 1]; }
      forall k | 0 <= k < |b| - 1
             ensures b[k].Used() || b[k + 1].Used() { assert s[|a| + k] == b[k] && s[|a| + k + 1] == b[k + 1]; }
      if a != [] && b != [] { assert s[|a| - 1] == a[|a| - 1] && s[|a|] == b[0]; }
    }
    if Apart(a) && Apart(b) && (a == [] || b == [] || a[|a| - 1].Used() || b[0].Used()) {
      forall k | 0 <= k < |s| - 1 ensures s[k].Used() || s[k + 1].Used() {
        if k + 1 < |a| { assert s[k] == a[k] && s[k + 1] == a[k + 1]; }
        if k >= |a| { assert s[k] == b[k - |a|] && s[k + 1] == b[k + 1 - |a|]; }
      }
    }
  }

  lemma CarvedSums(a: seq<Block>, f: Block, c: seq<Block>, at: nat, stop: nat, l: Live)
    requires Apart(a + [f] + c) && !f.Used() && Cuts(f, at, stop)
    ensures Apart(a + Carved(f, at, stop, l) + c)
    ensures FreeSum(a + Carved(f, at, stop, l) + c) + (stop - at) == FreeSum(a + [f] + c)
  {
    var mid := Carved(f, at, stop, l);
    ApartParts(a + [f], c);
    ApartParts(a, [f]);
    ApartParts(a + mid, c);
    ApartParts(a, mid);
    ApartParts(Before(f, at) + [Block(at, stop - at, Some(l))], After(f, stop));
    ApartParts(Before(f, at), [Block(at, stop - at, Some(l))]);
    FreeSumThree(a, f, c);
    FreeSumConcat(a + mid, c);
    FreeSumConcat(a, mid);
    FreeSumThree(Before(f, at), Block(at, stop - at, Some(l)), After(f, stop));
    OneSum(f.start, at);
    OneSum(stop, f.start + f.size);
  }

  lemma OneSum(lo: nat, hi: nat)
    requires lo <= hi
    ensures FreeSum([Block(lo, hi - lo, None)]) == hi - lo && FreeSum([]) == 0
  {
    assert [Block(lo, hi - lo, None)][1..] == [];
  }

  lemma FreedSums(a: seq<Block>, u: Block, c: seq<Block>)
    requires Apart(a + [u] + c) && u.Used()
    ensures Apart(Freed(a, u, c)) && FreeSum(Freed(a, u, c)) == FreeSum(a + [u] + c) + u.size
  {
    var y := Block(JoinStart(a, u), JoinSize(a, u, c), None);
    var x, z := LeftOf(a), RightOf(c);
    ApartParts(a + [u], c);
    ApartParts(a, [u]);
    LeftApart(a);
    RightApart(c);
    ApartParts(x + [y], z);
    ApartParts(x, [y]);
    FreeSumThree(a, u, c);
    FreeSumThree(x, y, z);
  }

  lemma LeftApart(a: seq<Block>)
    requires Apart(a)
    ensures Apart(LeftOf(a)) && (LeftOf(a) == [] || LeftOf(a)[|LeftOf(a)| - 1].Used())
    ensures FreeSum(a) == FreeSum(LeftOf(a)) + (if a != [] && !a[|a| - 1].Used() then a[|a| - 1].size else 0)
  {
    if a != [] && !a[|a| - 1].Used() {
      var x, f := a[..|a| - 1], a[|a| - 1];
      assert x + [f] == a;
      ApartParts(x, [f]);
      assert x + [f] + [] == a;
      FreeSumThree(x, f, []);
    }
  }

  lemma RightApart(c: seq<Block>)
    requires Apart(c)
    ensures Apart(RightOf(c)) && (RightOf(c) == [] || RightOf(c)[0].Used())
    ensures FreeSum(c) == FreeSum(RightOf(c)) + (if c != [] && !c[0].Used() then c[0].size else 0)
  {
    if c != [] && !c[0].Used() {
      assert [c[0]] + c[1..] == c;
      ApartParts([c[0]], c[1..]);
    }
  }

  /** Freeing what was just carved gives back the blocks there were. */
  lemma FreeUndoes(a: seq<Block>, f: Block, c: seq<Block>, at: nat, stop: nat, l: Live)
    requires Apart(a + [f] + c) && !f.Used() && Cuts(f, at, stop)
    ensures Freed(a + Before(f, at), Block(at, stop - at, Some(l)), After(f, stop) + c) == a + [f] + c
    ensures a + Before(f, at) + [Block(at, stop - at, Some(l))] + (After(f, stop) + c) == a + Carved(f, at, stop, l) + c
  {
    ApartParts(a + [f], c);
    ApartParts(a, [f]);
    var u := Block(at, stop - at, Some(l));
    var x, z := a + Before(f, at), After(f, stop) + c;
    JoinBack(a, f, c, at, stop, l);
    hide *;
    FreedIs(x, u, z, a, f, c);
    CarvedIs(f, at, stop, l);
    Regroup(a, Before(f, at), [u], After(f, stop), c);
  }

  lemma FreedIs(x: seq<Block>, u: Block, z: seq<Block>, a: seq<Block>, f: Block, c: seq<Block>)
    requires LeftOf(x) == a && RightOf(z) == c && JoinStart(x, u) == f.start && JoinSize(x, u, z) == f.size && !f.Used()
    ensures Freed(x, u, z) == a + [f] + c
  {
    hide LeftOf, RightOf, JoinStart, JoinSize;
    assert Block(JoinStart(x, u), JoinSize(x, u, z), None) == f;
  }

  lemma CarvedIs(f: Block, at: nat, stop: nat, l: Live)
    requires Cuts(f, at, stop)
    ensures Carved(f, at, stop, l) == Before(f, at) + [Block(at, stop - at, Some(l))] + After(f, stop)
  {
    hide Before, After;
  }

  lemma Regroup<T>(a: seq<T>, b: seq<T>, u: seq<T>, d: seq<T>, c: seq<T>)
    ensures a + b + u + (d + c) == a + (b + u + d) + c
  {
  }

  lemma JoinBack(a: seq<Block>, f: Block, c: seq<Block>, at: nat, stop: nat, l: Live)
    requires !f.Used() && Cuts(f, at, stop) && (a == [] || a[|a| - 1].Used()) && (c == [] || c[0].Used())
    ensures var u, x, z := Block(at, stop - at, Some(l)), a + Before(f, at), After(f, stop) + c;
            LeftOf(x) == a && RightOf(z) == c && JoinStart(x, u) == f.start && JoinSize(x, u, z) == f.size
  {
    var x, z := a + Before(f, at), After(f, stop) + c;
    if at > f.start { assert x[..|x| - 1] == a && x[|x| - 1] == Before(f, at)[0]; } else { assert x == a; }
    if stop < f.start + f.size { assert z[1..] == c && z[0] == After(f, stop)[0]; } else { assert z == c; }
  }

  function AlignUp(v: nat, al: nat): (r: nat)
    requires al > 0
    ensures v <= r < v + al && r % al == 0
  {
    var r := (v + al - 1) / al * al;
    AlignUpIs(v, al);
    r
  }

  lemma AlignUpIs(v: nat, al: nat)
    requires al > 0
    ensures var r := (v + al - 1) / al * al; v <= r < v + al && r % al == 0
  {
    var q := (v + al - 1) / al;
    assert v + al - 1 == q * al + (v + al - 1) % al;
    MultipleOf(q, al);
  }

  lemma MultipleOf(q: nat, al: nat)
    requires al > 0
    ensures q * al % al == 0
  {
    var r := q * al % al;
    var p := q * al / al;
    assert q * al == p * al + r;
    if p < q { MulMono(p + 1, q, al); } else { MulMono(q, p, al); }
  }

  /** Where the payload goes in a block starting at `start`: aligned, and the gap in
      front either nothing or a block of its own. */
  function Spot(start: nat, al: nat): (payload: nat)
    requires al > 0
    ensures payload % al == 0 && payload >= start + 1 && (payload - 1 == start || payload - 1 >= start + MIN_BLOCK)
  {
    var first := AlignUp(start + 1, al);
    if first - 1 != start && first - 1 - start < MIN_BLOCK then AlignUp(start + MIN_BLOCK + 1, al) else first
  }

  predicate Fits(f: Block, need: nat, al: nat)
    requires al > 0
  {
    Spot(f.start, al) - 1 < f.start + f.size && f.start + f.size - Spot(f.start, al) >= need
  }

  /** Where the allocation ends: a tail too small to be a block is part of it. */
  function StopAt(f: Block, need: nat, al: nat): nat
    requires al > 0 && Fits(f, need, al)
  {
    var stop := Spot(f.start, al) + need;
    if f.start + f.size - stop < MIN_BLOCK then f.start + f.size else stop
  }

  lemma FitCuts(f: Block, need: nat, al: nat)
    requires al > 0 && Fits(f, need, al) && need > 0
    ensures Cuts(f, Spot(f.start, al) - 1, StopAt(f, need, al)) && StopAt(f, need, al) - Spot(f.start, al) >= need
  {
  }

  /** Unaligned requests fit exactly when the block is large enough. */
  lemma FitPlain(f: Block, need: nat)
    requires f.size >= 1
    ensures Spot(f.start, 1) == f.start + 1 && (Fits(f, need, 1) <==> f.size - 1 >= need)
  {
  }

  // ------------------------------------------------------------------ the heap

  /** Every live allocation is aligned and has the room it asked for. */
  ghost predicate Lives(bs: seq<Block>) {
    forall k :: 0 <= k < |bs| ==> Suits(bs[k])
  }

  ghost predicate Suits(b: Block) {
    b.Used() ==> Aligned(b.start + 1, b.live.value.al) && b.live.value.cells <= b.size - 1
  }

  predicate Aligned(p: nat, al: nat) { al > 0 && p % al == 0 }

  lemma LivesConcat(a: seq<Block>, b: seq<Block>)
    ensures Lives(a + b) <==> Lives(a) && Lives(b)
  {
    hide Suits;
    if Lives(a + b) {
      forall k | 0 <= k < |a| ensures Suits(a[k]) { assert (a + b)[k] == a[k]; }
      forall k | 0 <= k < |b| ensures Suits(b[k]) { assert (a + b)[|a| + k] == b[k]; }
    }
  }

  /** Live allocations lie inside the heap and apart from one another. */
  lemma LiveApart(bs: seq<Block>, begin: nat, end: nat, i: nat, j: nat)
    requires Tiles(bs, begin, end) && Lives(bs) && i < |bs| && j < |bs| && bs[i].Used() && bs[j].Used()
    ensures begin < bs[i].start + 1 && bs[i].start + 1 + bs[i].live.value.cells <= end
            && Aligned(bs[i].start + 1, bs[i].live.value.al)
    ensures i < j ==> bs[i].start + 1 + bs[i].live.value.cells < bs[j].start + 1
  {
    hide Aligned, Tiles;
    TilesWithin(bs, begin, end);
    TilesOrder(bs, begin, end, i, j);
    assert Suits(bs[i]);
  }

  lemma TilesOrder(bs: seq<Block>, begin: nat, end: nat, i: nat, j: nat)
    requires Tiles(bs, begin, end) && i < |bs| && j < |bs|
    ensures i < j ==> bs[i].start + bs[i].size <= bs[j].start
  {
    if i < j {
      var a, f, c := bs[..i], bs[i], bs[i + 1..];
      assert a + [f] + c == bs;
      TilesAt(a, f, c, begin, end);
      TilesWithin(c, f.start + f.size, end);
      assert c[j - i - 1] == bs[j];
    }
  }

  class KernelHeap {
    var mem: seq<Cell>
    var begin: nat
    var end: nat
    var head: nat
    var freeCells: nat
    ghost var blocks: seq<Block>

    ghost predicate Valid()
      reads this
    {
      && (begin < end ==> begin > 0) && |mem| == end - begin
      && Tiles(blocks, begin, end) && Chained(mem, begin, blocks, 0) && head == FirstFree(blocks, 0)
      && Apart(blocks) && freeCells == FreeSum(blocks) && Lives(blocks)
    }

    /** `allocated_block`: whether a used block really starts there, whatever the cell
        holds. */
    method AllocatedBlock(header: nat) returns (yes: bool)
      requires Valid()
      ensures yes <==> exists k :: 0 <= k < |blocks| && blocks[k].Used() && blocks[k].start == header
    {
      hide *;
      Parts();
      var cursor := begin;
      ghost var a, c := [], blocks;
      TilesWithin(blocks, begin, end);
      assert a + c == blocks;
      while cursor < end
        invariant a + c == blocks && Tiles(c, cursor, end) && begin <= cursor
        invariant forall k :: 0 <= k < |a| ==> a[k].start != header
        decreases end - cursor
      {
        WalkStep(mem, begin, end, blocks, a, c, cursor);
        var cell := mem[cursor - begin];
        Tags();
        if cursor == header {
          OnlyAt(blocks, begin, end, |a|, header);
          return cell.hi == USED;
        }
        if cursor > header || cell.lo < MIN_BLOCK {
          PastHeader(blocks, a, c, cursor, end, header);
          return false;
        }
        a, c := a + [c[0]], c[1..];
        cursor := cursor + cell.lo;
      }
      WalkEnd(c, cursor, end);
      return false;
    }

    // ---------------------------------------------------------------- allocating

    method SetCell(x: nat, cell: Cell)
      requires begin <= x < begin + |mem|
      modifies `mem
      ensures |mem| == |old(mem)| && forall y: nat :: CellAt(mem, begin, y) == if y == x then cell
              else CellAt(old(mem), begin, y)
    {
      mem := mem[x - begin := cell];
    }

    /** The writing half of `allocate`: `prev` is the free block before `f`, or 0. */
    method Carve(prev: nat, cur: nat, size: nat, at: nat, stop: nat, ghost a: seq<Block>, ghost f: Block,
                 ghost c: seq<Block>, ghost l: Live)
      requires Valid() && blocks == a + [f] + c && !f.Used() && cur == f.start && size == f.size && prev == LastFree(a)
               && Cuts(f, at, stop) && begin < end
      modifies `mem, `head, `freeCells, `blocks
      ensures blocks == a + Carved(f, at, stop, l) + c && |mem| == |old(mem)|
      ensures Tiles(blocks, begin, end) && Chained(mem, begin, blocks, 0) && head == FirstFree(blocks, 0)
      ensures Apart(blocks) && freeCells == FreeSum(blocks)
    {
      hide *;
      Parts();
      Tags();
      TilesAt(a, f, c, begin, end);
      LastWithin(a, begin, f.start);
      ChainedThree(mem, begin, a, f, c, 0);
      HeadedIs(mem, begin, f, FirstFree(c, 0));
      CutsIs(f, at, stop);
      CarvedSums(a, f, c, at, stop, l);
      ghost var mem0 := mem;
      var finish := cur + size;
      var next := CellAt(mem, begin, cur + 1).lo;
      if stop < finish {
        SetCell(stop, Cell(finish - stop, FREE));
        SetCell(stop + 1, CellAt(mem, begin, stop + 1).(lo := next));
        next := stop;
      }
      if at > cur {
        SetCell(cur, CellAt(mem, begin, cur).(lo := at - cur));
        SetCell(cur + 1, CellAt(mem, begin, cur + 1).(lo := next));
      } else if prev == 0 {
        head := next;
      } else {
        SetCell(prev + 1, CellAt(mem, begin, prev + 1).(lo := next));
      }
      SetCell(at, Cell(stop - at, USED));
      freeCells := freeCells - (stop - at);
      blocks := a + Carved(f, at, stop, l) + c;
      ElsewhereIs(mem0, mem, begin, f.start, f.start + f.size, if at == f.start then LastFree(a) else 0);
      CarvedChained(mem0, mem, begin, end, a, f, c, at, stop, l);
    }

    /** `allocate`, given the size and the alignment in cells. */
    method AllocateCells(need: nat, al: nat) returns (payload: nat, ghost k: nat)
      requires need > 0 && al > 0 && Valid()
      modifies this
      ensures Valid() && begin == old(begin) && end == old(end)
      ensures payload == 0 <==> NoFit(old(blocks), need, al)
      ensures payload == 0 ==> blocks == old(blocks) && mem == old(mem)
      ensures payload != 0 ==>
                && k < |old(blocks)| && FreeFit(old(blocks)[k], need, al) && NoFit(old(blocks)[..k], need, al)
                && payload == Spot(old(blocks)[k].start, al)
                && blocks == old(blocks)[..k] + Carved(old(blocks)[k], payload - 1, StopAt(old(blocks)[k], need, al),
                                                       Live(need, al)) + old(blocks)[k + 1..]
    {
      hide *;
      k, payload := 0, 0;
      ghost var f, a, c;
      var found, prev, cur, size;
      found, prev, cur, size, a, f, c := Search(need, al);
      if !found { return; }
      k := |a|;
      payload := Spot(cur, al);
      var stop := payload + need;
      Tags();
      FitCuts(f, need, al);
      StopIs(f, need, al);
      if cur + size - stop < MIN_BLOCK { stop := cur + size; }
      Parts();
      Regrouped(a, f, c);
      FitFound(f, need, al);
      SomeFit(blocks, k, need, al);
      CarvedLives(a, f, c, payload - 1, stop, Live(need, al));
      Carve(prev, cur, size, payload - 1, stop, a, f, c, Live(need, al));
      Make();
    }

    /** The search of `allocate`: down the free list to the first block that fits. */
    method Search(need: nat, al: nat)
      returns (found: bool, prev: nat, cur: nat, size: nat, ghost a: seq<Block>, ghost f: Block, ghost c: seq<Block>)
      requires al > 0 && Valid()
      ensures NoFit(a, need, al)
      ensures found ==>
              blocks == a + [f] + c && !f.Used() && Fits(f, need, al) && cur == f.start && size == f.size
              && prev == LastFree(a) && begin < end
      ensures !found ==> NoFit(blocks, need, al)
    {
      hide *;
      Parts();
      Tags();
      prev, cur, size, a, f, c := 0, head, 0, [], Block(0, 0, None), [];
      ghost var rest := blocks;
      assert a + rest == blocks;
      NothingYet(need, al);
      while cur != 0
        invariant a + rest == blocks && prev == LastFree(a) && cur == FirstFree(rest, 0) && NoFit(a, need, al)
        decreases |rest|
      {
        ghost var u;
        u, f, c := ListStep(mem, begin, end, blocks, a, rest);
        size := CellAt(mem, begin, cur).lo;
        var fits := FitCheck(cur, size, need, al);
        FitsIs(f, Block(cur, size, None), need, al);
        MoreNoFit(a, u, need, al);
        a := a + u;
        if fits { return true, prev, cur, size, a, f, c; }
        prev, cur := cur, CellAt(mem, begin, cur + 1).lo;
        OneNoFit(a, f, need, al);
        NowLast(a, f);
        a, rest := a + [f], c;
      }
      RestNoFit(rest, a, need, al, begin, end);
      return false, prev, cur, size, a, f, c;
    }

    /** The arithmetic of `allocate` on one block. */
    method FitCheck(start: nat, size: nat, need: nat, al: nat) returns (fits: bool)
      requires al > 0
      ensures fits == Fits(Block(start, size, None), need, al)
    {
      var finish := start + size;
      var payload := AlignUp(start + 1, al);
      if payload - 1 != start && payload - 1 - start < MIN_BLOCK { payload := AlignUp(start + MIN_BLOCK + 1, al); }
      if payload - 1 >= finish || finish - payload < need { return false; }
      return true;
    }

    // ------------------------------------------------------------------- freeing

    /** The walk of `free`: the free blocks on either side of `header` by address. */
    method Neighbours(header: nat, ghost mem0: seq<Cell>, ghost a: seq<Block>, ghost u: Block, ghost c: seq<Block>)
      returns (prev: nat, next: nat)
      requires begin > 0 && Tiles(a + [u] + c, begin, end) && Chained(mem0, begin, a + [u] + c, 0) && u.Used()
               && header == u.start
      requires forall x: nat :: x != header ==> CellAt(mem, begin, x) == CellAt(mem0, begin, x)
      requires head == FirstFree(a + [u] + c, 0)
      ensures prev == LastFree(a) && next == FirstFree(c, 0)
    {
      hide *;
      TilesAt(a, u, c, begin, end);
      ChainedThree(mem0, begin, a, u, c, 0);
      TailBeyond(c, u.start + u.size, end);
      prev, next := 0, head;
      ghost var pa, ra := [], a;
      assert pa + ra == a;
      NothingYet(0, 1);
      SideIs(ra, begin, u.start, FirstFree(c, 0), begin);
      while next != 0 && next < header
        invariant a == pa + ra && prev == LastFree(pa) && next == FirstFree(ra, FirstFree(c, 0))
        invariant AllUsed(ra) || (next != 0 && next < header)
        invariant AllUsed(ra) ==> next == FirstFree(c, 0)
        decreases |ra|
      {
        ghost var u1, f1, c1 := SideStep(mem0, begin, u.start, a, pa, ra, FirstFree(c, 0));
        prev := next;
        next := CellAt(mem, begin, next + 1).lo;
        LastUsed(pa, u1);
        NowLast(pa + u1, f1);
        pa, ra := pa + u1 + [f1], c1;
        RestTiles(a, pa, ra, begin, u.start);
        SideIs(ra, begin, u.start, FirstFree(c, 0), begin);
      }
      LastUsed(pa, ra);
    }

    /** The freed block takes its place before `next`, and takes it in if they touch. */
    method Absorb(header: nat, next: nat, ghost c: seq<Block>)
      requires begin <= header && header + 2 <= begin + |mem| && CellAt(mem, begin, header).hi == FREE
               && next == FirstFree(c, 0)
      requires var touching := c != [] && !c[0].Used();
               && (next != 0 && header + CellAt(mem, begin, header).lo == next <==> touching)
               && (touching ==>
                   next > header + 1 && CellAt(mem, begin, next).lo == c[0].size
                   && CellAt(mem, begin, next + 1).lo == FirstFree(RightOf(c), 0))
               && (!touching ==> RightOf(c) == c)
      modifies `mem
      ensures |mem| == |old(mem)| && forall x: nat :: x != header && x != header + 1 ==>
              CellAt(mem, begin, x) == CellAt(old(mem), begin, x)
      ensures CellAt(mem, begin,
                     header) == Cell(CellAt(old(mem), begin, header).lo + (if c != [] && !c[0].Used() then c[0].size
                                                                           else 0), FREE)
      ensures CellAt(mem, begin, header + 1).lo == FirstFree(RightOf(c), 0)
    {
      hide *;
      SetCell(header + 1, CellAt(mem, begin, header + 1).(lo := next));
      if next != 0 && header + CellAt(mem, begin, header).lo == next {
        SetCell(header, CellAt(mem, begin, header).(lo := CellAt(mem, begin, header).lo + CellAt(mem, begin, next).lo));
        SetCell(header + 1, CellAt(mem, begin, header + 1).(lo := CellAt(mem, begin, next + 1).lo));
      }
    }

    /** The free block before it points to the freed one, or takes it in. */
    method Attach(prev: nat, header: nat)
      requires begin <= header && header + 2 <= begin + |mem| && (prev != 0 ==> begin <= prev && prev + 2 <= header)
      modifies `mem, `head
      ensures |mem| == |old(mem)|
      ensures prev == 0 ==> head == header && mem == old(mem)
      ensures prev != 0 ==> head == old(head) && forall x: nat :: x != prev && x != prev + 1 ==>
              CellAt(mem, begin, x) == CellAt(old(mem), begin, x)
      ensures prev != 0 ==>
                var joins := prev + CellAt(old(mem), begin, prev).lo == header;
                && CellAt(mem, begin, prev) == CellAt(old(mem), begin, prev).(lo :=
                                                                              CellAt(old(mem), begin,
                                                                                  prev).lo + if joins
                                                                                  then CellAt(old(mem), begin,
                                                                                      header).lo else 0)
                && CellAt(mem, begin, prev + 1).lo == if joins then CellAt(old(mem), begin, header + 1).lo else header
    {
      hide *;
      if prev == 0 {
        head := header;
      } else if prev + CellAt(mem, begin, prev).lo == header {
        SetCell(prev, CellAt(mem, begin, prev).(lo := CellAt(mem, begin, prev).lo + CellAt(mem, begin, header).lo));
        SetCell(prev + 1, CellAt(mem, begin, prev + 1).(lo := CellAt(mem, begin, header + 1).lo));
      } else {
        SetCell(prev + 1, CellAt(mem, begin, prev + 1).(lo := header));
      }
    }

    /** The writing half of `free`. */
    method Join(header: nat, ghost a: seq<Block>, ghost u: Block, ghost c: seq<Block>)
      requires Valid() && blocks == a + [u] + c && u.Used() && header == u.start && begin < end
      modifies `mem, `head, `freeCells, `blocks
      ensures Valid() && blocks == Freed(a, u, c)
    {
      hide *;
      Parts();
      Tags();
      TilesAt(a, u, c, begin, end);
      LastWithin(a, begin, u.start);
      TailBeyond(c, u.start + u.size, end);
      ChainedThree(mem, begin, a, u, c, 0);
      HeadedIs(mem, begin, u, FirstFree(c, 0));
      FreedSums(a, u, c);
      FreedLives(a, u, c);
      FreedTiles(a, u, c, begin, end);
      RightIs(mem, begin, c, u.start + u.size, end);
      LeftIs(mem, begin, a, begin, u.start, FirstFree(c, 0));
      JoinIs(a, u, c);
      ghost var mem0, y := mem, Block(JoinStart(a, u), JoinSize(a, u, c), None);
      SetCell(header, CellAt(mem, begin, header).(hi := FREE));
      freeCells := freeCells + CellAt(mem, begin, header).lo;
      var prev, next := Neighbours(header, mem0, a, u, c);
      Absorb(header, next, c);
      Attach(prev, header);
      ElsewhereIs(mem0, mem, begin, y.start, y.start + y.size, if y.start == u.start then LastFree(a) else 0);
      FreedChained(mem0, mem, begin, end, a, u, c);
      blocks := Freed(a, u, c);
      Make();
    }

    // ---------------------------------------------------------- the interface

    /** `initialize`, over memory with whatever in it: `contents` is what the whole cells
        of the region hold.  Too small a region leaves an empty heap. */
    method Initialize(base: nat, bytes: nat, contents: seq<Cell>)
      requires base > 0 && CeilDiv(base, CELL) < (base + bytes) / CELL ==>
               |contents| == (base + bytes) / CELL - CeilDiv(base, CELL)
      modifies this
      ensures Valid()
      ensures if base > 0 && base + bytes <= WORD_MAX && CeilDiv(base, CELL) + MIN_BLOCK <= (base + bytes) / CELL
              then begin == CeilDiv(base, CELL) && end == (base + bytes) / CELL
                && blocks == [Block(begin, end - begin, None)]
              else begin == end == 0 && blocks == []
    {
      begin, end, head, freeCells, mem, blocks := 0, 0, 0, 0, [], [];
      if base == 0 || bytes > WORD_MAX - base { return; }
      var first, last := CeilDiv(base, CELL), (base + bytes) / CELL;
      if first >= last || last - first < MIN_BLOCK { return; }
      begin, end, mem, head, freeCells := first, last, contents, first, last - first;
      SetCell(first, Cell(last - first, FREE));
      SetCell(first + 1, CellAt(mem, begin, first + 1).(lo := 0));
      blocks := [Block(first, last - first, None)];
      TilesOne(blocks[0]);
      ChainedOne(mem, begin, blocks[0], 0);
      OneSum(first, last);
      hide Tiles, Chained;
    }

    /** `allocate`: the lowest free block that fits, cut so that no remainder is too small;
        the pointer is aligned as asked.  Without special alignment it succeeds exactly
        when the largest free block is large enough. */
    method Allocate(bytes: nat, alignment: nat) returns (pointer: nat, ghost k: nat)
      requires Valid()
      modifies this
      ensures Valid() && begin == old(begin) && end == old(end)
      ensures pointer == 0 ==> blocks == old(blocks) && mem == old(mem)
      ensures pointer == 0 <==> !Servable(bytes, alignment, old(blocks), end - begin)
      ensures pointer != 0 ==>
                var need, al := CeilDiv(bytes, CELL), AlignCells(alignment);
                && pointer % alignment == 0 && pointer % CELL == 0
                && k < |old(blocks)| && FreeFit(old(blocks)[k], need, al) && NoFit(old(blocks)[..k], need, al)
                && pointer == CELL * Spot(old(blocks)[k].start, al)
                && blocks == old(blocks)[..k] + Carved(old(blocks)[k], pointer / CELL - 1,
                                                       StopAt(old(blocks)[k], need, al),
                                                       Live(need, al)) + old(blocks)[k + 1..]
      ensures bytes > 0 && PowerOfTwo(alignment) && alignment <= CELL ==>
                (pointer != 0 <==> CELL * CeilDiv(bytes, CELL) <= CELL * Largest(old(blocks)))
    {
      hide *;
      k, pointer := 0, 0;
      Tags();
      Parts();
      ServableIs(bytes, alignment, blocks, end - begin);
      PlainServable(bytes, alignment, blocks, begin, end);
      if bytes == 0 || !PowerOfTwo(alignment) { return; }
      var a := if alignment < CELL then CELL else alignment;
      if bytes > CELL * (end - begin) || a > CELL * (end - begin) { return; }
      CellsUp(bytes);
      AlignIs(alignment);
      var payload;
      payload, k := AllocateCells(CeilDiv(bytes, CELL), a / CELL);
      if payload == 0 { return; }
      SpotAligned(old(blocks)[k].start, AlignCells(alignment));
      pointer := CELL * payload;
      PointerAligned(payload, alignment);
    }

    /** `free`: the block goes back and joins its free neighbours.  Anything that is not a
        live allocation, freed twice or never allocated, is ignored. */
    method Free(pointer: nat) returns (ghost k: nat)
      requires Valid()
      modifies `mem, `head, `freeCells, `blocks
      ensures Valid()
      ensures if Owned(old(blocks), pointer)
              then k < |old(blocks)| && old(blocks)[k].Used() && CELL * (old(blocks)[k].start + 1) == pointer
                   && blocks == Freed(old(blocks)[..k], old(blocks)[k], old(blocks)[k + 1..])
              else blocks == old(blocks) && mem == old(mem) && head == old(head)
    {
      hide *;
      k := 0;
      Tags();
      Parts();
      OwnedIs(blocks, pointer, begin, end);
      if pointer == 0 { return; }
      if pointer < CELL * begin + CELL || pointer >= CELL * end || pointer % CELL != 0 { return; }
      var header := pointer / CELL - 1;
      var yes := AllocatedBlock(header);
      if !yes { return; }
      k :| 0 <= k < |blocks| && blocks[k].Used() && blocks[k].start == header;
      ghost var a, u, c := blocks[..k], blocks[k], blocks[k + 1..];
      assert blocks == a + [u] + c;
      Join(header, a, u, c);
    }

    /** `largest_available`. */
    method LargestAvailable() returns (bytes: nat)
      requires Valid()
      ensures bytes == CELL * Largest(blocks)
    {
      hide *;
      Parts();
      Tags();
      var largest, cur := 0, head;
      ghost var a, rest := [], blocks;
      assert a + rest == blocks;
      LargestNone();
      while cur != 0
        invariant a + rest == blocks && cur == FirstFree(rest, 0) && largest == Largest(a)
        decreases |rest|
      {
        ghost var u, f, c := ListStep(mem, begin, end, blocks, a, rest);
        var size := CellAt(mem, begin, cur).lo;
        LargestStep(a, u, f);
        if size - 1 > largest { largest := size - 1; }
        cur := CellAt(mem, begin, cur + 1).lo;
        a, rest := a + u + [f], c;
      }
      LargestEnd(rest, a, begin, end);
      return CELL * largest;
    }

    /** `consistent`: never finds anything wrong. */
    method Consistent() returns (ok: bool)
      requires Valid()
      ensures ok
    {
      hide *;
      Parts();
      Tags();
      var listed, listedCells, previousEnd, cur := 0, 0, 0, head;
      ghost var a, rest := [], blocks;
      assert a + rest == blocks;
      CountNone();
      while cur != 0
        invariant a + rest == blocks && cur == FirstFree(rest, 0) && listed == CountFree(a) && listedCells == FreeSum(a)
        invariant 0 <= previousEnd && EndsAt(a, begin, previousEnd)
        decreases |rest|
      {
        ghost var u, f, c := ListStep(mem, begin, end, blocks, a, rest);
        var cell := CellAt(mem, begin, cur);
        GapBefore(blocks, begin, end, a, u, f, c, previousEnd);
        CountStep(a, u, f);
        if cur < begin || cell.lo < MIN_BLOCK || cell.lo > end - cur || cell.hi != FREE
           || (previousEnd != 0 && cur <= previousEnd) { return false; }
        previousEnd := cur + cell.lo;
        listed, listedCells := listed + 1, listedCells + cell.lo;
        cur := CellAt(mem, begin, cur + 1).lo;
        a, rest := a + u + [f], c;
      }
      CountEnd(rest, a, begin, end);
      ok := CountWalk(listed, listedCells);
    }

    /** The second half of `consistent`: the walk over every header. */
    method CountWalk(listed: nat, listedCells: nat) returns (ok: bool)
      requires listed == CountFree(blocks) && listedCells == FreeSum(blocks) && Valid()
      ensures ok
    {
      hide *;
      Parts();
      Tags();
      var walked, cursor := 0, begin;
      ghost var a, c := [], blocks;
      assert a + c == blocks;
      CountNone();
      while cursor < end
        invariant a + c == blocks && Tiles(c, cursor, end) && begin <= cursor <= end && walked == CountFree(a)
        decreases end - cursor
      {
        WalkStep(mem, begin, end, blocks, a, c, cursor);
        var cell := mem[cursor - begin];
        if cell.lo < MIN_BLOCK || cell.lo > end - cursor || (cell.hi != USED && cell.hi != FREE) { return false; }
        CountOne(a, c[0]);
        if cell.hi == FREE { walked := walked + 1; }
        a, c := a + [c[0]], c[1..];
        cursor := cursor + cell.lo;
      }
      WalkEnd(c, cursor, end);
      assert a == blocks;
      return cursor == end && walked == listed && listedCells == freeCells;
    }

    /** A user writes into memory they were given; it may well look like a header. */
    method UserWrite(x: nat, cell: Cell, ghost k: nat)
      requires k < |blocks| && blocks[k].Used() && blocks[k].start + 1 <= x < blocks[k].start + blocks[k].size
               && Valid()
      modifies `mem
      ensures Valid() && CellAt(mem, begin, x) == cell
    {
      hide *;
      Parts();
      ghost var mem0 := mem;
      TilesWithin(blocks, begin, end);
      SetCell(x, cell);
      UserHeads(mem0, mem, begin, end, blocks, k, x);
      ChainedFrame(mem0, mem, begin, blocks, 0);
      Make();
    }

    /** Freeing the pointer just returned restores the blocks, the list and the count,
        whatever the alignment. */
    method AllocateFree(bytes: nat, alignment: nat)
      requires Valid()
      modifies this
      ensures Valid() && blocks == old(blocks) && head == old(head) && freeCells == old(freeCells)
    {
      hide *;
      Parts();
      Tags();
      ghost var bs := blocks;
      var pointer, k := Allocate(bytes, alignment);
      if pointer == 0 { Parts(); return; }
      ghost var need, al := CeilDiv(bytes, CELL), AlignCells(alignment);
      ghost var a, f, c := bs[..k], bs[k], bs[k + 1..];
      assert bs == a + [f] + c;
      FreeFitIs(f, need, al);
      ServableNeeds(bytes, alignment, bs, end - begin);
      FitCuts(f, need, al);
      ghost var at, stop := pointer / CELL - 1, StopAt(f, need, al);
      UndoFirst(a, f, c, at, stop, Live(need, al));
      FreeUndoes(a, f, c, at, stop, Live(need, al));
      Parts();
      OwnedNow(blocks, |a + Before(f, at)|, pointer, begin, end);
      var j := Free(pointer);
      assert j == |a + Before(f, at)|;
      Parts();
    }

    lemma Parts()
      requires Valid()
      ensures (begin < end ==> begin > 0) && |mem| == end - begin && begin <= end
      ensures Tiles(blocks, begin, end) && Chained(mem, begin, blocks, 0) && head == FirstFree(blocks, 0)
      ensures Apart(blocks) && freeCells == FreeSum(blocks) && Lives(blocks)
    {
      hide Tiles, Chained, Apart, Lives;
    }

    lemma Make()
      requires (begin < end ==> begin > 0) && |mem| == end - begin
      requires Tiles(blocks, begin, end) && Chained(mem, begin, blocks, 0) && head == FirstFree(blocks, 0)
      requires Apart(blocks) && freeCells == FreeSum(blocks) && Lives(blocks)
      ensures Valid()
    {
      hide Tiles, Chained, Apart, Lives;
    }
  }

  lemma Tags()
    ensures USED != FREE && MIN_BLOCK == 2 && CELL == 16
  {
  }

  lemma HeadedIs(mem: seq<Cell>, begin: nat, b: Block, next: nat)
    requires Headed(mem, begin, b, next)
    ensures CellAt(mem, begin, b.start) == Cell(b.size, if b.Used() then USED else FREE)
    ensures !b.Used() ==> CellAt(mem, begin, b.start + 1).lo == next
  {
  }

  lemma CutsIs(f: Block, at: nat, stop: nat)
    requires Cuts(f, at, stop)
    ensures f.start <= at && at + 2 <= stop <= f.start + f.size && (at == f.start || at >= f.start + 2)
    ensures stop == f.start + f.size || stop + 2 <= f.start + f.size
  {
  }

  lemma ElsewhereIs(mem: seq<Cell>, mem': seq<Cell>, begin: nat, lo: nat, hi: nat, p: nat)
    requires forall x: nat :: !(lo <= x < hi) && (p == 0 || x != p + 1) ==>
             CellAt(mem', begin, x) == CellAt(mem, begin, x)
    ensures Elsewhere(mem, mem', begin, lo, hi, p)
  {
  }

  /** No free block of `bs` fits. */
  ghost predicate NoFit(bs: seq<Block>, need: nat, al: nat) {
    al > 0 && forall k :: 0 <= k < |bs| ==> !FreeFit(bs[k], need, al)
  }

  ghost predicate FreeFit(b: Block, need: nat, al: nat) { al > 0 && !b.Used() && Fits(b, need, al) }

  lemma NothingYet(need: nat, al: nat)
    requires al > 0
    ensures NoFit([], need, al) && LastFree([]) == 0
  {
  }

  lemma FitsIs(f: Block, g: Block, need: nat, al: nat)
    requires al > 0 && f.start == g.start && f.size == g.size
    ensures Fits(f, need, al) == Fits(g, need, al)
  {
  }

  lemma MoreNoFit(a: seq<Block>, u: seq<Block>, need: nat, al: nat)
    requires NoFit(a, need, al) && AllUsed(u)
    ensures NoFit(a + u, need, al) && LastFree(a + u) == LastFree(a)
  {
    LastUsed(a, u);
    hide Fits;
  }

  lemma {:induction false} LastUsed(a: seq<Block>, u: seq<Block>)
    requires AllUsed(u)
    ensures LastFree(a + u) == LastFree(a)
  {
    if u == [] {
      assert a + u == a;
    } else {
      var n := |u| - 1;
      assert (a + u)[..|a + u| - 1] == a + u[..n] && (a + u)[|a + u| - 1] == u[n];
      LastUsed(a, u[..n]);
    }
  }

  lemma OneNoFit(a: seq<Block>, f: Block, need: nat, al: nat)
    requires NoFit(a, need, al) && al > 0 && !Fits(f, need, al)
    ensures NoFit(a + [f], need, al)
  {
    hide Fits;
  }

  lemma NowLast(a: seq<Block>, f: Block)
    requires !f.Used()
    ensures LastFree(a + [f]) == f.start
  {
  }

  /** A list that has ended leaves only used blocks. */
  lemma RestNoFit(rest: seq<Block>, a: seq<Block>, need: nat, al: nat, begin: nat, end: nat)
    requires NoFit(a, need, al) && FirstFree(rest, 0) == 0 && Tiles(a + rest, begin, end) && (begin < end ==> begin > 0)
    ensures NoFit(a + rest, need, al)
  {
    TilesWithin(a + rest, begin, end);
    forall k | 0 <= k < |rest| ensures rest[k].start > 0 { assert (a + rest)[|a| + k] == rest[k]; }
    FirstPositive(rest);
    hide Fits;
  }

  lemma FirstPositive(bs: seq<Block>)
    requires forall k :: 0 <= k < |bs| ==> bs[k].start > 0
    ensures AllUsed(bs) || FirstFree(bs, 0) > 0
  {
    if !AllUsed(bs) {
      var u, f, c := FirstSplit(bs, 0);
      assert bs[|u|] == f;
    }
  }

  /** The free list's next block, and what it holds. */
  lemma ListStep(mem: seq<Cell>, begin: nat, end: nat, bs: seq<Block>, a: seq<Block>, rest: seq<Block>)
    returns (u: seq<Block>, f: Block, c: seq<Block>)
    requires bs == a + rest && Tiles(bs, begin, end) && Chained(mem, begin, bs, 0) && FirstFree(rest, 0) != 0
    ensures rest == u + [f] + c && AllUsed(u) && !f.Used() && FirstFree(rest, 0) == f.start && bs == a + u + [f] + c
            && |c| < |rest|
    ensures CellAt(mem, begin, f.start) == Cell(f.size, FREE) && CellAt(mem, begin, f.start + 1).lo == FirstFree(c, 0)
    ensures f.size >= MIN_BLOCK && begin <= f.start && f.start + f.size <= end
  {
    if AllUsed(rest) { NoFirst(rest, 0); }
    u, f, c := FirstSplit(rest, 0);
    assert bs == (a + u) + [f] + c;
    ChainedThree(mem, begin, a + u, f, c, 0);
    TilesAt(a + u, f, c, begin, end);
  }

  lemma StopIs(f: Block, need: nat, al: nat)
    requires al > 0 && Fits(f, need, al)
    ensures StopAt(f, need, al) ==
            if f.start + f.size - (Spot(f.start, al) + need) < MIN_BLOCK then f.start + f.size
               else Spot(f.start, al) + need
  {
  }

  lemma Regrouped(a: seq<Block>, f: Block, c: seq<Block>)
    ensures (a + [f] + c)[..|a|] == a && (a + [f] + c)[|a|] == f && (a + [f] + c)[|a| + 1..] == c
  {
  }

  lemma FitFound(f: Block, need: nat, al: nat)
    requires al > 0 && !f.Used() && Fits(f, need, al)
    ensures FreeFit(f, need, al) && Aligned(Spot(f.start, al), al)
  {
    hide Fits;
  }

  lemma SomeFit(bs: seq<Block>, k: nat, need: nat, al: nat)
    requires k < |bs| && FreeFit(bs[k], need, al)
    ensures !NoFit(bs, need, al)
  {
    hide FreeFit;
  }

  /** The new allocation joins the live ones. */
  lemma CarvedLives(a: seq<Block>, f: Block, c: seq<Block>, at: nat, stop: nat, l: Live)
    requires Lives(a + [f] + c) && !f.Used() && Cuts(f, at, stop) && Aligned(at + 1, l.al) && l.cells <= stop - at - 1
    ensures Lives(a + Carved(f, at, stop, l) + c)
  {
    hide Aligned;
    LivesConcat(a + [f], c);
    LivesConcat(a, [f]);
    LivesConcat(a + Carved(f, at, stop, l), c);
    LivesConcat(a, Carved(f, at, stop, l));
  }

  lemma TailBeyond(c: seq<Block>, from: nat, end: nat)
    requires Tiles(c, from, end)
    ensures FirstFree(c, 0) == 0 || FirstFree(c, 0) >= from
  {
    TilesWithin(c, from, end);
    if AllUsed(c) { NoFirst(c, 0); } else {
      var u, f, z := FirstSplit(c, 0);
      assert c[|u|] == f;
    }
  }

  /** The first free block of a stretch below `to`, or the tail beyond it. */
  lemma SideIs(ra: seq<Block>, from: nat, to: nat, tail: nat, begin: nat)
    requires exists lo: nat :: begin <= lo && Tiles(ra, lo, to)
    requires begin > 0
    ensures AllUsed(ra) ==> FirstFree(ra, tail) == tail
    ensures !AllUsed(ra) ==> 0 < FirstFree(ra, tail) < to
  {
    var lo: nat :| begin <= lo && Tiles(ra, lo, to);
    TilesWithin(ra, lo, to);
    if AllUsed(ra) { NoFirst(ra, tail); } else {
      var u, f, z := FirstSplit(ra, tail);
      assert ra[|u|] == f;
    }
  }

  lemma RestTiles(a: seq<Block>, pa: seq<Block>, ra: seq<Block>, begin: nat, to: nat)
    requires a == pa + ra && Tiles(a, begin, to)
    ensures exists lo: nat :: begin <= lo && Tiles(ra, lo, to)
  {
    TilesApart(pa, ra, begin, to);
    var mid: nat :| Tiles(pa, begin, mid) && Tiles(ra, mid, to);
    TilesWithin(pa, begin, mid);
  }

  /** The next free block of a stretch, and the link in it. */
  lemma SideStep(mem: seq<Cell>, begin: nat, to: nat, a: seq<Block>, pa: seq<Block>, ra: seq<Block>, tail: nat)
    returns (u1: seq<Block>, f1: Block, c1: seq<Block>)
    requires a == pa + ra && Tiles(a, begin, to) && Chained(mem, begin, a, tail) && !AllUsed(ra)
    ensures ra == u1 + [f1] + c1 && AllUsed(u1) && !f1.Used() && FirstFree(ra, tail) == f1.start
            && a == (pa + u1 + [f1]) + c1 && |c1| < |ra|
    ensures CellAt(mem, begin, f1.start + 1).lo == FirstFree(c1, tail) && f1.start + 1 < to
  {
    u1, f1, c1 := FirstSplit(ra, tail);
    assert a == (pa + u1) + [f1] + c1;
    ChainedThree(mem, begin, pa + u1, f1, c1, tail);
    TilesAt(pa + u1, f1, c1, begin, to);
  }

  lemma JoinIs(a: seq<Block>, u: Block, c: seq<Block>)
    ensures JoinStart(a, u) == if a != [] && !a[|a| - 1].Used() then a[|a| - 1].start else u.start
    ensures JoinSize(a, u, c) ==
            (if a != [] && !a[|a| - 1].Used() then a[|a| - 1].size else 0) + u.size + (if c != [] && !c[0].Used()
                then c[0].size else 0)
  {
  }

  lemma FreedLives(a: seq<Block>, u: Block, c: seq<Block>)
    requires Lives(a + [u] + c)
    ensures Lives(Freed(a, u, c))
  {
    hide Aligned;
    LivesConcat(a + [u], c);
    LivesConcat(a, [u]);
    var y := Block(JoinStart(a, u), JoinSize(a, u, c), None);
    LivesConcat(LeftOf(a) + [y], RightOf(c));
    LivesConcat(LeftOf(a), [y]);
  }

  /** Whether the block after `u` is free shows in the list. */
  lemma RightIs(mem: seq<Cell>, begin: nat, c: seq<Block>, from: nat, end: nat)
    requires Chained(mem, begin, c, 0) && Tiles(c, from, end) && from > 0
    ensures FirstFree(c, 0) == from <==> c != [] && !c[0].Used()
    ensures c != [] && !c[0].Used() ==>
              CellAt(mem, begin, from) == Cell(c[0].size, FREE)
                && CellAt(mem, begin, from + 1).lo == FirstFree(RightOf(c), 0) && c[0].size >= 2
    ensures !(c != [] && !c[0].Used()) ==> RightOf(c) == c
  {
    if c != [] && c[0].Used() { TailBeyond(c[1..], from + c[0].size, end); }
  }

  /** Whether the block before `u` is free shows in the list. */
  lemma LeftIs(mem: seq<Cell>, begin: nat, a: seq<Block>, from: nat, to: nat, tail: nat)
    requires Chained(mem, begin, a, tail) && Tiles(a, from, to) && from > 0
    ensures LastFree(a) != 0 ==> CellAt(mem, begin, LastFree(a)).hi == FREE
    ensures LastFree(a) != 0 && LastFree(a) + CellAt(mem, begin, LastFree(a)).lo == to <==>
            a != [] && !a[|a| - 1].Used()
    ensures a != [] && !a[|a| - 1].Used() ==>
            LastFree(a) == a[|a| - 1].start && CellAt(mem, begin, LastFree(a)).lo == a[|a| - 1].size
  {
    if AllUsed(a) { NoLast(a); } else {
      var x, f, v := LastSplit(a);
      ChainedThree(mem, begin, x, f, v, tail);
      TilesAt(x, f, v, from, to);
      if v == [] {
        assert a == x + [f];
      } else {
        assert a[|a| - 1] == v[|v| - 1] && v[|v| - 1].Used();
        TilesWithin(v, f.start + f.size, to);
      }
    }
  }

  const WORD_MAX: nat := 0xFFFF_FFFF_FFFF_FFFF

  predicate PowerOfTwo(n: nat) { n == 1 || (n > 1 && n % 2 == 0 && PowerOfTwo(n / 2)) }

  function AlignCells(alignment: nat): (al: nat)
    ensures al > 0
  {
    if alignment < CELL then 1 else alignment / CELL
  }

  /** The request is sensible and some free block fits it. */
  ghost predicate Servable(bytes: nat, alignment: nat, bs: seq<Block>, cells: nat) {
    && bytes > 0 && PowerOfTwo(alignment) && bytes <= CELL * cells && alignment <= CELL * cells && cells > 0
    && !NoFit(bs, CeilDiv(bytes, CELL), AlignCells(alignment))
  }

  lemma ServableIs(bytes: nat, alignment: nat, bs: seq<Block>, cells: nat)
    ensures Servable(bytes, alignment, bs, cells) <==>
            && bytes > 0 && PowerOfTwo(alignment) && bytes <= CELL * cells
            && (if alignment < CELL then CELL else alignment) <= CELL * cells
            && !NoFit(bs, CeilDiv(bytes, CELL), AlignCells(alignment))
  {
    hide NoFit, PowerOfTwo, CeilDiv, AlignCells;
  }

  /** The room in the largest free block, its header taken off. */
  function Largest(bs: seq<Block>): nat {
    if bs == [] then 0
    else
      var rest := Largest(bs[1..]);
      if !bs[0].Used() && bs[0].size > rest + 1 then bs[0].size - 1 else rest
  }

  lemma {:induction false} LargestIs(bs: seq<Block>)
    ensures forall k :: 0 <= k < |bs| && !bs[k].Used() ==> bs[k].size <= Largest(bs) + 1
    ensures Largest(bs) > 0 ==> exists k :: 0 <= k < |bs| && !bs[k].Used() && bs[k].size == Largest(bs) + 1
  {
    if bs != [] {
      LargestIs(bs[1..]);
      forall k | 0 < k < |bs| ensures bs[k] == bs[1..][k - 1] {}
      if Largest(bs[1..]) > 0 {
        var k :| 0 <= k < |bs[1..]| && !bs[1..][k].Used() && bs[1..][k].size == Largest(bs[1..]) + 1;
        assert bs[k + 1] == bs[1..][k];
      }
    }
  }

  lemma PlainServable(bytes: nat, alignment: nat, bs: seq<Block>, begin: nat, end: nat)
    requires Tiles(bs, begin, end)
    ensures bytes > 0 && PowerOfTwo(alignment) && alignment <= CELL ==>
              (Servable(bytes, alignment, bs, if begin <= end then end - begin else 0) <==>
               CELL * CeilDiv(bytes, CELL) <= CELL * Largest(bs))
  {
    if bytes > 0 && PowerOfTwo(alignment) && alignment <= CELL {
      var need := CeilDiv(bytes, CELL);
      TilesWithin(bs, begin, end);
      LargestIs(bs);
      forall k | 0 <= k < |bs| && !bs[k].Used() ensures Fits(bs[k], need, 1) <==> bs[k].size - 1 >= need {
        FitPlain(bs[k], need);
      }
      assert AlignCells(alignment) == 1;
      hide Fits, Tiles, PowerOfTwo, AlignCells;
      if Largest(bs) >= need {
        var k :| 0 <= k < |bs| && !bs[k].Used() && bs[k].size == Largest(bs) + 1;
        assert FreeFit(bs[k], need, 1);
      }
    }
  }

  lemma CellsUp(bytes: nat)
    requires bytes > 0
    ensures CeilDiv(bytes, CELL) > 0
  {
  }

  lemma AlignIs(alignment: nat)
    requires PowerOfTwo(alignment)
    ensures (if alignment < CELL then CELL else alignment) / CELL == AlignCells(alignment)
  {
  }

  lemma {:induction false} Sixteens(alignment: nat)
    requires PowerOfTwo(alignment)
    ensures alignment < CELL ==> alignment in {1, 2, 4, 8}
    ensures alignment >= CELL ==> alignment % CELL == 0
    decreases alignment
  {
    if alignment > 1 {
      HalfPower(alignment);
      var half := alignment / 2;
      Sixteens(half);
      hide PowerOfTwo;
      if half >= CELL { Doubled(half); }
    }
  }

  lemma HalfPower(alignment: nat)
    requires PowerOfTwo(alignment) && alignment > 1
    ensures PowerOfTwo(alignment / 2) && alignment == 2 * (alignment / 2)
  {
  }

  lemma Doubled(half: nat)
    requires half % CELL == 0
    ensures 2 * half % CELL == 0
  {
  }

  lemma PointerAligned(payload: nat, alignment: nat)
    requires PowerOfTwo(alignment) && Aligned(payload, AlignCells(alignment))
    ensures CELL * payload % alignment == 0 && CELL * payload % CELL == 0 && CELL * payload / CELL == payload
  {
    Sixteens(alignment);
    var al := AlignCells(alignment);
    hide PowerOfTwo;
    if alignment >= CELL {
      assert alignment == CELL * al;
      ScaleAligned(payload, al, CELL);
    } else {
      SmallAligned(payload, alignment);
    }
  }

  lemma SmallAligned(payload: nat, alignment: nat)
    requires alignment in {1, 2, 4, 8}
    ensures CELL * payload % alignment == 0
  {
    assert CELL * payload == 8 * (2 * payload) == 4 * (4 * payload) == 2 * (8 * payload);
    if alignment == 8 { Even(2 * payload, 8); } else if alignment == 4 { Even(4 * payload, 4); }
       else if alignment == 2 { Even(8 * payload, 2); }
  }

  lemma Even(k: nat, n: nat)
    requires n > 0
    ensures n * k % n == 0
  {
    MultipleOf(k, n);
  }

  lemma ScaleAligned(p: nat, al: nat, n: nat)
    requires Aligned(p, al) && n > 0
    ensures n * al > 0 && n * p % (n * al) == 0
  {
    var t := p / al;
    assert p == al * t;
    Reassociate(n, al, t);
    MulMono(1, n, al);
    MultipleOf(t, n * al);
  }

  lemma Reassociate(n: nat, a: nat, t: nat)
    ensures n * (a * t) == t * (n * a)
  {
  }

  lemma SpotAligned(start: nat, al: nat)
    requires al > 0
    ensures Aligned(Spot(start, al), al) && Spot(start, al) > 0
  {
    hide Spot;
  }

  /** `pointer` is what a live allocation was handed out as. */
  ghost predicate Owned(bs: seq<Block>, pointer: nat) {
    exists k :: 0 <= k < |bs| && bs[k].Used() && CELL * (bs[k].start + 1) == pointer
  }

  lemma OwnedIs(bs: seq<Block>, pointer: nat, begin: nat, end: nat)
    requires Tiles(bs, begin, end)
    ensures Owned(bs, pointer) ==> CELL * begin + CELL <= pointer < CELL * end && pointer % CELL == 0
    ensures pointer >= CELL && pointer % CELL == 0 ==>
              (Owned(bs, pointer) <==> exists k :: 0 <= k < |bs| && bs[k].Used() && bs[k].start == pointer / CELL - 1)
    ensures pointer >= CELL && pointer % CELL == 0 ==> CELL * (pointer / CELL - 1 + 1) == pointer
  {
    TilesWithin(bs, begin, end);
  }

  /** A user's cells are nobody's header and no free block's link. */
  lemma UserHeads(mem: seq<Cell>, mem': seq<Cell>, begin: nat, end: nat, bs: seq<Block>, k: nat, x: nat)
    requires Tiles(bs, begin, end) && k < |bs| && bs[k].Used() && bs[k].start + 1 <= x < bs[k].start + bs[k].size
    requires forall y: nat :: y != x ==> CellAt(mem', begin, y) == CellAt(mem, begin, y)
    ensures SameHeads(mem, mem', begin, bs)
  {
    TilesWithin(bs, begin, end);
    forall j | 0 <= j < |bs| ensures SameHead(mem, mem', begin, bs[j]) {
      TilesOrder(bs, begin, end, j, k);
      TilesOrder(bs, begin, end, k, j);
    }
  }

  lemma FreeFitIs(f: Block, need: nat, al: nat)
    requires FreeFit(f, need, al)
    ensures al > 0 && !f.Used() && Fits(f, need, al)
  {
    hide Fits;
  }

  lemma ServableNeeds(bytes: nat, alignment: nat, bs: seq<Block>, cells: nat)
    requires Servable(bytes, alignment, bs, cells)
    ensures CeilDiv(bytes, CELL) > 0
  {
    hide PowerOfTwo, NoFit;
  }

  lemma UndoFirst(a: seq<Block>, f: Block, c: seq<Block>, at: nat, stop: nat, l: Live)
    requires Cuts(f, at, stop)
    ensures var bs, i := a + Carved(f, at, stop, l) + c, |a + Before(f, at)|;
            && i < |bs| && bs[i] == Block(at, stop - at, Some(l)) && bs[..i] == a + Before(f, at)
            && bs[i + 1..] == After(f, stop) + c
  {
    var u := Block(at, stop - at, Some(l));
    CarvedIs(f, at, stop, l);
    hide Carved, Before, After;
    Regroup(a, Before(f, at), [u], After(f, stop), c);
    var x, z := a + Before(f, at), After(f, stop) + c;
    assert a + Carved(f, at, stop, l) + c == x + [u] + z;
    Regrouped(x, u, z);
  }

  lemma OwnedNow(bs: seq<Block>, i: nat, pointer: nat, begin: nat, end: nat)
    requires Tiles(bs, begin, end) && i < |bs| && bs[i].Used() && CELL * (bs[i].start + 1) == pointer
    ensures Owned(bs, pointer) && forall j :: 0 <= j < |bs| && bs[j].Used() && CELL * (bs[j].start + 1) == pointer ==>
            j == i
  {
    TilesWithin(bs, begin, end);
    forall j | 0 <= j < |bs| && bs[j].Used() && CELL * (bs[j].start + 1) == pointer ensures j == i {
      TilesOrder(bs, begin, end, i, j);
      TilesOrder(bs, begin, end, j, i);
    }
  }

  lemma LargestNone()
    ensures Largest([]) == 0
  {
  }

  lemma {:induction false} LargestConcat(a: seq<Block>, b: seq<Block>)
    ensures Largest(a + b) == if Largest(a) >= Largest(b) then Largest(a) else Largest(b)
  {
    if a == [] {
      assert a + b == b;
    } else {
      assert (a + b)[1..] == a[1..] + b && (a + b)[0] == a[0];
      LargestConcat(a[1..], b);
    }
  }

  lemma {:induction false} LargestUsed(u: seq<Block>)
    requires AllUsed(u)
    ensures Largest(u) == 0
  {
    if u != [] { LargestUsed(u[1..]); }
  }

  lemma LargestStep(a: seq<Block>, u: seq<Block>, f: Block)
    requires AllUsed(u) && !f.Used() && f.size >= MIN_BLOCK
    ensures Largest(a + u + [f]) == if f.size - 1 > Largest(a) then f.size - 1 else Largest(a)
  {
    LargestConcat(a + u, [f]);
    LargestConcat(a, u);
    LargestUsed(u);
    assert [f][1..] == [];
  }

  lemma LargestEnd(rest: seq<Block>, a: seq<Block>, begin: nat, end: nat)
    requires FirstFree(rest, 0) == 0 && Tiles(a + rest, begin, end) && (begin < end ==> begin > 0)
    ensures Largest(a + rest) == Largest(a)
  {
    TilesWithin(a + rest, begin, end);
    forall k | 0 <= k < |rest| ensures rest[k].start > 0 { assert (a + rest)[|a| + k] == rest[k]; }
    FirstPositive(rest);
    LargestConcat(a, rest);
    LargestUsed(rest);
  }

  function CountFree(bs: seq<Block>): nat {
    if bs == [] then 0 else CountFree(bs[..|bs| - 1]) + if bs[|bs| - 1].Used() then 0 else 1
  }

  lemma CountNone()
    ensures CountFree([]) == 0 && FreeSum([]) == 0 && forall begin: nat :: EndsAt([], begin, 0)
  {
  }

  lemma CountOne(a: seq<Block>, b: Block)
    ensures CountFree(a + [b]) == CountFree(a) + if b.Used() then 0 else 1
  {
    assert (a + [b])[..|a|] == a;
  }

  lemma {:induction false} CountUsed(a: seq<Block>, u: seq<Block>)
    requires AllUsed(u)
    ensures CountFree(a + u) == CountFree(a) && FreeSum(a + u) == FreeSum(a)
  {
    if u == [] {
      assert a + u == a;
    } else {
      var n := |u| - 1;
      assert a + u == (a + u[..n]) + [u[n]];
      CountUsed(a, u[..n]);
      CountOne(a + u[..n], u[n]);
      FreeSumThree(a + u[..n], u[n], []);
      assert (a + u[..n]) + [u[n]] + [] == a + u;
    }
  }

  lemma CountStep(a: seq<Block>, u: seq<Block>, f: Block)
    requires AllUsed(u) && !f.Used()
    ensures CountFree(a + u + [f]) == CountFree(a) + 1 && FreeSum(a + u + [f]) == FreeSum(a) + f.size
  {
    CountUsed(a, u);
    CountOne(a + u, f);
    FreeSumThree(a + u, f, []);
    assert a + u + [f] + [] == a + u + [f];
  }

  lemma CountEnd(rest: seq<Block>, a: seq<Block>, begin: nat, end: nat)
    requires FirstFree(rest, 0) == 0 && Tiles(a + rest, begin, end) && (begin < end ==> begin > 0)
    ensures CountFree(a + rest) == CountFree(a) && FreeSum(a + rest) == FreeSum(a)
  {
    TilesWithin(a + rest, begin, end);
    forall k | 0 <= k < |rest| ensures rest[k].start > 0 { assert (a + rest)[|a| + k] == rest[k]; }
    FirstPositive(rest);
    CountUsed(a, rest);
  }

  /** A stretch that is empty, or ends in a free block at `at`. */
  ghost predicate EndsAt(a: seq<Block>, begin: nat, at: nat) {
    if a == [] then at == 0 else !a[|a| - 1].Used() && at == a[|a| - 1].start + a[|a| - 1].size
  }

  /** Between two free blocks there is a used one. */
  lemma GapBefore(bs: seq<Block>, begin: nat, end: nat, a: seq<Block>, u: seq<Block>, f: Block, c: seq<Block>, at: nat)
    requires Tiles(bs, begin, end) && Apart(bs) && bs == a + u + [f] + c && !f.Used() && EndsAt(a, begin, at)
    ensures at != 0 ==> at < f.start
    ensures EndsAt(a + u + [f], begin, f.start + f.size)
  {
    if a != [] {
      var i, j := |a| - 1, |a| + |u|;
      assert bs[i] == a[i] && bs[j] == f;
      assert bs[i].Used() || bs[i + 1].Used();
      TilesOrder(bs, begin, end, i, i + 1);
      TilesOrder(bs, begin, end, i + 1, j);
      TilesWithin(bs, begin, end);
    }
  }

  lemma WalkEnd(c: seq<Block>, cursor: nat, end: nat)
    requires Tiles(c, cursor, end) && cursor >= end
    ensures c == []
  {
    TilesWithin(c, cursor, end);
  }

  /** The cell at a block's start is that block's header. */
  lemma WalkStep(mem: seq<Cell>, begin: nat, end: nat, bs: seq<Block>, a: seq<Block>, c: seq<Block>, cursor: nat)
    requires bs == a + c && Tiles(c, cursor, end) && cursor < end && Chained(mem, begin, bs, 0) && begin <= cursor
             && |mem| == end - begin
    ensures c != [] && c[0].start == cursor
            && mem[cursor - begin] == Cell(c[0].size, if c[0].Used() then USED else FREE)
    ensures c[0].size >= MIN_BLOCK && cursor + c[0].size <= end && Tiles(c[1..], cursor + c[0].size, end)
            && a + [c[0]] + c[1..] == bs
  {
    ChainedConcat(mem, begin, a, c, 0);
    TilesWithin(c, cursor, end);
  }

  lemma OnlyAt(bs: seq<Block>, begin: nat, end: nat, i: nat, header: nat)
    requires Tiles(bs, begin, end) && i < |bs| && bs[i].start == header
    ensures (exists k :: 0 <= k < |bs| && bs[k].Used() && bs[k].start == header) <==> bs[i].Used()
  {
    TilesWithin(bs, begin, end);
    forall k | 0 <= k < |bs| && bs[k].start == header ensures k == i {
      TilesOrder(bs, begin, end, i, k);
      TilesOrder(bs, begin, end, k, i);
    }
  }

  lemma PastHeader(bs: seq<Block>, a: seq<Block>, c: seq<Block>, cursor: nat, end: nat, header: nat)
    requires bs == a + c && Tiles(c, cursor, end) && cursor > header
    requires forall k :: 0 <= k < |a| ==> a[k].start != header
    ensures !exists k :: 0 <= k < |bs| && bs[k].Used() && bs[k].start == header
  {
    TilesWithin(c, cursor, end);
    forall k | 0 <= k < |bs| ensures bs[k].start != header {
      if k < |a| { assert bs[k] == a[k]; } else { assert bs[k] == c[k - |a|]; }
    }
  }
}
