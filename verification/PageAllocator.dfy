/** kernel/memory/page_allocator.cpp: the page allocator on top of the extent lists. */
module PageAllocator {
  import opened Common
  import opened PageExtents

  const PAGE: nat := 4096
  const MAX_EXTENTS: nat := 4096
  /** The largest 64-bit address. */
  const TOP: nat := 0xffff_ffff_ffff_ffff

  /** A memory region as the firmware reports it. */
  datatype Region = Region(start: nat, length: nat, usable: bool)

  function AlignDown(v: nat): nat { v - v % PAGE }

  /** `align_usable`. */
  function AlignUsable(r: Region): Option<Extent> {
    if r.length == 0 || r.start + r.length > TOP || r.start + (PAGE - 1) > TOP then None
    else
      var up := AlignDown(r.start + PAGE - 1);
      var begin := if up == 0 then PAGE else up;
      var end := AlignDown(r.start + r.length);
      if begin >= end then None else Some(Extent(begin, end))
  }

  /** `align_reserved`. */
  function AlignReserved(r: Region): Option<Extent> {
    if r.length == 0 || r.start + r.length > TOP then None
    else
      var begin, raw := AlignDown(r.start), r.start + r.length;
      var end := if raw % PAGE == 0 then raw else if raw + (PAGE - 1) > TOP then TOP else AlignDown(raw + PAGE - 1);
      if begin >= end then None else Some(Extent(begin, end))
  }

  /** A page is taken as usable when all of it is, page 0 aside. */
  lemma UsablePages(r: Region, p: nat)
    requires r.start + r.length <= TOP && p % PAGE == 0
    ensures AlignUsable(r).Some? && Has(AlignUsable(r).value, p) <==>
            p > 0 && r.start <= p && p + PAGE <= r.start + r.length
  {
    Above(r.start, p);
    Below(r.start + r.length, p);
    hide AlignDown;
  }

  /** The first page at or above an address, and the last page end at or below one. */
  lemma Above(v: nat, p: nat)
    requires p % PAGE == 0
    ensures AlignDown(v + PAGE - 1) <= p <==> v <= p
    ensures AlignDown(v + PAGE - 1) == 0 <==> v == 0
    ensures p > 0 ==> p >= PAGE
  {
    hide AlignDown;
    DownIs(v + PAGE - 1);
    Multiples(AlignDown(v + PAGE - 1), p);
  }

  lemma Below(v: nat, p: nat)
    requires p % PAGE == 0
    ensures p < AlignDown(v) <==> p + PAGE <= v
  {
    hide AlignDown;
    DownIs(v);
    Multiples(AlignDown(v), p);
    Multiples(p, AlignDown(v));
  }

  lemma DownIs(v: nat)
    ensures AlignDown(v) % PAGE == 0 && AlignDown(v) <= v < AlignDown(v) + PAGE
  {
  }

  lemma Multiples(a: nat, b: nat)
    requires a % PAGE == 0 && b % PAGE == 0
    ensures a < b ==> a + PAGE <= b
    ensures a > 0 ==> a >= PAGE
    ensures b > 0 ==> b >= PAGE
  {
  }

  /** A page is taken as reserved when any of it is. */
  lemma ReservedPages(r: Region, p: nat)
    requires r.length > 0 && r.start + r.length <= TOP && p % PAGE == 0 && p <= TOP
    ensures AlignReserved(r).Some? && Has(AlignReserved(r).value, p) <==> r.start < p + PAGE && p < r.start + r.length
  {
    var raw := r.start + r.length;
    DownIs(r.start);
    Multiples(AlignDown(r.start), p);
    Multiples(p, AlignDown(r.start));
    DownIs(raw + PAGE - 1);
    Multiples(p, AlignDown(raw + PAGE - 1));
    Multiples(AlignDown(raw + PAGE - 1), p);
    hide AlignDown;
  }

  // ------------------------------------------------------------ lists of pages

  predicate PagedExtent(e: Extent) { 0 < e.begin < e.end <= TOP && e.begin % PAGE == 0 && e.end % PAGE == 0 }

  ghost predicate Paged(s: seq<Extent>) { forall i :: 0 <= i < |s| ==> PagedExtent(s[i]) }

  function Len(e: Extent): nat { if e.begin <= e.end then e.end - e.begin else 0 }

  function Size(s: seq<Extent>): nat { if s == [] then 0 else Len(s[0]) + Size(s[1..]) }

  lemma {:induction false} SizeConcat(a: seq<Extent>, b: seq<Extent>)
    ensures Size(a + b) == Size(a) + Size(b)
  {
    if a == [] {
      assert a + b == b;
    } else {
      assert (a + b)[1..] == a[1..] + b;
      SizeConcat(a[1..], b);
    }
  }

  lemma SizeOne(e: Extent)
    ensures Size([e]) == Len(e)
  {
  }

  lemma {:induction false} SizePaged(s: seq<Extent>)
    requires Paged(s)
    ensures Size(s) % PAGE == 0
  {
    if s != [] {
      SizePaged(s[1..]);
      assert PagedExtent(s[0]);
    }
  }

  /** `e` and an extent have no address in common. */
  predicate Clear(e: Extent, f: Extent) { f.end <= e.begin || e.end <= f.begin }

  /** Absorbing ranges that touch, and do not overlap, adds their lengths. */
  lemma {:induction false} AbsorbSize(s: seq<Extent>, i: nat, e: Extent)
    requires Normal(s) && i <= |s| && e.begin < e.end && (i < |s| ==> s[i].end >= e.begin)
    requires forall k :: i <= k < |s| ==> Clear(e, s[k])
    ensures var (last, h) := Absorb(s, i, e); Len(h) == Len(e) + Size(s[i..last])
    decreases |s| - i
  {
    if i < |s| && s[i].begin <= e.end {
      var g := Hull(e, s[i]);
      forall k | i + 1 <= k < |s| ensures Clear(g, s[k]) { assert Clear(e, s[k]) && Clear(e, s[i]); }
      assert Clear(e, s[i]);
      AbsorbSize(s, i + 1, g);
      var (last, h) := Absorb(s, i + 1, g);
      assert s[i..last] == [s[i]] + s[i + 1..last];
      SizeConcat([s[i]], s[i + 1..last]);
      SizeOne(s[i]);
    } else {
      assert s[i..i] == [];
    }
  }

  /** Inserting a range none of which was there adds its length. */
  lemma InsertSize(s: seq<Extent>, e: Extent)
    requires Normal(s) && e.begin < e.end && MovesSafely(s, e) && forall k :: 0 <= k < |s| ==> Clear(e, s[k])
    ensures Size(Inserted(s, e)) == Size(s) + Len(e)
  {
    hide *;
    var first := First(s, e, 0);
    AbsorbSize(s, first, e);
    var (last, h) := Absorb(s, first, e);
    InsertedSafely(s, e, first, last, h);
    SizeConcat(s[..first] + [h], s[last..]);
    SizeConcat(s[..first], [h]);
    SizeOne(h);
    assert s == s[..first] + s[first..last] + s[last..];
    SizeConcat(s[..first] + s[first..last], s[last..]);
    SizeConcat(s[..first], s[first..last]);
  }

  lemma InsertedSafely(s: seq<Extent>, e: Extent, first: nat, last: nat, h: Extent)
    requires first <= last <= |s| && First(s, e, 0) == first && Absorb(s, first, e) == (last, h) && MovesSafely(s, e)
    ensures Inserted(s, e) == s[..first] + [h] + s[last..]
  {
    InsertedIs(s, e, first, last, h);
    MovedSame(s[last..], if last - first > 1 then last - first - 1 else 0);
  }

  lemma {:induction false} AbsorbPaged(s: seq<Extent>, i: nat, e: Extent)
    requires i <= |s| && Paged(s) && PagedExtent(e)
    ensures PagedExtent(Absorb(s, i, e).1)
    decreases |s| - i
  {
    if i < |s| && s[i].begin <= e.end {
      assert PagedExtent(s[i]);
      AbsorbPaged(s, i + 1, Hull(e, s[i]));
    }
  }

  lemma InsertPaged(s: seq<Extent>, e: Extent)
    requires Paged(s) && PagedExtent(e)
    ensures Paged(Inserted(s, e))
  {
    AbsorbPaged(s, First(s, e, 0), e);
    hide PagedExtent, Absorb, First;
  }

  /** A page is in a list of pages, or not, as a whole. */
  lemma PageWhole(s: seq<Extent>, a: nat, x: nat)
    requires Paged(s) && a % PAGE == 0 && a <= x < a + PAGE
    ensures In(s, a) <==> In(s, x)
  {
    forall i | 0 <= i < |s| ensures Has(s[i], a) <==> Has(s[i], x) { PageIn(s[i], a, x); }
    hide PagedExtent, Has;
  }

  lemma PageIn(e: Extent, a: nat, x: nat)
    requires PagedExtent(e) && a % PAGE == 0 && a <= x < a + PAGE
    ensures Has(e, a) <==> Has(e, x)
  {
  }

  /** A page not in a list of pages overlaps none of its extents. */
  lemma PageClear(s: seq<Extent>, a: nat)
    requires Paged(s) && a % PAGE == 0 && !In(s, a)
    ensures forall k :: 0 <= k < |s| ==> Clear(Extent(a, a + PAGE), s[k])
  {
    forall k | 0 <= k < |s| ensures Clear(Extent(a, a + PAGE), s[k]) {
      assert PagedExtent(s[k]) && !Has(s[k], a);
    }
  }

  // -------------------------------------------------------------- taking a page

  /** The list without its first page. */
  function Taken(s: seq<Extent>): seq<Extent>
    requires s != []
  {
    if s[0].begin + PAGE == s[0].end then s[1..] else [Extent(s[0].begin + PAGE, s[0].end)] + s[1..]
  }

  lemma TakenMeans(s: seq<Extent>)
    requires Normal(s) && Paged(s) && s != []
    ensures Normal(Taken(s)) && Paged(Taken(s)) && Size(Taken(s)) + PAGE == Size(s)
    ensures forall x: nat :: In(Taken(s), x) <==> In(s, x) && !Has(Extent(s[0].begin, s[0].begin + PAGE), x)
    ensures forall x: nat :: In(s, x) ==> s[0].begin <= x
  {
    hide *;
    TakenList(s);
    forall x: nat
      ensures In(Taken(s), x) <==> In(s, x) && !Has(Extent(s[0].begin, s[0].begin + PAGE), x)
      ensures In(s, x) ==> s[0].begin <= x
    {
      TakenIn(s, x);
    }
  }

  lemma TakenList(s: seq<Extent>)
    requires Normal(s) && Paged(s) && s != []
    ensures Normal(Taken(s)) && Paged(Taken(s)) && Size(Taken(s)) + PAGE == Size(s)
  {
    hide *;
    TakenNormal(s);
    TakenPaged(s);
    TakenSize(s);
  }

  lemma TakenNormal(s: seq<Extent>)
    requires Normal(s) && Paged(s) && s != []
    ensures Normal(Taken(s))
  {
    assert PagedExtent(s[0]);
  }

  lemma TakenPaged(s: seq<Extent>)
    requires Normal(s) && Paged(s) && s != []
    ensures Paged(Taken(s))
  {
    hide Normal;
    assert PagedExtent(s[0]);
    FirstRest(s[0]);
    hide PagedExtent;
  }

  lemma FirstRest(e: Extent)
    requires PagedExtent(e)
    ensures e.begin + PAGE == e.end || PagedExtent(Extent(e.begin + PAGE, e.end))
  {
  }

  lemma TakenSize(s: seq<Extent>)
    requires Normal(s) && Paged(s) && s != []
    ensures Size(Taken(s)) + PAGE == Size(s)
  {
    assert PagedExtent(s[0]);
    hide Normal, Paged;
    if s[0].begin + PAGE != s[0].end { assert Taken(s)[1..] == s[1..]; }
  }

  lemma TakenIn(s: seq<Extent>, x: nat)
    requires Normal(s) && Paged(s) && s != []
    ensures In(Taken(s), x) <==> In(s, x) && !Has(Extent(s[0].begin, s[0].begin + PAGE), x)
    ensures In(s, x) ==> s[0].begin <= x
  {
    assert PagedExtent(s[0]);
    InHead(s, x);
    if In(s[1..], x) { After(s, x); }
    if s[0].begin + PAGE != s[0].end {
      InHead(Taken(s), x);
      assert Taken(s)[1..] == s[1..];
    }
  }

  /** Putting the page just taken back restores the list itself. */
  lemma TakenBack(s: seq<Extent>)
    requires Normal(s) && Paged(s) && s != []
    ensures var e := Extent(s[0].begin, s[0].begin + PAGE);
            MovesSafely(Taken(s), e) && Inserted(Taken(s), e) == s
  {
    assert PagedExtent(s[0]);
    var t, e := Taken(s), Extent(s[0].begin, s[0].begin + PAGE);
    FirstStep(t, e, 0);
    AbsorbStep(t, 0, e);
    if s[0].begin + PAGE == s[0].end {
      InsertedIs(t, e, 0, 0, e);
      MovedSame(t, 0);
      assert t[0..] == t && t[..0] == [];
    } else {
      assert t[1..] == s[1..] && Hull(e, t[0]) == s[0];
      AbsorbStep(t, 1, s[0]);
      InsertedIs(t, e, 0, 1, s[0]);
      MovedSame(t[1..], 0);
      assert t[..0] == [];
    }
  }

  // ------------------------------------------------------------- the firmware map

  /** The list after inserting the usable regions, in order. */
  function Gathered(rs: seq<Region>): (s: seq<Extent>) {
    if rs == [] then [] else Gather(Gathered(rs[..|rs| - 1]), rs[|rs| - 1])
  }

  function Gather(s: seq<Extent>, r: Region): seq<Extent> {
    if !r.usable || AlignUsable(r).None? then s
    else if Absorbed(s, AlignUsable(r).value) == 0 && |s| >= MAX_EXTENTS then s
    else Inserted(s, AlignUsable(r).value)
  }

  /** ... and after cutting out the others. */
  function Trimmed(s: seq<Extent>, rs: seq<Region>): seq<Extent> {
    if rs == [] then s else Trim(Trimmed(s, rs[..|rs| - 1]), rs[|rs| - 1])
  }

  function Trim(s: seq<Extent>, r: Region): seq<Extent> {
    if r.usable || AlignReserved(r).None? then s else CutRun(s, AlignReserved(r).value, |s|, MAX_EXTENTS)
  }

  /** `x` is in a usable page of some region. */
  ghost predicate Usable(rs: seq<Region>, x: nat) {
    exists k :: 0 <= k < |rs| && rs[k].usable && AlignUsable(rs[k]).Some? && Has(AlignUsable(rs[k]).value, x)
  }

  ghost predicate Reserved(rs: seq<Region>, x: nat) {
    exists k :: 0 <= k < |rs| && !rs[k].usable && AlignReserved(rs[k]).Some? && Has(AlignReserved(rs[k]).value, x)
  }

  /** The usable regions, in number. */
  function Usables(rs: seq<Region>): (n: nat)
    ensures n <= |rs|
  {
    if rs == [] then 0 else Usables(rs[..|rs| - 1]) + (if rs[|rs| - 1].usable then 1 else 0)
  }

  /** No insertion overwrites what it has yet to move. */
  ghost predicate Orderly(rs: seq<Region>) {
    forall k :: 0 <= k < |rs| && rs[k].usable && AlignUsable(rs[k]).Some? ==>
           MovesSafely(Gathered(rs[..k]), AlignUsable(rs[k]).value)
  }

  /** Usable regions one after the other, as firmware commonly lists them. */
  predicate Ascending(rs: seq<Region>) {
    forall j, k :: 0 <= j < k < |rs| && rs[j].usable && rs[k].usable ==> rs[j].start + rs[j].length <= rs[k].start
  }

  lemma GatherMeans(s: seq<Extent>, r: Region, x: nat)
    requires Normal(s) && Paged(s) && (r.usable && AlignUsable(r).Some? ==> MovesSafely(s, AlignUsable(r).value))
    ensures Normal(Gather(s, r)) && Paged(Gather(s, r)) && |Gather(s, r)| <= |s| + (if r.usable then 1 else 0)
    ensures In(Gather(s, r), x) ==> In(s, x) || Usable([r], x)
    ensures |s| < MAX_EXTENTS || !r.usable ==> (In(Gather(s, r), x) <==> In(s, x) || Usable([r], x))
  {
    UsableOne(r, x);
    if r.usable && AlignUsable(r).Some? {
      var e := AlignUsable(r).value;
      UsablePaged(r);
      InsertUnion(s, e);
      InsertPaged(s, e);
      InsertLength(s, e);
      hide Inserted, AlignUsable;
    }
  }

  lemma InsertLength(s: seq<Extent>, e: Extent)
    ensures |Inserted(s, e)| == |s| - Absorbed(s, e) + 1
  {
  }

  lemma UsableOne(r: Region, x: nat)
    ensures Usable([r], x) <==> r.usable && AlignUsable(r).Some? && Has(AlignUsable(r).value, x)
    ensures Reserved([r], x) <==> !r.usable && AlignReserved(r).Some? && Has(AlignReserved(r).value, x)
  {
    hide AlignUsable, AlignReserved, Has;
    var rs := [r];
    assert rs[0] == r;
  }

  lemma UsablePaged(r: Region)
    requires AlignUsable(r).Some?
    ensures PagedExtent(AlignUsable(r).value)
  {
  }

  lemma UsableSplit(rs: seq<Region>, x: nat)
    requires rs != []
    ensures Usable(rs, x) <==> Usable(rs[..|rs| - 1], x) || Usable([rs[|rs| - 1]], x)
    ensures Reserved(rs, x) <==> Reserved(rs[..|rs| - 1], x) || Reserved([rs[|rs| - 1]], x)
  {
    UsableOne(rs[|rs| - 1], x);
    hide AlignUsable, AlignReserved, Has;
    var most := rs[..|rs| - 1];
    forall k | 0 <= k < |most| ensures most[k] == rs[k] {
    }
  }

  /** Gathered in an orderly way, the list stands for the usable pages; for no others, even
      if the table fills up. */
  lemma {:induction false} GatheredMeans(rs: seq<Region>, x: nat)
    requires Orderly(rs)
    ensures Normal(Gathered(rs)) && Paged(Gathered(rs)) && |Gathered(rs)| <= Usables(rs)
    ensures In(Gathered(rs), x) ==> Usable(rs, x)
    ensures Usables(rs) <= MAX_EXTENTS ==> (In(Gathered(rs), x) <==> Usable(rs, x))
  {
    if rs != [] {
      var most := rs[..|rs| - 1];
      OrderlyParts(rs);
      GatheredMeans(most, x);
      GatherMeans(Gathered(most), rs[|rs| - 1], x);
      UsableSplit(rs, x);
    }
  }

  lemma OrderlyParts(rs: seq<Region>)
    requires Orderly(rs) && rs != []
    ensures Orderly(rs[..|rs| - 1])
    ensures var r := rs[|rs| - 1]; r.usable && AlignUsable(r).Some? ==>
            MovesSafely(Gathered(rs[..|rs| - 1]), AlignUsable(r).value)
  {
    hide Gathered, AlignUsable, MovesSafely;
    var most := rs[..|rs| - 1];
    forall k | 0 <= k < |most| && most[k].usable && AlignUsable(most[k]).Some?
           ensures MovesSafely(Gathered(most[..k]), AlignUsable(most[k]).value) {
      assert most[..k] == rs[..k];
    }
  }

  /** A range of whole pages, or one that ends with the address space. */
  predicate PagedRange(e: Extent)
  {
    e.begin < e.end <= TOP && e.begin % PAGE == 0 && (e.end % PAGE == 0 || e.end == TOP)
  }

  lemma ReservedPaged(r: Region)
    requires AlignReserved(r).Some?
    ensures PagedRange(AlignReserved(r).value)
  {
  }

  lemma PiecesPaged(c: Extent, e: Extent, room: bool)
    requires PagedExtent(c) && PagedRange(e)
    ensures Paged(Pieces(c, e, room)) && |Pieces(c, e, room)| <= (if Splits(c, e) then 2 else 1)
  {
  }

  lemma {:induction false} CutPaged(s: seq<Extent>, e: Extent, room: bool)
    requires Paged(s) && PagedRange(e)
    ensures Paged(Cut(s, e, room))
  {
    if s != [] {
      CutPaged(s[1..], e, room);
      assert PagedExtent(s[0]);
      PiecesPaged(s[0], e, room);
      hide PagedExtent, Pieces, PagedRange;
    }
  }

  lemma {:induction false} CutLength(s: seq<Extent>, e: Extent, room: bool)
    requires Normal(s) && e.begin < e.end
    ensures |Cut(s, e, room)| <= |s| + (if room && !Quiet(s, e) then 1 else 0)
  {
    if s != [] {
      NormalTail(s);
      CutLength(s[1..], e, room);
      forall i | 0 <= i < |s[1..]| ensures s[1..][i] == s[i + 1] {
      }
      if Splits(s[0], e) { QuietTail(s, e); }
    }
  }

  lemma TrimMeans(s: seq<Extent>, r: Region, x: nat)
    requires Normal(s) && Paged(s)
    ensures Normal(Trim(s, r)) && Paged(Trim(s, r)) && |Trim(s, r)| <= |s| + (if r.usable then 0 else 1)
    ensures |s| <= MAX_EXTENTS ==> |Trim(s, r)| <= MAX_EXTENTS
    ensures In(Trim(s, r), x) ==> In(s, x) && !Reserved([r], x)
    ensures |s| < MAX_EXTENTS || r.usable ==> (In(Trim(s, r), x) <==> In(s, x) && !Reserved([r], x))
  {
    UsableOne(r, x);
    if !r.usable && AlignReserved(r).Some? {
      var e := AlignReserved(r).value;
      ReservedPaged(r);
      CutRunIs(s, e, |s|, MAX_EXTENTS);
      SubtractExact(s, e, MAX_EXTENTS);
      CutPaged(s, e, |s| < MAX_EXTENTS);
      CutLength(s, e, |s| < MAX_EXTENTS);
      hide AlignReserved, Cut, CutRun, Normal, Paged;
    }
  }

  /** Cutting out the reserved regions leaves nothing of them, and with room for every half
      leaves everything else. */
  lemma {:induction false} TrimmedMeans(s: seq<Extent>, rs: seq<Region>, x: nat)
    requires Normal(s) && Paged(s)
    ensures Normal(Trimmed(s, rs)) && Paged(Trimmed(s, rs)) && |Trimmed(s, rs)| <= |s| + |rs| - Usables(rs)
    ensures |s| <= MAX_EXTENTS ==> |Trimmed(s, rs)| <= MAX_EXTENTS
    ensures In(Trimmed(s, rs), x) ==> In(s, x) && !Reserved(rs, x)
    ensures |s| + |rs| - Usables(rs) <= MAX_EXTENTS ==> (In(Trimmed(s, rs), x) <==> In(s, x) && !Reserved(rs, x))
  {
    if rs != [] {
      var most := rs[..|rs| - 1];
      TrimmedMeans(s, most, x);
      TrimMeans(Trimmed(s, most), rs[|rs| - 1], x);
      UsableSplit(rs, x);
    }
  }

  /** `initialize`, on a map it can take in order: only usable pages are managed, never a
      reserved one; all of them, if the table has room for every region. */
  lemma InitialPages(rs: seq<Region>, x: nat)
    requires Orderly(rs)
    ensures var s := Trimmed(Gathered(rs), rs);
            && Normal(s) && Paged(s)
            && (In(s, x) ==> Usable(rs, x) && !Reserved(rs, x))
            && (|rs| <= MAX_EXTENTS ==> (In(s, x) <==> Usable(rs, x) && !Reserved(rs, x)))
  {
    hide *;
    GatheredMeans(rs, x);
    TrimmedMeans(Gathered(rs), rs, x);
  }

  /** All extents of a list end at or before `m`. */
  ghost predicate Upto(s: seq<Extent>, m: nat) { forall i :: 0 <= i < |s| ==> s[i].begin < s[i].end <= m }

  lemma {:induction false} AbsorbAll(s: seq<Extent>, i: nat, e: Extent, m: nat)
    requires i <= |s| && Upto(s, m) && m <= e.end
    ensures Absorb(s, i, e).0 == |s| && Absorb(s, i, e).1.end == e.end
    decreases |s| - i
  {
    if i < |s| { AbsorbAll(s, i + 1, Hull(e, s[i]), m); }
  }

  /** An ascending map is taken in order. */
  lemma AscendingOrderly(rs: seq<Region>)
    requires Ascending(rs)
    ensures Orderly(rs)
  {
    forall k | 0 <= k < |rs| && rs[k].usable && AlignUsable(rs[k]).Some?
           ensures MovesSafely(Gathered(rs[..k]), AlignUsable(rs[k]).value) {
      var e := AlignUsable(rs[k]).value;
      UsableWithin(rs[k]);
      forall j | 0 <= j < k && rs[..k][j].usable ensures rs[..k][j].start + rs[..k][j].length <= rs[k].start {
      }
      GatheredUpto(rs[..k], rs[k].start);
      AbsorbAll(Gathered(rs[..k]), First(Gathered(rs[..k]), e, 0), e, rs[k].start);
    }
  }

  lemma UsableWithin(r: Region)
    requires AlignUsable(r).Some?
    ensures var e := AlignUsable(r).value; r.start <= e.begin < e.end <= r.start + r.length
  {
  }

  lemma {:induction false} GatheredUpto(rs: seq<Region>, m: nat)
    requires forall j :: 0 <= j < |rs| && rs[j].usable ==> rs[j].start + rs[j].length <= m
    ensures Upto(Gathered(rs), m)
  {
    if rs != [] {
      var most, r := rs[..|rs| - 1], rs[|rs| - 1];
      forall j | 0 <= j < |most| && most[j].usable
             ensures most[j].start + most[j].length <= m { assert most[j] == rs[j]; }
      GatheredUpto(most, m);
      if r.usable && AlignUsable(r).Some? {
        UsableWithin(r);
        InsertUpto(Gathered(most), AlignUsable(r).value, m);
      }
    }
  }

  lemma InsertUpto(s: seq<Extent>, e: Extent, m: nat)
    requires Upto(s, m) && e.begin < e.end <= m
    ensures Upto(Inserted(s, e), m)
  {
    AbsorbUpto(s, First(s, e, 0), e, m);
  }

  lemma {:induction false} AbsorbUpto(s: seq<Extent>, i: nat, e: Extent, m: nat)
    requires i <= |s| && Upto(s, m) && e.begin < e.end <= m
    ensures var h := Absorb(s, i, e).1; h.begin < h.end <= m
    decreases |s| - i
  {
    if i < |s| && s[i].begin <= e.end { AbsorbUpto(s, i + 1, Hull(e, s[i]), m); }
  }

  lemma {:induction false} CutUpto(s: seq<Extent>, e: Extent, n: nat, max: nat, m: nat)
    requires |s| <= n && Upto(s, m) && e.begin < e.end
    ensures Upto(CutRun(s, e, n, max), m)
  {
    if s != [] {
      var p := Pieces(s[0], e, n < max);
      CutUpto(s[1..], e, n + |p| - 1, max, m);
      assert Upto(p, m);
    }
  }

  lemma UptoProper(s: seq<Extent>, m: nat)
    requires Upto(s, m)
    ensures Proper(s)
  {
  }

  /** Pages in a list, counted extent by extent. */
  function PageCount(s: seq<Extent>): nat { if s == [] then 0 else PageCount(s[..|s| - 1]) + Len(s[|s| - 1]) / PAGE }

  lemma {:induction false} PageCountMore(s: seq<Extent>, n: nat)
    requires n <= |s|
    ensures PageCount(s[..n]) <= PageCount(s)
    decreases |s|
  {
    if n < |s| {
      PageCountMore(s[..|s| - 1], n);
      assert s[..|s| - 1][..n] == s[..n];
    } else {
      assert s[..n] == s;
    }
  }

  /** Extents of 64-bit addresses have fewer pages than `count_pages` can count, as many as
      the table may hold. */
  lemma NeverStops(s: seq<Extent>)
    requires |s| <= MAX_EXTENTS && Upto(s, TOP)
    ensures PageCount(s) <= TOP
  {
    PageCountMost(s);
  }

  lemma {:induction false} PageCountMost(s: seq<Extent>)
    requires Upto(s, TOP)
    ensures PageCount(s) <= |s| * 0xf_ffff_ffff_ffff
  {
    if s != [] { PageCountMost(s[..|s| - 1]); }
  }

  /** The managed extents end where addresses do. */
  lemma ManagedUpto(rs: seq<Region>)
    requires Orderly(rs)
    ensures Upto(Trimmed(Gathered(rs), rs), TOP)
  {
    var s := Trimmed(Gathered(rs), rs);
    hide Trimmed, Gathered, Orderly, Normal, Paged, In, Usable, Reserved;
    forall i | 0 <= i < |s| ensures s[i].begin < s[i].end <= TOP {
      InitialPages(rs, 0);
      ExtentIn(s, i);
      InitialPages(rs, s[i].end - 1);
      UsableUpto(rs, s[i].end - 1);
    }
  }

  lemma ExtentIn(s: seq<Extent>, i: nat)
    requires Normal(s) && i < |s|
    ensures s[i].begin < s[i].end && In(s, s[i].end - 1)
  {
    assert Has(s[i], s[i].end - 1);
  }

  lemma UsableUpto(rs: seq<Region>, x: nat)
    requires Usable(rs, x)
    ensures x < TOP
  {
    var k :| 0 <= k < |rs| && rs[k].usable && AlignUsable(rs[k]).Some? && Has(AlignUsable(rs[k]).value, x);
    UsableTop(rs[k]);
  }

  lemma {:induction false} PageCountIs(s: seq<Extent>)
    requires Paged(s)
    ensures PageCount(s) * PAGE == Size(s)
  {
    if s != [] {
      var most, e := s[..|s| - 1], s[|s| - 1];
      PageCountIs(most);
      assert PagedExtent(e);
      assert s == most + [e];
      SizeConcat(most, [e]);
      SizeOne(e);
    }
  }

  class Allocator {
    const managed: array<Extent>
    const free: array<Extent>
    var managedCount: nat
    var freeCount: nat
    var total: nat
    var available: nat

    ghost predicate Tables()
      reads `managedCount, `freeCount
    {
      && managed.Length == MAX_EXTENTS && free.Length == MAX_EXTENTS && managed != free
      && managedCount <= MAX_EXTENTS && freeCount <= MAX_EXTENTS
    }

    ghost function Managed(): (s: seq<Extent>)
      reads this, managed
      ensures managedCount <= managed.Length ==> s == managed[..managedCount]
    {
      if managedCount <= managed.Length then managed[..managedCount] else []
    }

    ghost function Free(): (s: seq<Extent>)
      reads this, free
      ensures freeCount <= free.Length ==> s == free[..freeCount]
    {
      if freeCount <= free.Length then free[..freeCount] else []
    }

    ghost predicate Valid()
      reads this, managed, free
    {
      && Tables()
      && Normal(Managed()) && Paged(Managed()) && Normal(Free()) && Paged(Free())
      && (forall x: nat :: In(Free(), x) ==> In(Managed(), x))
      && available * PAGE == Size(Free()) && total * PAGE == Size(Managed())
    }

    constructor ()
      ensures Valid() && Managed() == [] && Free() == [] && fresh(managed) && fresh(free)
    {
      managed, free := new Extent[MAX_EXTENTS](_ => Extent(0, 0)), new Extent[MAX_EXTENTS](_ => Extent(0, 0));
      managedCount, freeCount, total, available := 0, 0, 0, 0;
    }

    /** `count_pages`, which stops at the largest count there is. */
    method CountPages(a: array<Extent>, count: nat) returns (pages: nat)
      requires count <= a.Length
      ensures pages == Min(PageCount(a[..count]), TOP)
    {
      pages := 0;
      for i := 0 to count
        invariant pages == PageCount(a[..i]) <= TOP
      {
        assert a[..i + 1][..i] == a[..i];
        if Len(a[i]) / PAGE > TOP - pages {
          PageCountMore(a[..count], i + 1);
          assert a[..count][..i + 1] == a[..i + 1];
          return TOP;
        }
        pages := pages + Len(a[i]) / PAGE;
      }
    }

    /** `contains`: in a list in order, the search may stop at the first extent past the
        address. */
    method Contains(a: array<Extent>, count: nat, address: nat) returns (r: bool)
      requires count <= a.Length && Normal(a[..count])
      ensures r <==> In(a[..count], address)
    {
      ghost var s := a[..count];
      for i := 0 to count
        invariant forall k :: 0 <= k < i ==> !Has(s[k], address)
      {
        assert a[i] == s[i];
        if a[i].begin <= address < a[i].end {
          assert Has(s[i], address);
          return true;
        }
        if address < a[i].begin {
          forall k | 0 <= k < |s| ensures !Has(s[k], address) {
            if k > i { assert s[i].end < s[k].begin; }
          }
          return false;
        }
      }
      return false;
    }

    /** `initialize`: the managed list is what inserting and cutting, in order, leave; it
        is sound for every map taken in order. */
    method Initialize(regions: seq<Region>, current: bool)
      requires Tables()
      modifies this, managed, free
      ensures Tables() && Free() == Managed()
      ensures Managed() == if current then Trimmed(Gathered(regions), regions) else []
      ensures !current || Orderly(regions) ==> Valid()
    {
      managedCount, freeCount, total, available := 0, 0, 0, 0;
      if !current { return; }
      InsertUsable(regions);
      CutReserved(regions);
      freeCount := managedCount;
      CopyManaged();
      total := CountPages(managed, managedCount);
      available := total;
      if Orderly(regions) {
        InitialPages(regions, 0);
        PageCountIs(Managed());
        ManagedUpto(regions);
        NeverStops(Managed());
      }
    }

    method InsertUsable(regions: seq<Region>)
      requires Tables() && managedCount == 0
      modifies `managedCount, managed
      ensures Tables() && Managed() == Gathered(regions) && Upto(Managed(), TOP)
    {
      hide Gathered, Gather, Upto, Inserted, Absorbed, AlignUsable, Absorb, First, PagedExtent;
      NoRegions(regions);
      assert Managed() == [];
      for i := 0 to |regions|
        invariant Tables() && Managed() == Gathered(regions[..i]) && Upto(Managed(), TOP)
      {
        GatherStep(regions, i);
        GatherIs(Managed(), regions[i]);
        var r := regions[i];
        var e := AlignUsable(r);
        if r.usable && e.Some? {
          UsableWithin(r);
          UsableTop(r);
          InsertUpto(Managed(), e.value, TOP);
          var ok, n := InsertExtent(managed, managedCount, e.value);
          managedCount := n;
        }
      }
      assert regions[..|regions|] == regions;
    }

    method CutReserved(regions: seq<Region>)
      requires Upto(Managed(), TOP) && Tables()
      modifies `managedCount, managed
      ensures Tables() && Managed() == Trimmed(old(Managed()), regions) && Upto(Managed(), TOP)
    {
      hide Trimmed, Trim, Upto, Proper, CutRun, AlignReserved;
      ghost var s := Managed();
      NoTrim(s, regions);
      for i := 0 to |regions|
        invariant Tables() && Managed() == Trimmed(s, regions[..i]) && Upto(Managed(), TOP)
      {
        TrimStep(s, regions, i);
        TrimIs(Managed(), regions[i]);
        var r := regions[i];
        var e := AlignReserved(r);
        if !r.usable && e.Some? {
          ReservedProper(r);
          UptoProper(Managed(), TOP);
          CutUpto(Managed(), e.value, managedCount, MAX_EXTENTS, TOP);
          managedCount := SubtractExtent(managed, managedCount, e.value);
        }
      }
      assert regions[..|regions|] == regions;
    }

    method CopyManaged()
      requires Tables() && freeCount == managedCount
      modifies free
      ensures Free() == Managed()
    {
      var i := 0;
      while i < managedCount
        invariant i <= managedCount && free[..i] == managed[..i]
      {
        free[i] := managed[i];
        i := i + 1;
      }
    }

    /** `allocate_page`: the lowest free page, and only that page; 0 when there is none. */
    method AllocatePage() returns (page: nat)
      requires Valid()
      modifies `freeCount, `available, free
      ensures Valid() && Managed() == old(Managed()) && total == old(total)
      ensures page == 0 <==> old(Free()) == []
      ensures page == 0 ==> Free() == old(Free()) && available == old(available)
      ensures page != 0 ==>
                && page == old(Free())[0].begin && Free() == Taken(old(Free()))
                && In(old(Free()), page) && (forall x: nat :: In(old(Free()), x) ==> page <= x)
                && (forall x: nat :: In(Free(), x) <==> In(old(Free()), x) && !Has(Extent(page, page + PAGE), x))
                && available == old(available) - 1
    {
      hide Normal, Paged, In, Has, Size, Taken;
      if freeCount == 0 { return 0; }
      ghost var s := Free();
      FirstPage(s);
      TakenMeans(s);
      TakenIs(s);
      var result := free[0].begin;
      free[0] := Extent(free[0].begin + PAGE, free[0].end);
      ghost var t := free[..freeCount];
      assert t[0] == free[0] && t[1..] == s[1..];
      if free[0].begin == free[0].end {
        RemoveAt(free, 0, freeCount);
        freeCount := freeCount - 1;
        assert free[..freeCount] == free[0..freeCount];
      } else {
        assert t == [t[0]] + t[1..];
      }
      available := available - 1;
      return result;
    }

    /** `free_page`: a page that is not managed, or is free already, is left alone.  Any
        other joins the free pages, and nothing else changes, exactly when the insertion
        moves safely; and only then is the allocator still sound. */
    method FreePage(address: nat)
      requires Valid()
      modifies `freeCount, `available, free
      ensures Tables() && Managed() == old(Managed()) && total == old(total)
      ensures var s, e := old(Free()), Extent(address, address + PAGE);
              var refused := address % PAGE != 0 || !In(Managed(), address) || In(s, address)
                             || (Absorbed(s, e) == 0 && |s| == MAX_EXTENTS);
              && (refused ==> Free() == s && available == old(available) && Valid())
              && (!refused ==> Free() == Inserted(s, e) && available == old(available) + 1)
              && (Valid() <==> refused || MovesSafely(s, e))
              && (!refused && MovesSafely(s, e) ==> forall x: nat :: In(Free(), x) <==> In(s, x) || Has(e, x))
    {
      hide Normal, Paged, In, Has, Size, Inserted, Absorbed, MovesSafely;
      if address % PAGE != 0 { return; }
      var mine := Contains(managed, managedCount, address);
      if !mine { return; }
      var already := Contains(free, freeCount, address);
      if already { return; }
      ghost var s, e := Free(), Extent(address, address + PAGE);
      var ok, n := InsertExtent(free, freeCount, Extent(address, address + PAGE));
      if !ok { return; }
      freeCount := n;
      available := available + 1;
      Freed(Managed(), s, address);
      InsertExact(s, e);
    }
  }

  /** A managed page that is not free, put back. */
  lemma Freed(managed: seq<Extent>, s: seq<Extent>, address: nat)
    requires Paged(managed) && Normal(s) && Paged(s) && address % PAGE == 0 && In(managed, address) && !In(s, address)
    requires forall x: nat :: In(s, x) ==> In(managed, x)
    ensures var e := Extent(address, address + PAGE);
            && Paged(Inserted(s, e))
            && (MovesSafely(s, e) ==>
                  && (forall x: nat :: In(Inserted(s, e), x) <==> In(s, x) || Has(e, x))
                  && (forall x: nat :: In(Inserted(s, e), x) ==> In(managed, x))
                  && Size(Inserted(s, e)) == Size(s) + PAGE)
  {
    var e := Extent(address, address + PAGE);
    ManagedPage(managed, address);
    InsertPaged(s, e);
    if MovesSafely(s, e) {
      InsertUnion(s, e);
      PageClear(s, address);
      InsertSize(s, e);
      forall x: nat | Has(e, x) ensures In(managed, x) { PageWhole(managed, address, x); }
      hide *;
    }
  }

  lemma ManagedPage(s: seq<Extent>, a: nat)
    requires Paged(s) && a % PAGE == 0 && In(s, a)
    ensures PagedExtent(Extent(a, a + PAGE))
  {
    var i :| 0 <= i < |s| && Has(s[i], a);
    assert PagedExtent(s[i]);
  }

  lemma FirstPage(s: seq<Extent>)
    requires Normal(s) && Paged(s) && s != []
    ensures s[0].begin > 0 && s[0].begin < s[0].end && In(s, s[0].begin)
  {
    assert PagedExtent(s[0]);
    InHead(s, s[0].begin);
  }

  lemma TakenIs(s: seq<Extent>)
    requires s != []
    ensures Taken(s) == if s[0].begin + PAGE == s[0].end then s[1..] else [Extent(s[0].begin + PAGE, s[0].end)] + s[1..]
  {
  }

  lemma NoRegions(rs: seq<Region>)
    ensures Gathered(rs[..0]) == [] && Upto([], TOP)
  {
  }

  lemma NoTrim(s: seq<Extent>, rs: seq<Region>)
    ensures Trimmed(s, rs[..0]) == s
  {
  }

  lemma GatherIs(s: seq<Extent>, r: Region)
    ensures Gather(s, r) == if !r.usable || AlignUsable(r).None? then s
                            else if Absorbed(s, AlignUsable(r).value) == 0 && |s| >= MAX_EXTENTS then s
                            else Inserted(s, AlignUsable(r).value)
  {
  }

  lemma TrimIs(s: seq<Extent>, r: Region)
    ensures Trim(s, r) == if r.usable || AlignReserved(r).None? then s
            else CutRun(s, AlignReserved(r).value, |s|, MAX_EXTENTS)
  {
  }

  lemma TrimStep(s: seq<Extent>, rs: seq<Region>, i: nat)
    requires i < |rs|
    ensures Trimmed(s, rs[..i + 1]) == Trim(Trimmed(s, rs[..i]), rs[i])
  {
    assert rs[..i + 1][..i] == rs[..i];
  }

  lemma ReservedProper(r: Region)
    requires AlignReserved(r).Some?
    ensures AlignReserved(r).value.begin < AlignReserved(r).value.end
  {
  }

  lemma UsableTop(r: Region)
    requires AlignUsable(r).Some?
    ensures AlignUsable(r).value.end <= TOP
  {
  }

  lemma GatherStep(rs: seq<Region>, i: nat)
    requires i < |rs|
    ensures Gathered(rs[..i + 1]) == Gather(Gathered(rs[..i]), rs[i])
  {
    assert rs[..i + 1][..i] == rs[..i];
  }

  // ------------------------------------------------------------- a page is lost

  /** Eight pages, of which seven are handed out and four come back: the one that fills the
      gap between the first two of four free extents makes the allocator forget the third. */
  method LosesPage() returns (a: Allocator)
    ensures fresh(a) && a.Free() == [Extent(4096, 16384), Extent(32768, 36864), Extent(32768, 36864)]
    ensures a.Managed() == [Extent(4096, 36864)] && !In(a.Free(), 20480) && !a.Valid()
  {
    hide *;
    a := HandsOut();
    FreeFirst();
    GiveBack(a, 4096);
    FreeSecond();
    GiveBack(a, 12288);
    FreeThird();
    GiveBack(a, 20480);
    FreeFourth();
    GiveBack(a, 8192);
  }

  /** Seven of the eight pages handed out. */
  method HandsOut() returns (a: Allocator)
    ensures fresh(a) && fresh(a.free) && a.Valid() && a.Managed() == [Extent(4096, 36864)]
            && a.Free() == [Extent(32768, 36864)]
  {
    a := new Allocator();
    var regions := [Region(4096, 32768, true)];
    OneRegion(regions);
    hide *;
    Sizes(a);
    a.Initialize(regions, true);
    for i := 1 to 8
      invariant a.Valid() && a.Managed() == [Extent(4096, 36864)] && a.Free() == [Extent(4096 * i, 36864)]
      invariant fresh(a) && fresh(a.free) && fresh(a.managed)
    {
      TakeFirst(a, 4096 * i);
    }
  }

  method TakeFirst(a: Allocator, b: nat)
    requires b < 32768 && a.Valid() && a.Free() == [Extent(b, 36864)]
    modifies a`freeCount, a`available, a.free
    ensures a.Valid() && a.Managed() == old(a.Managed()) && a.Free() == [Extent(b + 4096, 36864)]
  {
    hide *;
    TakeOne(b);
    var page := a.AllocatePage();
  }

  /** One of them back. */
  method GiveBack(a: Allocator, address: nat)
    requires a.Valid() && a.Managed() == [Extent(4096, 36864)] && 4096 <= address < 36864 && address % 4096 == 0
             && |a.Free()| < 4096 && !In(a.Free(), address)
    modifies a`freeCount, a`available, a.free
    ensures a.Managed() == [Extent(4096, 36864)]
    ensures a.Free() == Inserted(old(a.Free()), Extent(address, address + 4096))
            && (a.Valid() <==> MovesSafely(old(a.Free()), Extent(address, address + 4096)))
  {
    hide *;
    Sizes(a);
    Within(address);
    a.FreePage(address);
  }

  lemma Sizes(a: Allocator)
    requires a.Valid()
    ensures a.Tables() && PAGE == 4096 && MAX_EXTENTS == 4096
  {
    hide Normal, Paged, In, Size;
  }

  lemma OneRegion(rs: seq<Region>)
    requires rs == [Region(4096, 32768, true)]
    ensures Orderly(rs) && Trimmed(Gathered(rs), rs) == [Extent(4096, 36864)]
  {
    AscendingOrderly(rs);
    hide Orderly;
    var e := Extent(4096, 36864);
    assert rs[..0] == [];
    assert AlignUsable(rs[0]) == Some(e);
    Lands([], e, 0);
    GatherIs([], rs[0]);
    assert Gathered(rs) == Gather(Gathered(rs[..0]), rs[0]) == [e];
    assert Trimmed([e], rs) == Trim(Trimmed([e], rs[..0]), rs[0]) == [e];
  }

  lemma TakeOne(b: nat)
    requires b < 32768
    ensures Taken([Extent(b, 36864)]) == [Extent(b + 4096, 36864)]
  {
  }

  /** A page with no free neighbour goes in as it is. */
  lemma Lands(s: seq<Extent>, e: Extent, i: nat)
    requires i <= |s| && (forall k :: 0 <= k < i ==> s[k].end < e.begin)
             && (i < |s| ==> s[i].end >= e.begin && s[i].begin > e.end)
    ensures Inserted(s, e) == s[..i] + [e] + s[i..] && Absorbed(s, e) == 0 && MovesSafely(s, e)
  {
    FirstAt(s, e, 0, i);
    AbsorbStep(s, i, e);
    InsertedIs(s, e, i, i, e);
    MovedSame(s[i..], 0);
  }

  lemma {:induction false} FirstAt(s: seq<Extent>, e: Extent, k: nat, i: nat)
    requires k <= i <= |s| && (forall k :: 0 <= k < i ==> s[k].end < e.begin) && (i < |s| ==> s[i].end >= e.begin)
    ensures First(s, e, k) == i
    decreases i - k
  {
    if k < i { FirstAt(s, e, k + 1, i); }
  }

  lemma OutOf(s: seq<Extent>, x: nat)
    requires forall i :: 0 <= i < |s| ==> !Has(s[i], x)
    ensures !In(s, x)
  {
  }

  lemma Within(x: nat)
    requires 4096 <= x < 36864
    ensures In([Extent(4096, 36864)], x)
  {
    InHead([Extent(4096, 36864)], x);
  }

  lemma FreeFirst()
    ensures var s, e := [Extent(32768, 36864)], Extent(4096, 8192);
            Inserted(s, e) == [Extent(4096, 8192), Extent(32768, 36864)] && MovesSafely(s, e) && !In(s, 4096)
  {
    var s := [Extent(32768, 36864)];
    Lands(s, Extent(4096, 8192), 0);
    OutOf(s, 4096);
  }

  lemma FreeSecond()
    ensures var s, e := [Extent(4096, 8192), Extent(32768, 36864)], Extent(12288, 16384);
            Inserted(s, e) == [Extent(4096, 8192), Extent(12288, 16384), Extent(32768, 36864)] && MovesSafely(s, e)
              && !In(s, 12288)
  {
    var s := [Extent(4096, 8192), Extent(32768, 36864)];
    Lands(s, Extent(12288, 16384), 1);
    OutOf(s, 12288);
  }

  lemma FreeThird()
    ensures var s, e := [Extent(4096, 8192), Extent(12288, 16384), Extent(32768, 36864)], Extent(20480, 24576);
            && Inserted(s, e) == [Extent(4096, 8192), Extent(12288, 16384), Extent(20480, 24576), Extent(32768, 36864)]
            && MovesSafely(s, e) && !In(s, 20480)
  {
    var s := [Extent(4096, 8192), Extent(12288, 16384), Extent(32768, 36864)];
    Lands(s, Extent(20480, 24576), 2);
    OutOf(s, 20480);
  }

  lemma FreeFourth()
    ensures var s, e :=
            [Extent(4096, 8192), Extent(12288, 16384), Extent(20480, 24576), Extent(32768, 36864)], Extent(8192, 12288);
            && Inserted(s, e) == [Extent(4096, 16384), Extent(32768, 36864), Extent(32768, 36864)]
            && !MovesSafely(s, e) && !In(s, 8192) && !In(Inserted(s, e), 20480)
  {
    var s, e := [Extent(4096, 8192), Extent(12288, 16384), Extent(20480, 24576), Extent(32768, 36864)],
                Extent(8192, 12288);
    var g, h := Extent(4096, 12288), Extent(4096, 16384);
    FirstAt(s, e, 0, 0);
    AbsorbStep(s, 0, e);
    AbsorbStep(s, 1, g);
    AbsorbStep(s, 2, h);
    assert Hull(e, s[0]) == g && Hull(g, s[1]) == h;
    InsertedIs(s, e, 0, 2, h);
    var tail := s[2..];
    assert Source(1, 1, 2) == 1 && Source(0, 1, 2) == 1;
    assert Moved(tail, 1) == [tail[1], tail[1]];
    OutOf(s, 8192);
    OutOf([h, tail[1], tail[1]], 20480);
  }
}
